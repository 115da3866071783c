/**
 * The per-disease bar chart: a count per disease, and the label and value arrays
 * read off that dictionary.
 */
module Chart {
  import opened Wrappers
  import opened Seqs
  import opened Records

  /** The disease of every record, in list order. */
  function Diseases(apps: seq<Rec>): (r: seq<string>)
    ensures |r| == |apps| && forall i :: 0 <= i < |apps| ==> r[i] == apps[i].disease
  {
    seq(|apps|, i requires 0 <= i < |apps| => apps[i].disease)
  }

  /** How many records name `disease`. */
  function CountOf(apps: seq<Rec>, disease: string): nat {
    multiset(Diseases(apps))[disease]
  }

  /**
   * The chart data for `data` (`None` for `null` or `undefined`): `counts` maps each
   * disease that occurs to the number of records naming it; `labels` lists those
   * diseases once each in order of first occurrence (the key order of the
   * dictionary); `values[i]` is the count of `labels[i]`.
   */
  method ChartData(data: Option<seq<Rec>>) returns (counts: map<string, nat>, labels: seq<string>, values: seq<nat>)
    ensures data.None? ==> counts == map[] && labels == [] && values == []
    ensures forall x :: x in counts <==> x in Diseases(data.GetOr([]))
    ensures forall x :: x in counts ==> counts[x] == CountOf(data.GetOr([]), x)
    ensures labels == FirstOccurrences(Diseases(data.GetOr([])))
    ensures |values| == |labels| && forall i :: 0 <= i < |labels| ==> labels[i] in counts && values[i] == counts[labels[i]]
  {
    counts, labels := CountDiseases(data.GetOr([]));
    FirstOccurrencesExact(Diseases(data.GetOr([])));
    values := seq(|labels|, j requires 0 <= j < |labels| => counts[labels[j]]);
  }

  /**
   * `counts` and `labels` after walking `seen`: each disease met maps to how often it
   * was met, and the labels are the diseases met, in order of first meeting.
   */
  ghost predicate Tallied(counts: map<string, nat>, labels: seq<string>, seen: seq<string>) {
    && (forall x :: x in counts <==> x in seen)
    && (forall x :: x in counts ==> counts[x] == multiset(seen)[x])
    && labels == FirstOccurrences(seen)
  }

  /** The `forEach` that fills the dictionary, with the order its keys appear in. */
  method CountDiseases(apps: seq<Rec>) returns (counts: map<string, nat>, labels: seq<string>)
    ensures Tallied(counts, labels, Diseases(apps))
  {
    var ds := Diseases(apps);
    counts := map[];
    labels := [];
    for i := 0 to |ds|
      invariant Tallied(counts, labels, ds[..i])
    {
      assert ds[..i + 1] == ds[..i] + [ds[i]];
      counts, labels := Tally(counts, labels, ds[..i], ds[i]);
    }
    assert ds[..|ds|] == ds;
  }

  /** `counts[d] = (counts[d] || 0) + 1`, with the key order it leaves behind. */
  method Tally(counts: map<string, nat>, labels: seq<string>, seen: seq<string>, d: string)
    returns (counts': map<string, nat>, labels': seq<string>)
    requires Tallied(counts, labels, seen)
    ensures Tallied(counts', labels', seen + [d])
  {
    FirstOccurrencesSnoc(seen, d);
    FirstOccurrencesExact(seen);
    if d !in counts {
      labels' := labels + [d];
      counts' := counts[d := 1];
    } else {
      labels' := labels;
      counts' := counts[d := counts[d] + 1];
    }
  }

  /** The sum of a list of counts. */
  function Sum(values: seq<nat>): nat {
    if values == [] then 0 else values[0] + Sum(values[1..])
  }

  /** The sum of the counts of `labels` in a multiset. */
  function CountsSum(labels: seq<string>, m: multiset<string>): nat {
    if labels == [] then 0 else m[labels[0]] + CountsSum(labels[1..], m)
  }

  /** One more occurrence of `x` adds one to the sum when `x` is among the (distinct) labels. */
  lemma {:induction false} CountsSumAdd(labels: seq<string>, m: multiset<string>, x: string)
    requires NoDup(labels)
    ensures CountsSum(labels, m + multiset{x}) == CountsSum(labels, m) + if x in labels then 1 else 0
  {
    if labels != [] {
      assert NoDup(labels[1..]) by {
        forall i, j | 0 <= i < j < |labels[1..]| ensures labels[1..][i] != labels[1..][j] {
          assert labels[1..][i] == labels[i + 1] && labels[1..][j] == labels[j + 1];
        }
      }
      CountsSumAdd(labels[1..], m, x);
      if x == labels[0] {
        assert x !in labels[1..] by {
          forall k | 0 <= k < |labels[1..]| ensures labels[1..][k] != x {
            assert labels[1..][k] == labels[k + 1];
          }
        }
      }
      assert x in labels <==> x == labels[0] || x in labels[1..] by {
        assert labels == [labels[0]] + labels[1..];
      }
    }
  }

  /** Distinct labels covering every element of `s` have counts summing to `|s|`. */
  lemma {:induction false} CountsSumCovers(labels: seq<string>, s: seq<string>)
    requires NoDup(labels) && forall x :: x in s ==> x in labels
    ensures CountsSum(labels, multiset(s)) == |s|
  {
    if s == [] {
      CountsSumEmpty(labels);
    } else {
      var init := s[..|s| - 1];
      var x := s[|s| - 1];
      assert s == init + [x];
      assert forall y :: y in init ==> y in s;
      CountsSumCovers(labels, init);
      CountsSumAdd(labels, multiset(init), x);
    }
  }

  lemma {:induction false} CountsSumEmpty(labels: seq<string>)
    ensures CountsSum(labels, multiset{}) == 0
  {
    if labels != [] {
      CountsSumEmpty(labels[1..]);
    }
  }

  /** The values read off `counts` along `labels` sum as the counts of `labels`. */
  lemma {:induction false} SumAlongLabels(labels: seq<string>, values: seq<nat>, m: multiset<string>)
    requires |values| == |labels| && forall i :: 0 <= i < |labels| ==> values[i] == m[labels[i]]
    ensures Sum(values) == CountsSum(labels, m)
  {
    if labels != [] {
      SumAlongLabels(labels[1..], values[1..], m);
    }
  }

  /** The bars add up to the number of appointments. */
  lemma ValuesSumToTotal(data: Option<seq<Rec>>, counts: map<string, nat>, labels: seq<string>, values: seq<nat>)
    requires forall x :: x in counts ==> counts[x] == CountOf(data.GetOr([]), x)
    requires labels == FirstOccurrences(Diseases(data.GetOr([])))
    requires |values| == |labels| && forall i :: 0 <= i < |labels| ==> labels[i] in counts && values[i] == counts[labels[i]]
    ensures Sum(values) == |data.GetOr([])|
  {
    var s := Diseases(data.GetOr([]));
    FirstOccurrencesExact(s);
    SumAlongLabels(labels, values, multiset(s));
    CountsSumCovers(labels, s);
  }
}
