/**
 * The booking server: payload validation, the `/doctors` disease filter and the
 * outcomes of the `/appointments` routes over an id-to-record store.
 */
module Server {
  import opened Wrappers
  import opened Text
  import opened Seqs
  import opened Dates
  import opened Directory

  /**
   * One field of a JSON request body: absent (`undefined`), `null`, or a value whose
   * `String(...)` is `text` (a JSON number 34 and the string "34" are both `Given("34")`).
   */
  datatype Field = Missing | Null | Given(text: string)

  /**
   * A request body. `appointmentAt` is the instant `new Date(body.appointmentDate)`
   * denotes, `None` when that is an Invalid Date.
   */
  datatype Body = Body(
    name: Field, age: Field, gender: Field, disease: Field, doctor: Field,
    appointmentDate: Field, notes: Field, appointmentAt: Option<int>)

  /** `isFutureOrToday`: the date parses and its calendar day is today or later. */
  function IsFutureOrToday(date: Option<int>, now: int): (r: bool)
    ensures r <==> date.Some? && Day(date.value) >= Day(now)
  {
    match date
    case None => false
    case Some(d) => StartOfDay(d) >= StartOfDay(now)
  }

  /** The body fields the validator reads by name. */
  datatype Key = NameKey | AgeKey | GenderKey | DiseaseKey | DoctorKey | DateKey

  function KeyName(k: Key): string {
    match k
    case NameKey => "name"
    case AgeKey => "age"
    case GenderKey => "gender"
    case DiseaseKey => "disease"
    case DoctorKey => "doctor"
    case DateKey => "appointmentDate"
  }

  /** The rules `validateAppointmentPayload` reports, one per pushed message. */
  datatype ServerError = FieldRequired(field: Key) | AgeOutOfRange | PastDate | InvalidGender

  /** The exact text pushed for each rule. */
  function Message(e: ServerError): string {
    match e
    case FieldRequired(k) => KeyName(k) + " is required"
    case AgeOutOfRange => "Age must be a number between 0 and 120"
    case PastDate => "Appointment date cannot be in the past"
    case InvalidGender => "Invalid gender"
  }

  function Messages(es: seq<ServerError>): (r: seq<string>)
    ensures |r| == |es|
    ensures forall i :: 0 <= i < |es| ==> r[i] == Message(es[i])
  {
    seq(|es|, i requires 0 <= i < |es| => Message(es[i]))
  }

  lemma MessagesConcat(a: seq<ServerError>, b: seq<ServerError>)
    ensures Messages(a + b) == Messages(a) + Messages(b)
  {
  }

  lemma MessagesSnoc(a: seq<ServerError>, e: ServerError)
    ensures Messages(a + [e]) == Messages(a) + [Message(e)]
  {
    MessagesConcat(a, [e]);
  }

  /** The required fields, in the order the validator walks them. */
  const RequiredFields: seq<Key> := [NameKey, AgeKey, GenderKey, DiseaseKey, DoctorKey, DateKey]

  const Genders: seq<string> := ["Male", "Female", "Other"]

  /** Every error, in the order in which the validator can report them. */
  const AllErrors: seq<ServerError> := [
    FieldRequired(NameKey), FieldRequired(AgeKey), FieldRequired(GenderKey), FieldRequired(DiseaseKey),
    FieldRequired(DoctorKey), FieldRequired(DateKey), AgeOutOfRange, PastDate, InvalidGender]

  /** `body[k]`. */
  function FieldNamed(b: Body, k: Key): Field {
    match k
    case NameKey => b.name
    case AgeKey => b.age
    case GenderKey => b.gender
    case DiseaseKey => b.disease
    case DoctorKey => b.doctor
    case DateKey => b.appointmentDate
  }

  /**
   * The required-field test: undefined, null, or empty after `String(...).trim()`,
   * which is the case exactly when the text is all white space (`Text.Trim`).
   */
  predicate IsBlank(f: Field) {
    f.Missing? || f.Null? || AllSpace(f.text)
  }

  /** The blank test is the code's: `undefined`, `null`, or a text that trims to "". */
  lemma BlankIffTrimmedEmpty(f: Field)
    ensures IsBlank(f) <==> f.Missing? || f.Null? || Trim(f.text) == ""
  {
  }

  /** `Number(body.age)`: `undefined` is NaN, while `null` and a blank text are 0. */
  function NumberOf(f: Field): (r: Option<int>)
    ensures f.Missing? ==> r.None?
    ensures f.Null? || (f.Given? && AllSpace(f.text)) ==> r == Some(0)
    ensures f.Given? ==> r == ParseNumber(f.text)
  {
    match f
    case Missing => None
    case Null => Some(0)
    case Given(s) => ParseNumber(s)
  }

  predicate AgeInRange(b: Body) {
    NumberOf(b.age).Some? && 0 <= NumberOf(b.age).value <= 120
  }

  /** `["Male", "Female", "Other"].includes(body.gender)`. */
  predicate GenderAllowed(b: Body) {
    b.gender.Given? && b.gender.text in Genders
  }

  /** One `FieldRequired` per blank field among `keys`, in the order of `keys`. */
  function MissingFields(b: Body, keys: seq<Key>): seq<ServerError> {
    if keys == [] then []
    else
      var k := keys[|keys| - 1];
      MissingFields(b, keys[..|keys| - 1]) + if IsBlank(FieldNamed(b, k)) then [FieldRequired(k)] else []
  }

  /** All four rules, each checked whatever the others found. */
  function PayloadErrors(b: Body, now: int): seq<ServerError> {
    MissingFields(b, RequiredFields)
    + (if !AgeInRange(b) then [AgeOutOfRange] else [])
    + (if !IsFutureOrToday(b.appointmentAt, now) then [PastDate] else [])
    + (if !GenderAllowed(b) then [InvalidGender] else [])
  }

  /** The first rule of `validateAppointmentPayload`: "<field> is required" per blank required field. */
  method RequiredMessages(b: Body) returns (errors: seq<string>)
    ensures errors == Messages(MissingFields(b, RequiredFields))
  {
    errors := [];
    for i := 0 to |RequiredFields|
      invariant errors == Messages(MissingFields(b, RequiredFields[..i]))
    {
      var k := RequiredFields[i];
      assert RequiredFields[..i + 1][..i] == RequiredFields[..i];
      ghost var found: seq<ServerError> := if IsBlank(FieldNamed(b, k)) then [FieldRequired(k)] else [];
      MessagesConcat(MissingFields(b, RequiredFields[..i]), found);
      if IsBlank(FieldNamed(b, k)) {
        errors := errors + [KeyName(k) + " is required"];
      }
    }
    assert RequiredFields[..|RequiredFields|] == RequiredFields;
  }

  /** `validateAppointmentPayload`: the message of every violated rule, in rule order. */
  method ValidateAppointmentPayload(b: Body, now: int) returns (errors: seq<string>)
    ensures errors == Messages(PayloadErrors(b, now))
  {
    errors := RequiredMessages(b);
    ghost var missing := MissingFields(b, RequiredFields);
    ghost var ageError: seq<ServerError> := if !AgeInRange(b) then [AgeOutOfRange] else [];
    ghost var dateError: seq<ServerError> := if !IsFutureOrToday(b.appointmentAt, now) then [PastDate] else [];
    ghost var genderError: seq<ServerError> := if !GenderAllowed(b) then [InvalidGender] else [];
    assert PayloadErrors(b, now) == missing + ageError + dateError + genderError;
    ghost var es := missing;
    var ageNumber := NumberOf(b.age);
    if ageNumber.None? || ageNumber.value < 0 || ageNumber.value > 120 {
      MessagesSnoc(es, AgeOutOfRange);
      errors, es := errors + [Message(AgeOutOfRange)], es + [AgeOutOfRange];
    }
    assert errors == Messages(es);
    assert es == missing + ageError;
    if !IsFutureOrToday(b.appointmentAt, now) {
      MessagesSnoc(es, PastDate);
      errors, es := errors + [Message(PastDate)], es + [PastDate];
    }
    assert errors == Messages(es);
    assert es == missing + ageError + dateError;
    if !(b.gender.Given? && b.gender.text in Genders) {
      MessagesSnoc(es, InvalidGender);
      errors, es := errors + [Message(InvalidGender)], es + [InvalidGender];
    }
    assert errors == Messages(es);
    assert es == missing + ageError + dateError + genderError;
  }

  lemma {:induction false} MissingFieldsExact(b: Body, keys: seq<Key>, e: ServerError)
    ensures e in MissingFields(b, keys) <==> e.FieldRequired? && e.field in keys && IsBlank(FieldNamed(b, e.field))
  {
    if keys != [] {
      MissingFieldsExact(b, keys[..|keys| - 1], e);
      assert keys == keys[..|keys| - 1] + [keys[|keys| - 1]];
    }
  }

  /**
   * A body is accepted (no error at all) exactly when the six required fields are
   * present and non-blank, the age is a number in [0, 120], the date is today or
   * later, and the gender is Male, Female or Other.
   */
  lemma PayloadAcceptedIff(b: Body, now: int)
    ensures PayloadErrors(b, now) == [] <==>
      && !IsBlank(b.name) && !IsBlank(b.age) && !IsBlank(b.gender)
      && !IsBlank(b.disease) && !IsBlank(b.doctor) && !IsBlank(b.appointmentDate)
      && AgeInRange(b)
      && b.appointmentAt.Some? && Day(b.appointmentAt.value) >= Day(now)
      && GenderAllowed(b)
  {
    PayloadErrorsEmpty(b, now);
    MissingFieldsEmpty(b, RequiredFields);
    RequiredFieldsGiven(b);
  }

  lemma RequiredFieldsGiven(b: Body)
    ensures (forall k :: k in RequiredFields ==> !IsBlank(FieldNamed(b, k))) <==>
      && !IsBlank(b.name) && !IsBlank(b.age) && !IsBlank(b.gender)
      && !IsBlank(b.disease) && !IsBlank(b.doctor) && !IsBlank(b.appointmentDate)
  {
    var given := !IsBlank(b.name) && !IsBlank(b.age) && !IsBlank(b.gender)
      && !IsBlank(b.disease) && !IsBlank(b.doctor) && !IsBlank(b.appointmentDate);
    if forall k :: k in RequiredFields ==> !IsBlank(FieldNamed(b, k)) {
      assert !IsBlank(FieldNamed(b, NameKey)) && !IsBlank(FieldNamed(b, AgeKey)) && !IsBlank(FieldNamed(b, GenderKey));
      assert !IsBlank(FieldNamed(b, DiseaseKey)) && !IsBlank(FieldNamed(b, DoctorKey)) && !IsBlank(FieldNamed(b, DateKey));
    }
    if given {
      forall k | k in RequiredFields
        ensures !IsBlank(FieldNamed(b, k))
      {
      }
    }
  }

  lemma PayloadErrorsEmpty(b: Body, now: int)
    ensures PayloadErrors(b, now) == [] <==>
      MissingFields(b, RequiredFields) == [] && AgeInRange(b) && IsFutureOrToday(b.appointmentAt, now) && GenderAllowed(b)
  {
    var m := MissingFields(b, RequiredFields);
    var age: seq<ServerError> := if !AgeInRange(b) then [AgeOutOfRange] else [];
    var date: seq<ServerError> := if !IsFutureOrToday(b.appointmentAt, now) then [PastDate] else [];
    var gender: seq<ServerError> := if !GenderAllowed(b) then [InvalidGender] else [];
    assert PayloadErrors(b, now) == m + age + date + gender;
    assert |PayloadErrors(b, now)| == |m| + |age| + |date| + |gender|;
  }

  /** No `FieldRequired` is reported exactly when every key names a non-blank field. */
  lemma {:induction false} MissingFieldsEmpty(b: Body, keys: seq<Key>)
    ensures MissingFields(b, keys) == [] <==> forall k :: k in keys ==> !IsBlank(FieldNamed(b, k))
  {
    if keys != [] {
      MissingFieldsEmpty(b, keys[..|keys| - 1]);
      assert keys == keys[..|keys| - 1] + [keys[|keys| - 1]];
    }
  }

  /** The errors always come in the fixed order of `AllErrors`, each at most once. */
  lemma ErrorOrderFixed(b: Body, now: int)
    ensures IsSubseq(PayloadErrors(b, now), AllErrors)
  {
    MissingFieldsInOrder(b, RequiredFields);
    var req := seq(|RequiredFields|, i requires 0 <= i < |RequiredFields| => FieldRequired(RequiredFields[i]));
    assert AllErrors == req + [AgeOutOfRange] + [PastDate] + [InvalidGender];
    var age: seq<ServerError> := if !AgeInRange(b) then [AgeOutOfRange] else [];
    var date: seq<ServerError> := if !IsFutureOrToday(b.appointmentAt, now) then [PastDate] else [];
    var gender: seq<ServerError> := if !GenderAllowed(b) then [InvalidGender] else [];
    OptionalSubseq(!AgeInRange(b), AgeOutOfRange);
    OptionalSubseq(!IsFutureOrToday(b.appointmentAt, now), PastDate);
    OptionalSubseq(!GenderAllowed(b), InvalidGender);
    SubseqConcat(MissingFields(b, RequiredFields), age, req, [AgeOutOfRange]);
    SubseqConcat(MissingFields(b, RequiredFields) + age, date, req + [AgeOutOfRange], [PastDate]);
    SubseqConcat(MissingFields(b, RequiredFields) + age + date, gender, req + [AgeOutOfRange] + [PastDate], [InvalidGender]);
  }

  lemma OptionalSubseq(c: bool, e: ServerError)
    ensures IsSubseq(if c then [e] else [], [e])
  {
    assert [e][1..] == [];
  }

  lemma {:induction false} MissingFieldsInOrder(b: Body, keys: seq<Key>)
    ensures IsSubseq(MissingFields(b, keys), seq(|keys|, i requires 0 <= i < |keys| => FieldRequired(keys[i])))
  {
    var all := seq(|keys|, i requires 0 <= i < |keys| => FieldRequired(keys[i]));
    if keys != [] {
      var init := keys[..|keys| - 1];
      var k := keys[|keys| - 1];
      MissingFieldsInOrder(b, init);
      var allInit := seq(|init|, i requires 0 <= i < |init| => FieldRequired(init[i]));
      assert all == allInit + [FieldRequired(k)];
      OptionalSubseq(IsBlank(FieldNamed(b, k)), FieldRequired(k));
      SubseqConcat(MissingFields(b, init), if IsBlank(FieldNamed(b, k)) then [FieldRequired(k)] else [],
                   allInit, [FieldRequired(k)]);
    }
  }

  /** A blank or missing gender is reported twice: as required and as invalid. */
  lemma BlankGenderReportedTwice(b: Body, now: int)
    requires IsBlank(b.gender)
    ensures FieldRequired(GenderKey) in PayloadErrors(b, now)
    ensures InvalidGender in PayloadErrors(b, now)
  {
    MissingFieldsExact(b, RequiredFields, FieldRequired(GenderKey));
    if b.gender.Given? && b.gender.text in Genders {
      GenderNotBlank(b.gender.text);
    }
  }

  /** The date text is absent or white space only (not `null`, which `new Date` reads as 1970). */
  predicate DateTextBlank(b: Body) {
    b.appointmentDate.Missing? || (b.appointmentDate.Given? && AllSpace(b.appointmentDate.text))
  }

  /** `appointmentAt` agrees with the text: `new Date` of an absent or blank text is an Invalid Date. */
  predicate DateReadFromText(b: Body) {
    DateTextBlank(b) ==> b.appointmentAt.None?
  }

  /** An absent or blank date is reported twice: as required and as a past date. */
  lemma MissingDateReportedTwice(b: Body, now: int)
    requires DateReadFromText(b) && DateTextBlank(b)
    ensures FieldRequired(DateKey) in PayloadErrors(b, now)
    ensures PastDate in PayloadErrors(b, now)
  {
    MissingFieldsExact(b, RequiredFields, FieldRequired(DateKey));
  }

  lemma GenderNotBlank(t: string)
    requires t in Genders
    ensures !AllSpace(t)
  {
    assert t[0] == 'M' || t[0] == 'F' || t[0] == 'O';
    assert !IsSpace(t[0]);
  }

  /** A date on an earlier calendar day is always rejected, whatever the other fields hold. */
  lemma PastDayRejected(b: Body, now: int)
    requires b.appointmentAt.Some? && Day(b.appointmentAt.value) < Day(now)
    ensures PastDate in PayloadErrors(b, now)
  {
  }

  /** The age error is reported exactly when the age is NaN or outside [0, 120]. */
  lemma AgeErrorIff(b: Body, now: int)
    ensures AgeOutOfRange in PayloadErrors(b, now) <==> !AgeInRange(b)
  {
    MissingFieldsExact(b, RequiredFields, AgeOutOfRange);
  }

  /** A stored appointment. */
  datatype Appointment = Appointment(
    id: nat, name: string, age: int, gender: string, disease: string, doctor: string,
    appointmentAt: int, notes: Option<string>)

  function AppointmentDate(a: Appointment): int {
    a.appointmentAt
  }

  function TextOf(f: Field): string {
    if f.Given? then f.text else ""
  }

  function NotesOf(f: Field, previous: Option<string>): Option<string> {
    match f
    case Missing => previous
    case Null => None
    case Given(t) => Some(t)
  }

  /**
   * The record `Appointment.create({ ...body, appointmentDate: new Date(...) })` stores
   * under `id`. It is only built for an accepted body, whose fields are all given.
   */
  function Created(id: nat, b: Body): (r: Appointment)
    ensures r.id == id
    ensures b.name.Given? ==> r.name == b.name.text
    ensures b.gender.Given? ==> r.gender == b.gender.text
    ensures b.disease.Given? ==> r.disease == b.disease.text
    ensures b.doctor.Given? ==> r.doctor == b.doctor.text
    ensures NumberOf(b.age).Some? ==> r.age == NumberOf(b.age).value
    ensures b.appointmentAt.Some? ==> r.appointmentAt == b.appointmentAt.value
    ensures r.notes == if b.notes.Given? then Some(b.notes.text) else None
  {
    Appointment(id, TextOf(b.name), NumberOf(b.age).GetOr(0), TextOf(b.gender), TextOf(b.disease),
                TextOf(b.doctor), b.appointmentAt.GetOr(0), NotesOf(b.notes, None))
  }

  /**
   * `findByIdAndUpdate(id, payload)` for an accepted body: the id stays, every
   * required field takes the body's value, and the notes are kept when the body
   * has none, cleared by `null`, and replaced otherwise.
   */
  function Updated(a: Appointment, b: Body): (r: Appointment)
    ensures r.id == a.id
    ensures b.name.Given? ==> r.name == b.name.text
    ensures b.gender.Given? ==> r.gender == b.gender.text
    ensures b.disease.Given? ==> r.disease == b.disease.text
    ensures b.doctor.Given? ==> r.doctor == b.doctor.text
    ensures NumberOf(b.age).Some? ==> r.age == NumberOf(b.age).value
    ensures b.appointmentAt.Some? ==> r.appointmentAt == b.appointmentAt.value
    ensures b.notes.Missing? ==> r.notes == a.notes
    ensures b.notes.Null? ==> r.notes == None
    ensures b.notes.Given? ==> r.notes == Some(b.notes.text)
  {
    Appointment(a.id, TextOf(b.name), NumberOf(b.age).GetOr(0), TextOf(b.gender), TextOf(b.disease),
                TextOf(b.doctor), b.appointmentAt.GetOr(0), NotesOf(b.notes, a.notes))
  }

  /**
   * PUT stores what POST of the same body would store under the record's id, except
   * that notes absent from the body keep the record's old notes.
   */
  lemma UpdatedIsCreated(a: Appointment, b: Body)
    ensures !b.notes.Missing? ==> Updated(a, b) == Created(a.id, b)
    ensures b.notes.Missing? ==> Updated(a, b) == Created(a.id, b).(notes := a.notes)
  {
  }

  datatype Reply =
    | RecordReply(record: Appointment)
    | ListReply(items: seq<Appointment>)
    | ErrorReply(error: string)
    | MessageReply(message: string)

  datatype Response = Response(status: int, reply: Reply)

  const NotFound: Response := Response(404, ErrorReply("Appointment not found"))

  function Rejected(b: Body, now: int): Response {
    Response(400, ErrorReply(Join(Messages(PayloadErrors(b, now)), ", ")))
  }

  /** The `$elemMatch` test: some disease of the doctor equals `query` up to case. */
  function TreatsIgnoringCase(query: string): Doctor -> bool {
    (d: Doctor) => exists x :: x in d.diseases && EqualsIgnoreCase(x, query)
  }

  /**
   * `GET /doctors`: every doctor, or only those treating `disease` up to case, in
   * directory order and as often as the directory lists them.
   */
  function DoctorsQuery(directory: seq<Doctor>, disease: Option<string>): (r: seq<Doctor>)
    ensures disease.None? || disease.value == "" ==> r == directory
    ensures disease.Some? && disease.value != "" ==>
      && IsSubseq(r, directory)
      && |r| == CountIndices(directory, TreatsIgnoringCase(disease.value))
      && forall d :: d in r <==> d in directory && exists x :: x in d.diseases && EqualsIgnoreCase(x, disease.value)
  {
    if disease.None? || disease.value == "" then directory
    else
      FilterProperties(directory, TreatsIgnoringCase(disease.value));
      FilterLength(directory, TreatsIgnoringCase(disease.value));
      Filter(directory, TreatsIgnoringCase(disease.value))
  }

  /** Every record of `m` once, in no particular order (`find()` without a sort). */
  method CollectValues(m: map<nat, Appointment>) returns (items: seq<Appointment>)
    requires forall id :: id in m ==> m[id].id == id
    ensures NoDup(items) && |items| == |m|
    ensures forall a :: a in items <==> a in m.Values
  {
    items := [];
    var remaining := m.Keys;
    while remaining != {}
      invariant remaining <= m.Keys && |items| + |remaining| == |m| && NoDup(items)
      invariant forall j :: 0 <= j < |items| ==> items[j].id in m && items[j].id !in remaining && items[j] == m[items[j].id]
      invariant forall k :: k in m && k !in remaining ==> m[k] in items
      decreases |remaining|
    {
      var k :| k in remaining;
      var a := m[k];
      assert a !in items by {
        forall j | 0 <= j < |items| ensures items[j] != a {
          assert items[j].id !in remaining;
        }
      }
      NoDupSnoc(items, a);
      assert forall j :: 0 <= j < |items| ==> (items + [a])[j] == items[j];
      items := items + [a];
      remaining := remaining - {k};
    }
  }

  /** The appointments collection: records keyed by their id, ids handed out in sequence. */
  class AppointmentStore {
    var records: map<nat, Appointment>
    var nextId: nat

    ghost predicate Valid()
      reads this
    {
      forall id :: id in records ==> id < nextId && records[id].id == id
    }

    constructor ()
      ensures Valid() && records == map[]
    {
      records := map[];
      nextId := 0;
    }

    /** `POST /appointments`. */
    method Post(b: Body, now: int) returns (res: Response)
      requires Valid()
      modifies this
      ensures Valid()
      ensures PayloadErrors(b, now) != [] ==> res == Rejected(b, now) && records == old(records)
      ensures PayloadErrors(b, now) == [] ==>
        && old(nextId) !in old(records)
        && records == old(records)[old(nextId) := Created(old(nextId), b)]
        && res == Response(201, RecordReply(Created(old(nextId), b)))
    {
      var errors := ValidateAppointmentPayload(b, now);
      if |errors| > 0 {
        return Response(400, ErrorReply(Join(errors, ", ")));
      }
      var created := Created(nextId, b);
      records := records[nextId := created];
      nextId := nextId + 1;
      res := Response(201, RecordReply(created));
    }

    /** `PUT /appointments/:id`: validation comes first, so a bad body is 400 even for an unknown id. */
    method Put(id: nat, b: Body, now: int) returns (res: Response)
      requires Valid()
      modifies this
      ensures Valid() && nextId == old(nextId)
      ensures PayloadErrors(b, now) != [] ==> res == Rejected(b, now) && records == old(records)
      ensures PayloadErrors(b, now) == [] && id !in old(records) ==> res == NotFound && records == old(records)
      ensures PayloadErrors(b, now) == [] && id in old(records) ==>
        && records == old(records)[id := Updated(old(records)[id], b)]
        && res == Response(200, RecordReply(Updated(old(records)[id], b)))
    {
      var errors := ValidateAppointmentPayload(b, now);
      if |errors| > 0 {
        return Response(400, ErrorReply(Join(errors, ", ")));
      }
      if id !in records {
        return NotFound;
      }
      var updated := Updated(records[id], b);
      records := records[id := updated];
      res := Response(200, RecordReply(updated));
    }

    /** `DELETE /appointments/:id`. */
    method Delete(id: nat) returns (res: Response)
      requires Valid()
      modifies this
      ensures Valid() && nextId == old(nextId)
      ensures id !in old(records) ==> res == NotFound && records == old(records)
      ensures id in old(records) ==>
        && records == old(records) - {id}
        && res == Response(200, MessageReply("Deleted successfully"))
    {
      if id !in records {
        return NotFound;
      }
      records := records - {id};
      res := Response(200, MessageReply("Deleted successfully"));
    }

    /**
     * `GET /appointments`: every stored record exactly once, in ascending order of
     * appointment date (records on the same date in no promised order).
     */
    method List() returns (res: Response)
      requires Valid()
      ensures res.status == 200 && res.reply.ListReply?
      ensures SortedByKey(res.reply.items, AppointmentDate)
      ensures NoDup(res.reply.items) && |res.reply.items| == |records|
      ensures forall a :: a in res.reply.items <==> a in records.Values
    {
      var items := CollectValues(records);
      var sorted := SortByKey(items, AppointmentDate);
      NoDupPermutation(items, sorted);
      assert forall a :: a in sorted <==> a in items by {
        forall a ensures a in sorted <==> a in items {
          assert a in sorted <==> a in multiset(sorted);
          assert a in items <==> a in multiset(items);
        }
      }
      res := Response(200, ListReply(sorted));
    }
  }
}
