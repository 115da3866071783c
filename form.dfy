/**
 * The booking form: the fallback directory, the disease drop-down, the doctor
 * matcher with its show-all fallback, field validation, and submission with its
 * local-cache fallback.
 */
module Form {
  import opened Wrappers
  import opened Text
  import opened Seqs
  import opened Dates
  import opened Directory
  import opened Records
  import Server

  /** The drop-down offered when no doctor lists a disease, in this order. */
  const DefaultDiseases: seq<string> := [
    "Hypertension", "Heart Disease", "Arrhythmia", "Acne", "Eczema", "Psoriasis",
    "Skin Allergy", "Fever", "Cold", "Flu", "Vaccination"]

  /** The directory used when the doctors cannot be loaded (the images are bundled assets). */
  const DefaultDoctors: seq<Doctor> := [
    Doctor("Dr. Alice Smith", "Cardiologist", "doctor1.jpg", ["Heart Disease", "Hypertension", "Arrhythmia"]),
    Doctor("Dr. John Doe", "Dermatologist", "doctor2.jpg", ["Acne", "Eczema", "Psoriasis", "Skin Allergy"]),
    Doctor("Dr. Emily Brown", "Pediatrician", "doctor3.jpg", ["Fever", "Cold", "Flu", "Vaccination"])]

  /** The fallback drop-down lists exactly the diseases the fallback doctors treat. */
  lemma DefaultsAgree()
    ensures forall x :: x in DefaultDiseases <==> exists d :: d in DefaultDoctors && x in d.diseases
  {
    var a := DefaultDoctors[0];
    var b := DefaultDoctors[1];
    var c := DefaultDoctors[2];
    assert forall x :: x in DefaultDiseases <==> x in a.diseases || x in b.diseases || x in c.diseases;
    forall x | x in a.diseases || x in b.diseases || x in c.diseases
      ensures exists d :: d in DefaultDoctors && x in d.diseases
    {
      if x in a.diseases { assert a in DefaultDoctors; }
      else if x in b.diseases { assert b in DefaultDoctors; }
      else { assert c in DefaultDoctors; }
    }
  }

  /** What `GET /doctors` gave the form. */
  datatype DoctorsReply =
    | FetchFailed              // the request or the JSON decoding threw
    | NotAnArray               // the body decoded to something other than an array
    | DoctorArray(list: seq<Doctor>)

  /** The directory the form works with: the fetched array when it is a non-empty one, the defaults otherwise. */
  function DirectoryFrom(reply: DoctorsReply): (r: seq<Doctor>)
    ensures r != []
    ensures reply.DoctorArray? && reply.list != [] ==> r == reply.list
    ensures !(reply.DoctorArray? && reply.list != []) ==> r == DefaultDoctors
  {
    if reply.DoctorArray? && |reply.list| > 0 then reply.list else DefaultDoctors
  }

  /** Some doctor lists at least one disease. */
  predicate AnyDiseaseListed(doctors: seq<Doctor>) {
    exists d :: d in doctors && d.diseases != []
  }

  /** Every disease of every doctor, doctor by doctor, each doctor's list in its own order. */
  function AllDiseases(doctors: seq<Doctor>): seq<string> {
    if doctors == [] then [] else AllDiseases(doctors[..|doctors| - 1]) + doctors[|doctors| - 1].diseases
  }

  lemma {:induction false} AllDiseasesMembers(doctors: seq<Doctor>, x: string)
    ensures x in AllDiseases(doctors) <==> exists d :: d in doctors && x in d.diseases
  {
    if doctors != [] {
      var init := doctors[..|doctors| - 1];
      var last := doctors[|doctors| - 1];
      AllDiseasesMembers(init, x);
      assert doctors == init + [last];
      if x in last.diseases {
        assert last in doctors;
      }
      if d :| d in doctors && x in d.diseases {
        if d != last {
          assert d in init;
        }
      }
    }
  }

  /**
   * `diseaseOptions`: every doctor's diseases gathered into a `Set`, sorted. The
   * result has no repeats, is in order, and holds exactly the diseases some doctor
   * lists; when no doctor lists any, the default list is offered instead.
   */
  method DiseaseOptions(doctors: seq<Doctor>) returns (options: seq<string>)
    ensures !AnyDiseaseListed(doctors) ==> options == DefaultDiseases
    ensures AnyDiseaseListed(doctors) ==>
      && SortedStrings(options) && NoDup(options)
      && forall x :: x in options <==> exists d :: d in doctors && x in d.diseases
  {
    var seen := DiseaseSet(doctors);
    var list := SortStrings(seen);
    GatheredDiseases(doctors, seen);
    if |list| > 0 {
      options := list;
    } else {
      options := DefaultDiseases;
    }
  }

  /**
   * The nested `forEach` that fills the `Set`: the diseases in the order they are
   * first met (a `Set` iterates in insertion order).
   */
  method DiseaseSet(doctors: seq<Doctor>) returns (seen: seq<string>)
    ensures seen == FirstOccurrences(AllDiseases(doctors))
  {
    seen := [];
    for i := 0 to |doctors|
      invariant seen == FirstOccurrences(AllDiseases(doctors[..i]))
    {
      AllDiseasesStep(doctors, i);
      seen := AddDiseases(seen, AllDiseases(doctors[..i]), doctors[i].diseases);
    }
    assert doctors[..|doctors|] == doctors;
  }

  /** One more doctor: that doctor's diseases come after everything gathered so far. */
  lemma AllDiseasesStep(doctors: seq<Doctor>, i: nat)
    requires i < |doctors|
    ensures AllDiseases(doctors[..i + 1]) == AllDiseases(doctors[..i]) + doctors[i].diseases
  {
    assert doctors[..i + 1][..i] == doctors[..i];
  }

  /** The inner `forEach`: each disease of one doctor is added to the `Set` unless already there. */
  method AddDiseases(seen: seq<string>, walked: seq<string>, ds: seq<string>) returns (seen': seq<string>)
    requires seen == FirstOccurrences(walked)
    ensures seen' == FirstOccurrences(walked + ds)
  {
    seen' := seen;
    assert walked + ds[..0] == walked;
    for j := 0 to |ds|
      invariant seen' == FirstOccurrences(walked + ds[..j])
    {
      assert walked + ds[..j + 1] == walked + ds[..j] + [ds[j]];
      FirstOccurrencesSnoc(walked + ds[..j], ds[j]);
      if ds[j] !in seen' {
        seen' := seen' + [ds[j]];
      }
    }
    assert ds[..|ds|] == ds;
  }

  /** The sorted distinct diseases hold exactly the diseases some doctor lists, and are empty exactly when none does. */
  lemma GatheredDiseases(doctors: seq<Doctor>, seen: seq<string>)
    requires seen == FirstOccurrences(AllDiseases(doctors))
    ensures NoDup(SortStrings(seen))
    ensures forall x :: x in SortStrings(seen) <==> exists d :: d in doctors && x in d.diseases
    ensures SortStrings(seen) == [] <==> !AnyDiseaseListed(doctors)
  {
    var list := SortStrings(seen);
    FirstOccurrencesExact(AllDiseases(doctors));
    NoDupPermutation(seen, list);
    forall x
      ensures x in list <==> exists d :: d in doctors && x in d.diseases
    {
      AllDiseasesMembers(doctors, x);
      assert x in list <==> x in multiset(list);
      assert x in seen <==> x in multiset(seen);
    }
    if |list| > 0 {
      assert list[0] in list;
    }
    if d :| d in doctors && d.diseases != [] {
      assert d.diseases[0] in list;
    }
  }

  /** The selection and the disease names as the matcher compares them: lower-cased, then trimmed. */
  function Normalize(s: string): (r: string)
    ensures |r| <= |s|
    ensures r == [] <==> AllSpace(s)
    ensures NoCapitals(r)
  {
    LowerKeepsSpaces(s);
    TrimKeepsLower(ToLower(s));
    Trim(ToLower(s))
  }

  /** A string contains itself, so the matcher's exact-match test adds nothing to its substring test. */
  lemma ContainsItself(s: string)
    ensures Contains(s, s)
  {
    assert OccursAt(s, s, 0);
  }

  /** One doctor passes the matcher: some disease, normalised, equals or contains the selection. */
  predicate Matches(d: Doctor, selected: string) {
    exists x :: x in d.diseases && (Normalize(x) == selected || Contains(Normalize(x), selected))
  }

  /** The matcher as the test handed to `filter`. */
  function MatchesSelection(selected: string): Doctor -> bool {
    (d: Doctor) => Matches(d, selected)
  }

  /**
   * `availableDoctors`: nothing while the normalised selection is empty; otherwise
   * the doctors, in directory order and as often as the directory lists them,
   * having a disease whose normalised name contains the normalised selection.
   */
  function AvailableDoctors(doctors: seq<Doctor>, disease: string): (r: seq<Doctor>)
    ensures Normalize(disease) == [] ==> r == []
    ensures IsSubseq(r, doctors)
    ensures Normalize(disease) != [] ==>
      && |r| == CountIndices(doctors, MatchesSelection(Normalize(disease)))
      && forall d :: d in r <==> d in doctors && exists x :: x in d.diseases && Contains(Normalize(x), Normalize(disease))
  {
    var selected := Normalize(disease);
    if selected == [] then
      []
    else
      var r := Filter(doctors, MatchesSelection(selected));
      FilterProperties(doctors, MatchesSelection(selected));
      FilterLength(doctors, MatchesSelection(selected));
      forall x ensures Normalize(x) == selected ==> Contains(Normalize(x), selected) {
        if Normalize(x) == selected { ContainsItself(selected); }
      }
      r
  }

  /** What the doctor area of the form shows. */
  datatype Panel =
    | Prompt                          // "Select a disease to view available doctors."
    | AllDoctors(shown: seq<Doctor>)  // "No exact match found ... Showing all doctors." and the whole directory
    | Matching(shown: seq<Doctor>)    // the matching doctors

  /**
   * The doctor area: a prompt while no disease is chosen; the matching doctors
   * when there are some; otherwise the whole directory.
   */
  function DoctorPanel(doctors: seq<Doctor>, disease: string): (p: Panel)
    ensures disease == "" <==> p.Prompt?
    ensures p.AllDoctors? ==> p.shown == doctors && AvailableDoctors(doctors, disease) == []
    ensures p.Matching? ==> p.shown == AvailableDoctors(doctors, disease) && p.shown != []
  {
    if disease == "" then Prompt
    else
      var available := AvailableDoctors(doctors, disease);
      if |available| == 0 then AllDoctors(doctors) else Matching(available)
  }

  /** Once a disease is chosen, a non-empty directory always offers some doctor, all from the directory. */
  lemma PanelNeverEmpty(doctors: seq<Doctor>, disease: string)
    requires doctors != [] && disease != ""
    ensures !DoctorPanel(doctors, disease).Prompt?
    ensures DoctorPanel(doctors, disease).shown != []
    ensures forall d :: d in DoctorPanel(doctors, disease).shown ==> d in doctors
  {
  }

  /** A chosen disease that is only white space matches nobody, so the whole directory is shown. */
  lemma BlankSelectionShowsAll(doctors: seq<Doctor>, disease: string)
    requires disease != "" && AllSpace(disease)
    ensures DoctorPanel(doctors, disease) == AllDoctors(doctors)
  {
    var lower := ToLower(disease);
    forall k | 0 <= k < |lower|
      ensures IsSpace(lower[k])
    {
      assert lower[k] == LowerChar(disease[k]);
    }
  }

  /**
   * The form fields as the inputs hold them. `ageNumber` is `Number(age)`, `None`
   * when that is NaN; `appointmentAt` is the instant `new Date(appointmentDate)`
   * denotes, `None` for an Invalid Date.
   */
  datatype FormData = FormData(
    name: string, age: string, ageNumber: Option<int>, gender: string, disease: string, doctor: string,
    appointmentDate: string, appointmentAt: Option<int>, notes: string)

  const EmptyForm: FormData := FormData("", "", Some(0), "", "", "", "", None, "")

  /** The keys of the form's `errors` object. */
  datatype FormKey = NameField | AgeField | GenderField | DiseaseField | DoctorField | DateField | NotesField

  predicate AgeValid(f: FormData) {
    f.age != "" && f.ageNumber.Some? && 0 <= f.ageNumber.value <= 120
  }

  /** The selected day is earlier than today (false for an Invalid Date, whose comparison is with NaN). */
  predicate DayPassed(f: FormData, now: int) {
    f.appointmentAt.Some? && Day(f.appointmentAt.value) < Day(now)
  }

  /** The rules of `validate`, all of them, as one condition. */
  predicate FormAccepted(f: FormData, now: int) {
    && f.name != "" && AgeValid(f) && f.gender != "" && f.disease != "" && f.doctor != ""
    && f.appointmentDate != "" && !DayPassed(f, now)
  }

  /** The messages `validate` sets, one constant each. */
  const NameRequired: string := "Name is required"
  const AgeRequired: string := "Age is required"
  const AgeNotNumber: string := "Age must be a number"
  const AgeOutOfBounds: string := "Age must be between 0 and 120"
  const GenderRequired: string := "Select gender"
  const DiseaseRequired: string := "Select disease"
  const DoctorRequired: string := "Select a doctor"
  const DateRequired: string := "Select date"
  const DatePassed: string := "Date must be today or future"

  /**
   * `e` is what `validate` returns for `f` on day `now`: at most one message per
   * field, the age message chosen in the order required, not a number, out of range.
   */
  ghost predicate ValidationOf(f: FormData, now: int, e: map<FormKey, string>) {
    && NotesField !in e
    && (NameField in e <==> f.name == "")
    && (NameField in e ==> e[NameField] == NameRequired)
    && (AgeField in e <==> !AgeValid(f))
    && (AgeField in e && f.age == "" ==> e[AgeField] == AgeRequired)
    && (AgeField in e && f.age != "" && f.ageNumber.None? ==> e[AgeField] == AgeNotNumber)
    && (AgeField in e && f.age != "" && f.ageNumber.Some? ==> e[AgeField] == AgeOutOfBounds)
    && (GenderField in e <==> f.gender == "")
    && (GenderField in e ==> e[GenderField] == GenderRequired)
    && (DiseaseField in e <==> f.disease == "")
    && (DiseaseField in e ==> e[DiseaseField] == DiseaseRequired)
    && (DoctorField in e <==> f.doctor == "")
    && (DoctorField in e ==> e[DoctorField] == DoctorRequired)
    && (DateField in e <==> f.appointmentDate == "" || DayPassed(f, now))
    && (DateField in e && f.appointmentDate == "" ==> e[DateField] == DateRequired)
    && (DateField in e && f.appointmentDate != "" ==> e[DateField] == DatePassed)
  }

  /** `validate`: the messages of `ValidationOf`; the result is empty exactly when the form is accepted. */
  method Validate(f: FormData, now: int) returns (e: map<FormKey, string>)
    ensures ValidationOf(f, now, e)
    ensures e == map[] <==> FormAccepted(f, now)
  {
    e := ValidatePatient(f);
    e := ValidateBooking(f, now, e);
    if !FormAccepted(f, now) {
      assert e != map[] by {
        assert exists k :: k in e;
      }
    }
  }

  /** The first half of `validate`: the name, age and gender checks. */
  method ValidatePatient(f: FormData) returns (e: map<FormKey, string>)
    ensures forall k :: k in e ==> k == NameField || k == AgeField || k == GenderField
    ensures NameField in e <==> f.name == ""
    ensures NameField in e ==> e[NameField] == NameRequired
    ensures AgeField in e <==> !AgeValid(f)
    ensures AgeField in e && f.age == "" ==> e[AgeField] == AgeRequired
    ensures AgeField in e && f.age != "" && f.ageNumber.None? ==> e[AgeField] == AgeNotNumber
    ensures AgeField in e && f.age != "" && f.ageNumber.Some? ==> e[AgeField] == AgeOutOfBounds
    ensures GenderField in e <==> f.gender == ""
    ensures GenderField in e ==> e[GenderField] == GenderRequired
  {
    e := map[];
    if f.name == "" {
      e := e[NameField := NameRequired];
    }
    if f.age == "" {
      e := e[AgeField := AgeRequired];
    } else if f.ageNumber.None? {
      e := e[AgeField := AgeNotNumber];
    } else if f.ageNumber.value < 0 || f.ageNumber.value > 120 {
      e := e[AgeField := AgeOutOfBounds];
    }
    if f.gender == "" {
      e := e[GenderField := GenderRequired];
    }
  }

  /** The second half of `validate`: the disease, doctor and date checks, added to `e0`. */
  method ValidateBooking(f: FormData, now: int, e0: map<FormKey, string>) returns (e: map<FormKey, string>)
    requires DiseaseField !in e0 && DoctorField !in e0 && DateField !in e0
    ensures forall k :: k != DiseaseField && k != DoctorField && k != DateField ==>
      (k in e <==> k in e0) && (k in e ==> e[k] == e0[k])
    ensures DiseaseField in e <==> f.disease == ""
    ensures DiseaseField in e ==> e[DiseaseField] == DiseaseRequired
    ensures DoctorField in e <==> f.doctor == ""
    ensures DoctorField in e ==> e[DoctorField] == DoctorRequired
    ensures DateField in e <==> f.appointmentDate == "" || DayPassed(f, now)
    ensures DateField in e && f.appointmentDate == "" ==> e[DateField] == DateRequired
    ensures DateField in e && f.appointmentDate != "" ==> e[DateField] == DatePassed
  {
    e := e0;
    if f.disease == "" {
      e := e[DiseaseField := DiseaseRequired];
    }
    if f.doctor == "" {
      e := e[DoctorField := DoctorRequired];
    }
    if f.appointmentDate == "" {
      e := e[DateField := DateRequired];
    } else if f.appointmentAt.Some? && StartOfDay(f.appointmentAt.value) < StartOfDay(now) {
      e := e[DateField := DatePassed];
    }
  }

  /** `handleDiseaseChange`, on the form: the new disease, no doctor, every other field as it was. */
  function WithDisease(f: FormData, value: string): (g: FormData)
    ensures g.disease == value && g.doctor == ""
    ensures g.(disease := f.disease, doctor := f.doctor) == f
  {
    f.(disease := value, doctor := "")
  }

  /** `handleDiseaseChange`, on the errors: the disease and doctor messages blanked, the others kept. */
  function ClearChoiceErrors(e: map<FormKey, string>): (r: map<FormKey, string>)
    ensures r.Keys == e.Keys + {DiseaseField, DoctorField}
    ensures r[DiseaseField] == "" && r[DoctorField] == ""
    ensures forall k :: k in e && k != DiseaseField && k != DoctorField ==> r[k] == e[k]
  {
    e[DiseaseField := ""][DoctorField := ""]
  }

  /** After a change of disease the doctor has to be chosen again: submitting reports it. */
  lemma DiseaseChangeNeedsDoctor(f: FormData, value: string, now: int)
    ensures !FormAccepted(WithDisease(f, value), now)
  {
  }

  /** The body `handleSubmit` sends: name and notes trimmed, the age as a number. */
  datatype Payload = Payload(
    name: string, age: int, gender: string, disease: string, doctor: string, appointmentAt: int, notes: string)

  function BuildPayload(f: FormData): (p: Payload)
    requires f.ageNumber.Some? && f.appointmentAt.Some?
    ensures p.name == Trim(f.name) && p.notes == Trim(f.notes)
    ensures Some(p.age) == f.ageNumber && p.appointmentAt == f.appointmentAt.value
    ensures p.gender == f.gender && p.disease == f.disease && p.doctor == f.doctor
  {
    Payload(Trim(f.name), f.ageNumber.value, f.gender, f.disease, f.doctor,
            f.appointmentAt.value, Trim(f.notes))
  }

  /** The payload's name and notes carry no surrounding white space: trimming them again changes nothing. */
  lemma PayloadTrimmed(f: FormData)
    requires f.ageNumber.Some? && f.appointmentAt.Some?
    ensures Trim(BuildPayload(f).name) == BuildPayload(f).name
    ensures Trim(BuildPayload(f).notes) == BuildPayload(f).notes
  {
    TrimIdempotent(f.name);
    TrimIdempotent(f.notes);
  }

  /** `{ ...payload, tempId: Date.now() }`: the record kept when the server cannot be used. */
  function LocalRecord(p: Payload, stamp: int): (r: Rec)
    ensures r.key == Temp(stamp) && r.notes == Some(p.notes)
    ensures r.name == p.name && r.age == p.age && r.gender == p.gender && r.disease == p.disease
    ensures r.doctor == p.doctor && r.appointmentAt == p.appointmentAt
  {
    Rec(Temp(stamp), p.name, p.age, p.gender, p.disease, p.doctor, p.appointmentAt, Some(p.notes))
  }

  /**
   * The request body the server receives for `p`: every value given, the age as
   * the decimal text of its number, the date as the `toISOString()` text `iso`
   * (which denotes the instant `p.appointmentAt`).
   */
  function RequestBody(p: Payload, iso: string): Server.Body {
    Server.Body(Server.Given(p.name), Server.Given(DecimalString(p.age)), Server.Given(p.gender),
                Server.Given(p.disease), Server.Given(p.doctor), Server.Given(iso), Server.Given(p.notes),
                Some(p.appointmentAt))
  }

  lemma NonBlankTrim(s: string)
    requires !AllSpace(s)
    ensures !AllSpace(Trim(s))
  {
    var t := Trim(s);
    assert !IsSpace(t[0]);
  }

  lemma DecimalNotBlank(n: int)
    ensures !AllSpace(DecimalString(n))
  {
    var s := DecimalString(n);
    if n < 0 {
      assert s[0] == '-';
    } else {
      assert IsDigit(DigitsOf(n)[0]);
    }
  }

  /**
   * What the form accepts, the server accepts too, provided the name, disease and
   * doctor are not just white space and the gender is one the server knows (the
   * form checks neither) and both sides read the same clock.
   */
  lemma AcceptedFormPassesServer(f: FormData, now: int, iso: string)
    requires FormAccepted(f, now) && f.appointmentAt.Some?
    requires !AllSpace(f.name) && !AllSpace(f.disease) && !AllSpace(f.doctor) && !AllSpace(iso)
    requires f.gender in Server.Genders
    ensures Server.PayloadErrors(RequestBody(BuildPayload(f), iso), now) == []
  {
    NonBlankTrim(f.name);
    var p := BuildPayload(f);
    AcceptedBody(p, iso, now);
  }

  /** The server accepts the body of a payload whose texts are not blank and whose age, gender and day are allowed. */
  lemma AcceptedBody(p: Payload, iso: string, now: int)
    requires !AllSpace(p.name) && !AllSpace(p.disease) && !AllSpace(p.doctor) && !AllSpace(iso)
    requires 0 <= p.age <= 120 && p.gender in Server.Genders && Day(p.appointmentAt) >= Day(now)
    ensures Server.PayloadErrors(RequestBody(p, iso), now) == []
  {
    AgeSent(p.age);
    Server.GenderNotBlank(p.gender);
    Server.PayloadAcceptedIff(RequestBody(p, iso), now);
  }

  /** An age sent as a JSON number reaches the server as its decimal text, which reads back as the same number. */
  lemma AgeSent(n: int)
    ensures !Server.IsBlank(Server.Given(DecimalString(n)))
    ensures Server.NumberOf(Server.Given(DecimalString(n))) == Some(n)
  {
    DecimalNotBlank(n);
    NumberOfDecimalString(n);
  }

  /**
   * The record the server stores for the form's body, read back as JSON, carries the
   * same data as the local fallback record: only its key differs.
   */
  lemma StoredRecordCarriesPayload(f: FormData, id: nat, iso: string, clock: int)
    requires f.ageNumber.Some? && f.appointmentAt.Some?
    ensures FromAppointment(Server.Created(id, RequestBody(BuildPayload(f), iso)))
      == LocalRecord(BuildPayload(f), clock).(key := Stored(id))
  {
    AgeSent(f.ageNumber.value);
  }

  /**
   * The fallback record handed on after a failed request is the record the server
   * would have stored for the same body, under the temporary id instead.
   */
  lemma FailedRecordIsStoredShape(f: FormData, outcome: Outcome, clock: int, id: nat, iso: string)
    requires f.ageNumber.Some? && f.appointmentAt.Some? && outcome.Failed?
    ensures Delivered(f, outcome, clock)
      == FromAppointment(Server.Created(id, RequestBody(BuildPayload(f), iso))).(key := Temp(clock))
  {
    StoredRecordCarriesPayload(f, id, iso, clock);
  }

  /**
   * The form does not trim the name before checking it: a name of white space is
   * accepted by the form, sent as "", and refused by the server as missing.
   */
  lemma BlankNameRefusedByServer(f: FormData, now: int, iso: string)
    requires FormAccepted(f, now) && f.appointmentAt.Some? && AllSpace(f.name)
    ensures Server.FieldRequired(Server.NameKey) in Server.PayloadErrors(RequestBody(BuildPayload(f), iso), now)
  {
    var b := RequestBody(BuildPayload(f), iso);
    Server.MissingFieldsExact(b, Server.RequiredFields, Server.FieldRequired(Server.NameKey));
  }

  /** What became of the `POST /appointments` request. */
  datatype Outcome =
    | Saved(record: Rec)   // a 2xx answer carrying the stored record
    | Failed               // no answer, a non-2xx answer, or an undecodable body

  datatype Status = Status(kind: string, message: string)

  const Cleared: Status := Status("", "")

  /** The status texts `handleSubmit` shows. */
  const CorrectFields: string := "Please correct the highlighted fields."
  const SavedMessage: string := "Appointment saved successfully."
  const SavedLocally: string := "Backend not reachable. Saved locally."

  /** The record a valid submission hands to the page: the stored one, or the payload with a temporary id. */
  function Delivered(f: FormData, outcome: Outcome, clock: int): (r: Rec)
    requires f.ageNumber.Some? && f.appointmentAt.Some?
    ensures outcome.Saved? ==> r == outcome.record
    ensures outcome.Failed? ==>
      && r.key == Temp(clock) && r.name == Trim(f.name) && r.notes == Some(Trim(f.notes))
      && r.age == f.ageNumber.value && r.gender == f.gender && r.disease == f.disease && r.doctor == f.doctor
      && r.appointmentAt == f.appointmentAt.value
  {
    if outcome.Saved? then outcome.record else LocalRecord(BuildPayload(f), clock)
  }

  /** The booking form's state, with the local cache it shares with the page. */
  class BookingForm {
    var form: FormData
    var errors: map<FormKey, string>
    var status: Status
    var submitting: bool
    var doctors: seq<Doctor>
    var loadingDoctors: bool
    const cache: Cache

    constructor (cache: Cache)
      ensures form == EmptyForm && errors == map[] && status == Cleared
      ensures !submitting && doctors == [] && loadingDoctors && this.cache == cache
    {
      form := EmptyForm;
      errors := map[];
      status := Cleared;
      submitting := false;
      doctors := [];
      loadingDoctors := true;
      this.cache := cache;
    }

    /** The doctors effect once the request settles: the directory is set and loading ends. */
    method DoctorsLoaded(reply: DoctorsReply)
      modifies this
      ensures doctors == DirectoryFrom(reply) && !loadingDoctors
      ensures form == old(form) && errors == old(errors) && status == old(status) && submitting == old(submitting)
    {
      doctors := DirectoryFrom(reply);
      loadingDoctors := false;
    }

    /** `handleDiseaseChange`. */
    method DiseaseChanged(value: string)
      modifies this
      ensures form == WithDisease(old(form), value) && errors == ClearChoiceErrors(old(errors))
      ensures status == old(status) && submitting == old(submitting)
      ensures doctors == old(doctors) && loadingDoctors == old(loadingDoctors)
    {
      form := WithDisease(form, value);
      errors := ClearChoiceErrors(errors);
    }

    /**
     * `handleSubmit`. A form with errors is not sent: the errors are shown and the
     * cache is untouched. Otherwise exactly one record is appended to the cache and
     * handed to the page: the stored record on success (and the form is reset), or
     * the payload with a `tempId` of `clock` on failure. A date that is an Invalid
     * Date makes `toISOString` throw after `submitting` was set, so nothing happens
     * and the button stays disabled.
     */
    method Submit(now: int, outcome: Outcome, clock: int) returns (added: Option<Rec>)
      modifies this, cache
      ensures doctors == old(doctors) && loadingDoctors == old(loadingDoctors)
      ensures !FormAccepted(old(form), now) ==>
        && added == None && cache.saved == old(cache.saved) && form == old(form) && submitting == old(submitting)
        && ValidationOf(old(form), now, errors) && errors != map[] && status == Status("error", CorrectFields)
      ensures FormAccepted(old(form), now) && old(form).appointmentAt.None? ==>
        && added == None && cache.saved == old(cache.saved) && form == old(form) && errors == old(errors)
        && submitting && status == Cleared
      ensures FormAccepted(old(form), now) && old(form).appointmentAt.Some? ==>
        && added == Some(Delivered(old(form), outcome, clock))
        && cache.saved == Some(old(cache.Contents()) + [added.value]) && !submitting
        && (outcome.Saved? ==> form == EmptyForm && errors == map[] && status == Status("success", SavedMessage))
        && (outcome.Failed? ==> form == old(form) && errors == old(errors) && status == Status("error", SavedLocally))
    {
      status := Cleared;
      var validation := Validate(form, now);
      if validation != map[] {
        errors := validation;
        status := Status("error", CorrectFields);
        return None;
      }
      submitting := true;
      if form.appointmentAt.None? {
        return None;
      }
      var record := Send(outcome, clock);
      added := Some(record);
    }

    /**
     * The `try`/`catch`/`finally` of `handleSubmit`, once the form is valid: the
     * record handed to the page is appended to the cache, and the status, form and
     * errors are set as the outcome requires.
     */
    method Send(outcome: Outcome, clock: int) returns (record: Rec)
      requires form.ageNumber.Some? && form.appointmentAt.Some?
      modifies this, cache
      ensures record == Delivered(old(form), outcome, clock)
      ensures cache.saved == Some(old(cache.Contents()) + [record]) && !submitting
      ensures doctors == old(doctors) && loadingDoctors == old(loadingDoctors)
      ensures outcome.Saved? ==> form == EmptyForm && errors == map[] && status == Status("success", SavedMessage)
      ensures outcome.Failed? ==> form == old(form) && errors == old(errors) && status == Status("error", SavedLocally)
    {
      var payload := BuildPayload(form);
      match outcome {
        case Saved(saved) =>
          record := saved;
          cache.Append(record);
          status := Status("success", SavedMessage);
          form := EmptyForm;
          errors := map[];
        case Failed =>
          record := LocalRecord(payload, clock);
          cache.Append(record);
          status := Status("error", SavedLocally);
      }
      submitting := false;
    }
  }
}
