/**
 * The appointment records the browser holds, and the `appointments` entry of
 * `localStorage` that the booking form and the appointments page share.
 */
module Records {
  import opened Wrappers
  import Server

  /**
   * How a record is identified: by the id the server gave it, or, when it was only
   * saved locally, by the `tempId` stamp (`Date.now()` at the time of saving).
   */
  datatype RecordKey = Stored(id: nat) | Temp(stamp: int)

  /** An appointment as the client sees it (the JSON image of a stored or a local record). */
  datatype Rec = Rec(
    key: RecordKey, name: string, age: int, gender: string, disease: string, doctor: string,
    appointmentAt: int, notes: Option<string>)

  /** The JSON the server sends back for a stored appointment. */
  function FromAppointment(a: Server.Appointment): (r: Rec)
    ensures r.key == Stored(a.id) && r.disease == a.disease && r.appointmentAt == a.appointmentAt
  {
    Rec(Stored(a.id), a.name, a.age, a.gender, a.disease, a.doctor, a.appointmentAt, a.notes)
  }

  /**
   * The `appointments` entry of `localStorage`: `None` while the key is absent,
   * otherwise the array it holds (the JSON text is not modelled).
   */
  class Cache {
    var saved: Option<seq<Rec>>

    constructor (initial: Option<seq<Rec>>)
      ensures saved == initial
    {
      saved := initial;
    }

    /**
     * `JSON.parse(localStorage.getItem("appointments") || "[]")`, and equally
     * `JSON.parse(localStorage.getItem("appointments")) || []`: an absent entry reads as empty.
     */
    function Contents(): (r: seq<Rec>)
      reads this
      ensures saved.None? ==> r == []
      ensures saved.Some? ==> r == saved.value
    {
      saved.GetOr([])
    }

    /** `current.push(r); localStorage.setItem("appointments", JSON.stringify(current))`. */
    method Append(r: Rec)
      modifies this
      ensures saved == Some(old(Contents()) + [r])
    {
      saved := Some(Contents() + [r]);
    }
  }
}
