/**
 * The appointments page: the list it shows, loaded from the server or from the
 * local cache, kept in the cache on every change, and the two counts it displays.
 */
module Page {
  import opened Wrappers
  import opened Seqs
  import opened Records

  /** What `GET /appointments` gave the page. */
  datatype LoadReply =
    | LoadFailed              // the request or the JSON decoding threw
    | NotAList                // the body decoded to something other than an array
    | Listed(items: seq<Rec>)

  /** `[...appointments, data]`: the old list, unchanged, with `data` after it. */
  function Appended(apps: seq<Rec>, data: Rec): (r: seq<Rec>)
    ensures |r| == |apps| + 1 && r[..|apps|] == apps && r[|apps|] == data
  {
    apps + [data]
  }

  /** "Total Patients": one per record shown. */
  function Total(apps: seq<Rec>): nat {
    |apps|
  }

  /** The upcoming test: the record's instant is not before `now`. */
  function UpcomingAt(now: int): Rec -> bool {
    (a: Rec) => a.appointmentAt >= now
  }

  /** "Upcoming Appointments": how many records are due at `now` or later; never more than the total. */
  function UpcomingCount(apps: seq<Rec>, now: int): (r: nat)
    ensures r <= Total(apps)
    ensures r == CountIndices(apps, UpcomingAt(now))
  {
    FilterLength(apps, UpcomingAt(now));
    FilterProperties(apps, UpcomingAt(now));
    |Filter(apps, UpcomingAt(now))|
  }

  /** Adding a record raises the upcoming count by one exactly when the record is upcoming. */
  lemma UpcomingAfterAppend(apps: seq<Rec>, data: Rec, now: int)
    ensures UpcomingCount(Appended(apps, data), now) == UpcomingCount(apps, now) + if data.appointmentAt >= now then 1 else 0
    ensures Total(Appended(apps, data)) == Total(apps) + 1
  {
    FilterConcat(apps, [data], UpcomingAt(now));
    assert [data][1..] == [];
  }

  /** The page's `appointments` state and the cache it writes through. */
  class AppointmentPage {
    var appointments: seq<Rec>
    const cache: Cache

    /** The cache holds exactly what the page shows. */
    ghost predicate Synced()
      reads this, cache
    {
      cache.saved == Some(appointments)
    }

    /** `useState([])`: the page starts empty, whatever the cache holds. */
    constructor (cache: Cache)
      ensures appointments == [] && this.cache == cache
    {
      appointments := [];
      this.cache := cache;
    }

    /** A page whose first state is read from the cache (the corrected start, see `MountCorrected`). */
    constructor FromCache(cache: Cache)
      ensures appointments == cache.Contents() && this.cache == cache
    {
      appointments := cache.Contents();
      this.cache := cache;
    }

    /** The persist effect: the cache is overwritten with the state. */
    method Persist()
      modifies cache
      ensures Synced()
    {
      cache.saved := Some(appointments);
    }

    /**
     * The load effect once the request settles: an array from the server replaces
     * both the state and the cache; otherwise the state is whatever the cache holds
     * at that moment, and nothing when it holds nothing.
     */
    method LoadSettled(reply: LoadReply)
      modifies this, cache
      ensures reply.Listed? ==> appointments == reply.items && Synced()
      ensures !reply.Listed? ==> appointments == old(cache.Contents()) && cache.saved == old(cache.saved)
    {
      if reply.Listed? {
        appointments := reply.items;
        cache.saved := Some(reply.items);
        return;
      }
      appointments := cache.Contents();
    }

    /**
     * `addAppointment`, followed by the persist effect the state change triggers:
     * the new record is shown last and the cache follows the state.
     */
    method AddAppointment(data: Rec)
      modifies this, cache
      ensures appointments == Appended(old(appointments), data) && Synced()
    {
      appointments := Appended(appointments, data);
      Persist();
    }
  }

  /**
   * The page as written: the empty first state is persisted before the load
   * settles, so a failed load reads back an empty cache. Whatever was cached
   * before is gone from both the page and the cache.
   */
  method Mount(cache: Cache, reply: LoadReply) returns (page: AppointmentPage)
    modifies cache
    ensures fresh(page) && page.cache == cache && page.Synced()
    ensures reply.Listed? ==> page.appointments == reply.items
    ensures !reply.Listed? ==> page.appointments == [] && cache.saved == Some([])
  {
    page := new AppointmentPage(cache);
    page.Persist();
    page.LoadSettled(reply);
    page.Persist();
  }

  /**
   * The intended start: the first state is read from the cache, so persisting it
   * changes nothing and a failed load keeps showing the cached records.
   */
  method MountCorrected(cache: Cache, reply: LoadReply) returns (page: AppointmentPage)
    modifies cache
    ensures fresh(page) && page.cache == cache && page.Synced()
    ensures reply.Listed? ==> page.appointments == reply.items
    ensures !reply.Listed? ==> page.appointments == old(cache.Contents())
  {
    page := new AppointmentPage.FromCache(cache);
    page.Persist();
    page.LoadSettled(reply);
    page.Persist();
  }

  /** A concrete case: one cached record, a failed load; the page as written shows nothing. */
  method CachedRecordLost(r: Rec) returns (shown: seq<Rec>, shownCorrected: seq<Rec>)
    ensures shown == [] && shownCorrected == [r]
  {
    var cache := new Cache(Some([r]));
    var page := Mount(cache, LoadFailed);
    shown := page.appointments;
    var cache2 := new Cache(Some([r]));
    var page2 := MountCorrected(cache2, LoadFailed);
    shownCorrected := page2.appointments;
  }
}
