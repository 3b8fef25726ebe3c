/** The saved map search (`src/lib/search-cache.ts`): one entry under a
    fixed key of the browser's local storage, stamped with the time it was
    saved and dropped once it is more than an hour old. The storage is the
    `stored` field of a `SearchCache` object and the clock is a parameter. */
module SearchCache {
  import opened Common
  import opened Leads

  /** `PersistedSearchState`. */
  datatype SearchState = SearchState(
    leads: seq<Lead>,
    searchCenter: Location,
    types: seq<LeadType>,
    radius: real,
    selectedLeads: seq<string>,
    searchQuery: string,
    timestamp: int)

  /** What the key can hold: a state written by `Save`, or text that does
      not parse as one. */
  datatype Entry = Saved(state: SearchState) | Unparseable

  /** `CACHE_EXPIRATION_MS`: one hour in milliseconds. */
  const ExpirationMs: int := 60 * 60 * 1000

  /** An entry is stale when it is strictly more than an hour old; one
      exactly an hour old is still served. */
  predicate Expired(state: SearchState, now: int) {
    now - state.timestamp > ExpirationMs
  }

  /** The value `loadSearchState` returns for what is stored. */
  function Loaded(e: Option<Entry>, now: int): (r: Option<SearchState>)
    ensures r.Some? <==> e.Some? && e.value.Saved? && !Expired(e.value.state, now)
    ensures r.Some? ==> r.value == e.value.state
  {
    match e
    case None => None
    case Some(Unparseable) => None
    case Some(Saved(s)) => if Expired(s, now) then None else Some(s)
  }

  /** What the key holds after `loadSearchState`: an expired entry is
      removed, anything else stays. */
  function AfterLoad(e: Option<Entry>, now: int): (r: Option<Entry>)
    ensures r == None || r == e
    ensures r != e <==> e.Some? && e.value.Saved? && Expired(e.value.state, now)
  {
    if e.Some? && e.value.Saved? && Expired(e.value.state, now) then None else e
  }

  class Cache {
    /** The local-storage entry under the cache key, if any. */
    var stored: Option<Entry>

    constructor()
      ensures stored == None
    {
      stored := None;
    }

    /** `saveSearchState`: the state with its timestamp replaced by `now`.
        When the write fails (`writeFails`, a full storage) the error is
        only logged and the old entry stays. */
    method Save(state: SearchState, now: int, writeFails: bool)
      modifies this
      ensures writeFails ==> stored == old(stored)
      ensures !writeFails ==> stored == Some(Saved(state.(timestamp := now)))
    {
      if !writeFails {
        var stamped := state.(timestamp := now);
        stored := Some(Saved(stamped));
      }
    }

    /** `loadSearchState` at time `now`. */
    method Load(now: int) returns (r: Option<SearchState>)
      modifies this
      ensures r == Loaded(old(stored), now)
      ensures stored == AfterLoad(old(stored), now)
    {
      if stored.None? {
        return None;
      }
      match stored.value
      case Unparseable =>
        r := None;
      case Saved(state) =>
        var age := now - state.timestamp;
        if age > ExpirationMs {
          Clear();
          return None;
        }
        r := Some(state);
    }

    /** `clearSearchState`. */
    method Clear()
      modifies this
      ensures stored == None
    {
      stored := None;
    }
  }

  /** Saving then loading within the hour gives back the saved fields with
      the save time as timestamp, and keeps the entry. */
  lemma SaveThenLoad(state: SearchState, saved: int, now: int)
    requires now - saved <= ExpirationMs
    ensures Loaded(Some(Saved(state.(timestamp := saved))), now) == Some(state.(timestamp := saved))
    ensures AfterLoad(Some(Saved(state.(timestamp := saved))), now) == Some(Saved(state.(timestamp := saved)))
  {
  }

  /** Once an entry has expired it stays expired: every later load returns
      nothing, and the entry is gone after the first of them. */
  lemma ExpiryIsFinal(e: Option<Entry>, now: int, later: int)
    requires e.Some? && e.value.Saved? && Expired(e.value.state, now)
    requires now <= later
    ensures Loaded(e, later) == None
    ensures Loaded(AfterLoad(e, now), later) == None
  {
    assert Expired(e.value.state, later);
  }

  /** Loading twice at the same time answers the same both times. */
  lemma LoadTwice(e: Option<Entry>, now: int)
    ensures Loaded(AfterLoad(e, now), now) == Loaded(e, now)
    ensures AfterLoad(AfterLoad(e, now), now) == AfterLoad(e, now)
  {
  }

  /** A stored state is served until exactly an hour after its timestamp
      and not a millisecond later. */
  lemma ServedForAnHour(s: SearchState, now: int)
    ensures Loaded(Some(Saved(s)), now).Some? <==> now <= s.timestamp + 3600000
  {
  }

  /** The same on a cache object: save then load within the hour gives the
      stamped state back; clear then load gives nothing. */
  method SaveLoadScenario(state: SearchState, saved: int, now: int)
    returns (loaded: Option<SearchState>, cleared: Option<SearchState>)
    requires saved <= now <= saved + ExpirationMs
    ensures loaded == Some(state.(timestamp := saved))
    ensures cleared == None
  {
    var c := new Cache();
    c.Save(state, saved, false);
    loaded := c.Load(now);
    c.Clear();
    cleared := c.Load(now);
  }
}
