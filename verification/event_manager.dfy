/** `EventManager`: an in-memory cache from event id to the last document
    fetched or listed for it, filled by `parse_event_from_js` and by the
    active-event listing. Every operation returns the new manager state. */
module EventManager {
  import opened Wrappers
  import opened Transport
  import Api
  import EventId
  import Seqs

  /** The cache is a Python dict, so any hashable JSON value can be a key. */
  datatype Manager = Manager(parser: Api.Parser, cache: map<Json, Json>)

  function NewManager(apiUrl: string): (m: Manager)
    ensures m.cache == map[]
    ensures m.parser == Api.NewParser(apiUrl)
  {
    Manager(Api.NewParser(apiUrl), map[])
  }

  /** Key `k` is absent from both maps or maps to the same document in both. */
  predicate SameAt(m1: map<Json, Json>, m2: map<Json, Json>, k: Json) {
    (k in m1 <==> k in m2) && (k in m1 ==> m1[k] == m2[k])
  }

  /** `parse_event_from_js`: extract the id, fetch its document, cache it under
      the id. Nothing found or a failed fetch leaves the cache as it was. */
  function ParseEventFromJs(m: Manager, jsCode: string, t: Transport): (res: (Manager, Option<Json>))
    ensures res.0.parser == m.parser
    ensures EventId.ExtractEventId(jsCode).None? ==> res == (m, None)
    ensures res.1.None? ==> res.0 == m
    ensures var id := EventId.ExtractEventId(jsCode);
      id.Some? && Api.GetEventData(m.parser, id.value, t).Success? ==>
        res.1 == Some(Api.GetEventData(m.parser, id.value, t).value)
    ensures var id := EventId.ExtractEventId(jsCode);
      id.Some? && Api.GetEventData(m.parser, id.value, t).Failure? ==> res == (m, None)
    ensures res.1.Some? ==>
      var id := EventId.ExtractEventId(jsCode);
      id.Some? && Api.GetEventData(m.parser, id.value, t) == Success(res.1.value)
      && JStr(id.value) in res.0.cache && res.0.cache[JStr(id.value)] == res.1.value
      && forall k :: k != JStr(id.value) ==> SameAt(res.0.cache, m.cache, k)
  {
    match EventId.ExtractEventId(jsCode)
    case None => (m, None)
    case Some(id) =>
      match Api.GetEventData(m.parser, id, t)
      case Failure(_) => (m, None)
      case Success(doc) => (m.(cache := m.cache[JStr(id) := doc]), Some(doc))
  }

  /** `event.get('status') == 'active'`. */
  predicate IsActive(event: Json) {
    event.JObj? && "status" in event.fields && event.fields["status"] == JStr("active")
  }

  /** `event['id']` when `'id' in event`. */
  function IdOf(event: Json): Option<Json> {
    if event.JObj? && "id" in event.fields then Some(event.fields["id"]) else None
  }

  /** Values Python can use as dict keys; lists and dicts raise `TypeError`. */
  predicate IsHashable(v: Json) {
    !v.JArr? && !v.JObj?
  }

  /** The last event of `events` whose id is `k`. */
  function LastWithId(events: seq<Json>, k: Json): (r: Option<Json>)
    ensures r.None? <==> forall j :: 0 <= j < |events| ==> IdOf(events[j]) != Some(k)
    ensures r.Some? ==> exists j :: (0 <= j < |events| && events[j] == r.value && IdOf(events[j]) == Some(k)
                                     && forall j' :: j < j' < |events| ==> IdOf(events[j']) != Some(k))
  {
    if |events| == 0 then None
    else
      var last := LastWithId(events[1..], k);
      assert forall j :: 1 <= j < |events| ==> events[j] == events[1..][j - 1];
      if last.Some? then last
      else if IdOf(events[0]) == Some(k) then Some(events[0])
      else None
  }

  /** A cache after the update loop, and whether the loop stopped on an
      unhashable id (having stored the events before it). */
  datatype CacheUpdate = CacheUpdate(cache: map<Json, Json>, failed: bool)

  /** Some event carries an id that cannot be a dict key. */
  predicate HasUnhashableId(events: seq<Json>) {
    exists j :: 0 <= j < |events| && IdOf(events[j]).Some? && !IsHashable(IdOf(events[j]).value)
  }

  /** The `for event in active_events` loop that stores each event with an id. */
  function CacheEvents(cache: map<Json, Json>, events: seq<Json>): (r: CacheUpdate)
    ensures r.failed <==> HasUnhashableId(events)
    ensures forall k :: LastWithId(events, k).None? ==> SameAt(r.cache, cache, k)
    decreases |events|
  {
    if |events| == 0 then CacheUpdate(cache, false)
    else
      assert forall j :: 1 <= j < |events| ==> events[j] == events[1..][j - 1];
      match IdOf(events[0])
      case None => CacheEvents(cache, events[1..])
      case Some(k) =>
        if IsHashable(k) then CacheEvents(cache[k := events[0]], events[1..])
        else CacheUpdate(cache, true)
  }

  /** When every id is hashable, each id ends up mapped to the last event that
      carries it, and every other key keeps its document. */
  lemma {:induction false} CacheEventsLastWins(cache: map<Json, Json>, events: seq<Json>, k: Json)
    requires !CacheEvents(cache, events).failed
    ensures LastWithId(events, k).Some? ==>
              k in CacheEvents(cache, events).cache && CacheEvents(cache, events).cache[k] == LastWithId(events, k).value
    ensures LastWithId(events, k).None? ==> SameAt(CacheEvents(cache, events).cache, cache, k)
    decreases |events|
  {
    if |events| > 0 {
      match IdOf(events[0])
      case None =>
        CacheEventsLastWins(cache, events[1..], k);
      case Some(k0) =>
        CacheEventsLastWins(cache[k0 := events[0]], events[1..], k);
    }
  }

  predicate AllObjects(items: seq<Json>) {
    forall j :: 0 <= j < |items| ==> items[j].JObj?
  }

  /** The `events` entry can be iterated with `event.get` on each item: a list
      of objects, or an empty object or string, which yield no items at all.
      Items of any other kind have no `get`, and numbers, booleans and `null`
      are not iterable. */
  predicate ListingIterates(listing: Json) {
    (listing.JArr? && AllObjects(listing.items)) || listing == JObj(map[]) || listing == JStr("")
  }

  /** The comprehension over `events.get('events', [])`: the active events, in
      listing order, when the fetched document is an object whose `events`
      entry (default `[]`) can be iterated; `None` when the fetch failed or
      evaluating the comprehension raises. */
  function ActiveListing(fetched: Result<Json, Error>): (r: Option<seq<Json>>)
    ensures r.Some? <==> fetched.Success? && fetched.value.JObj?
                         && ("events" !in fetched.value.fields || ListingIterates(fetched.value.fields["events"]))
    ensures r.Some? ==> forall j :: 0 <= j < |r.value| ==> IsActive(r.value[j])
    ensures r.Some? && "events" !in fetched.value.fields ==> r.value == []
    ensures r.Some? && "events" in fetched.value.fields && !fetched.value.fields["events"].JArr? ==> r.value == []
    ensures r.Some? && "events" in fetched.value.fields && fetched.value.fields["events"].JArr? ==>
              var items := fetched.value.fields["events"].items;
              && Seqs.IsSubsequence(r.value, items)
              && forall x :: multiset(r.value)[x] == if IsActive(x) then multiset(items)[x] else 0
  {
    match fetched
    case Failure(_) => None
    case Success(doc) =>
      if !doc.JObj? then None
      else if "events" !in doc.fields then Some([])
      else
        var listing := doc.fields["events"];
        if listing.JArr? && AllObjects(listing.items) then
          Seqs.FilterIsSubsequence(listing.items, IsActive);
          Seqs.FilterCount(listing.items, IsActive);
          Some(Seqs.Filter(listing.items, IsActive))
        else if listing == JObj(map[]) || listing == JStr("") then Some([])
        else None
  }

  /** `get_all_active_events`: the active events of the listing, cached under
      their ids. Any exception (failed fetch, malformed listing, unhashable id)
      gives `[]`; an unhashable id stops the cache loop part-way. */
  function GetAllActiveEvents(m: Manager, t: Transport): (res: (Manager, seq<Json>))
    ensures res.0.parser == m.parser
    ensures ActiveListing(Api.GetAllEvents(m.parser, t)).None? ==> res == (m, [])
    ensures Api.GetAllEvents(m.parser, t).Failure? ==> res == (m, [])
    ensures ActiveListing(Api.GetAllEvents(m.parser, t)).Some? ==>
              var active := ActiveListing(Api.GetAllEvents(m.parser, t)).value;
              && (forall k :: LastWithId(active, k).None? ==> SameAt(res.0.cache, m.cache, k))
              && (!HasUnhashableId(active) ==> res.1 == active)
              && (HasUnhashableId(active) ==> res.1 == [])
  {
    match ActiveListing(Api.GetAllEvents(m.parser, t))
    case None => (m, [])
    case Some(active) =>
      var upd := CacheEvents(m.cache, active);
      (m.(cache := upd.cache), if upd.failed then [] else active)
  }

  /** After a listing without unhashable ids, each listed active id is cached
      with the last active event carrying it. */
  lemma ActiveEventsAreCached(m: Manager, t: Transport, k: Json)
    requires ActiveListing(Api.GetAllEvents(m.parser, t)).Some?
    requires GetAllActiveEvents(m, t).1 != []
    ensures var active := ActiveListing(Api.GetAllEvents(m.parser, t)).value;
            LastWithId(active, k).Some? ==>
              k in GetAllActiveEvents(m, t).0.cache && GetAllActiveEvents(m, t).0.cache[k] == LastWithId(active, k).value
  {
    var active := ActiveListing(Api.GetAllEvents(m.parser, t)).value;
    CacheEventsLastWins(m.cache, active, k);
  }

  /** `get_cached_event`. */
  function GetCachedEvent(m: Manager, eventId: string): (r: Option<Json>)
    ensures r.None? <==> JStr(eventId) !in m.cache
    ensures r.Some? ==> r.value == m.cache[JStr(eventId)]
  {
    if JStr(eventId) in m.cache then Some(m.cache[JStr(eventId)]) else None
  }

  /** A successful `parse_event_from_js` makes `get_cached_event` return the
      document it just fetched. */
  lemma CachedAfterParse(m: Manager, jsCode: string, t: Transport)
    requires ParseEventFromJs(m, jsCode, t).1.Some?
    ensures GetCachedEvent(ParseEventFromJs(m, jsCode, t).0, EventId.ExtractEventId(jsCode).value)
            == ParseEventFromJs(m, jsCode, t).1
  {
  }
}
