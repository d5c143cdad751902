/** The `EventParser` copy under `src/server/event_lib`. It diverges from the
    others: `download_api_data`, `get_round_data` and `get_race_data` use a
    hard-coded host and ignore the configured base address, while its
    `get_event_data` is the shared `Api.GetEventData`, which uses it. */
module ServerApi {
  import opened Wrappers
  import opened Transport
  import opened Api
  import EventId
  import Url

  const ServerHost: string := "http://192.168.1.185:8080"
  const ServerApiUrl: string := "http://192.168.1.185:8080/api"

  /** `download_api_data`: GET the fixed API address; any failure gives `""`. */
  function DownloadApiData(p: Parser, t: Transport): (r: string)
    ensures !Delivered(t, ServerApiUrl) ==> r == ""
    ensures Delivered(t, ServerApiUrl) ==> r == t(ServerApiUrl).value.text
  {
    FetchTextOrEmpty(t, ServerApiUrl)
  }

  /** `find_event_id`: the identifier search over the downloaded text. */
  function FindEventId(p: Parser, t: Transport): (r: Option<string>)
    ensures !Delivered(t, ServerApiUrl) ==> r.None?
    ensures Delivered(t, ServerApiUrl) ==> r == EventId.ExtractEventId(t(ServerApiUrl).value.text)
  {
    FindEventIdIn(DownloadApiData(p, t))
  }

  /** The host `urljoin` keeps from the fixed address is the whole address. */
  lemma ServerHostIsOrigin()
    ensures Url.Origin(ServerHost) == ServerHost
  {
    assert Url.StartsWith(ServerHost, "http://");
    assert Url.AuthorityEnd(ServerHost, 7) == |ServerHost| by {
      assert forall j :: 7 <= j < |ServerHost| ==> !Url.EndsAuthority(ServerHost[j]);
    }
  }

  /** The URL `get_round_data` requests: the fixed host, then the rounds path. */
  function RoundDataUrl(p: Parser, eventId: string): (r: string)
    ensures r == ServerHost + RoundsPath(eventId)
  {
    ServerHostIsOrigin();
    Url.Join(ServerHost, RoundsPath(eventId))
  }

  /** The URL `get_race_data` requests: the fixed host, then the race path. */
  function RaceDataUrl(p: Parser, eventId: string, raceId: string): (r: string)
    ensures r == ServerHost + RacePath(eventId, raceId)
  {
    ServerHostIsOrigin();
    Url.Join(ServerHost, RacePath(eventId, raceId))
  }

  /** A round element that `round['ID']` can read: a JSON object with an `ID` key. */
  predicate HasIdKey(x: Json) {
    x.JObj? && "ID" in x.fields
  }

  /** `round['ID'] == round_id`: only a string equal to the requested id matches. */
  predicate IsRound(x: Json, roundId: string) {
    HasIdKey(x) && x.fields["ID"] == JStr(roundId)
  }

  /** The exception `round['ID']` raises on an element that has no `ID` key. */
  function LookupError(x: Json): Error {
    if x.JObj? then KeyError("ID") else TypeError
  }

  /** The `for round in ...` scan: the first element, in list order, whose `ID`
      is `roundId`; an element examined before a match that has no `ID` raises. */
  function FindRound(rounds: seq<Json>, roundId: string): (r: Result<Option<Json>, Error>)
    ensures r == Success(None) <==> forall k :: 0 <= k < |rounds| ==> HasIdKey(rounds[k]) && !IsRound(rounds[k], roundId)
    ensures r.Success? && r.value.Some? ==>
      exists i :: 0 <= i < |rounds| && rounds[i] == r.value.value && IsRound(rounds[i], roundId)
                  && forall k :: 0 <= k < i ==> HasIdKey(rounds[k]) && !IsRound(rounds[k], roundId)
    ensures r.Failure? ==>
      exists i :: 0 <= i < |rounds| && !HasIdKey(rounds[i]) && r.error == LookupError(rounds[i])
                  && forall k :: 0 <= k < i ==> HasIdKey(rounds[k]) && !IsRound(rounds[k], roundId)
  {
    if |rounds| == 0 then Success(None)
    else if !HasIdKey(rounds[0]) then Failure(LookupError(rounds[0]))
    else if IsRound(rounds[0], roundId) then Success(Some(rounds[0]))
    else
      var rest := FindRound(rounds[1..], roundId);
      assert forall k :: 1 <= k < |rounds| ==> rounds[k] == rounds[1..][k - 1];
      rest
  }

  /** `get_round_data`: fetch the rounds file, then scan it. Iterating a
      non-empty object or string yields keys or characters, and indexing those
      with `'ID'` raises; numbers, booleans and `null` are not iterable. */
  function GetRoundData(p: Parser, eventId: string, roundId: string, t: Transport): (r: Result<Option<Json>, Error>)
    ensures FetchJson(t, RoundDataUrl(p, eventId)).Failure? ==> r == Failure(FetchJson(t, RoundDataUrl(p, eventId)).error)
    ensures FetchJson(t, RoundDataUrl(p, eventId)) == Success(JArr([])) ==> r == Success(None)
    ensures FetchJson(t, RoundDataUrl(p, eventId)).Success? && FetchJson(t, RoundDataUrl(p, eventId)).value.JArr? ==>
      r == FindRound(FetchJson(t, RoundDataUrl(p, eventId)).value.items, roundId)
    ensures FetchJson(t, RoundDataUrl(p, eventId)).Success? && !FetchJson(t, RoundDataUrl(p, eventId)).value.JArr? ==>
      var doc := FetchJson(t, RoundDataUrl(p, eventId)).value;
      (r == Success(None) <==> doc == JObj(map[]) || doc == JStr(""))
      && (r != Success(None) ==> r == Failure(TypeError))
    ensures r.Success? && r.value.Some? ==>
      FetchJson(t, RoundDataUrl(p, eventId)).Success?
      && FetchJson(t, RoundDataUrl(p, eventId)).value.JArr?
      && r.value.value in FetchJson(t, RoundDataUrl(p, eventId)).value.items
      && IsRound(r.value.value, roundId)
  {
    var doc :- FetchJson(t, RoundDataUrl(p, eventId));
    match doc
    case JArr(items) => FindRound(items, roundId)
    case JObj(fields) => if |fields| == 0 then Success(None) else Failure(TypeError)
    case JStr(s) => if s == "" then Success(None) else Failure(TypeError)
    case _ => Failure(TypeError)
  }

  /** The scan returns the first element with the requested `ID` when every
      element before it has an `ID`. */
  lemma {:induction false} FindRoundFindsFirst(rounds: seq<Json>, roundId: string, i: nat)
    requires i < |rounds| && IsRound(rounds[i], roundId)
    requires forall k :: 0 <= k < i ==> HasIdKey(rounds[k]) && !IsRound(rounds[k], roundId)
    ensures FindRound(rounds, roundId) == Success(Some(rounds[i]))
  {
    if i > 0 {
      assert forall k :: 0 <= k < i - 1 ==> rounds[1..][k] == rounds[k + 1];
      FindRoundFindsFirst(rounds[1..], roundId, i - 1);
    }
  }

  /** A round present in a fetched list, after elements that all carry an
      `ID`, is what `get_round_data` returns. */
  lemma RoundIsFound(p: Parser, eventId: string, roundId: string, t: Transport, i: nat)
    requires FetchJson(t, RoundDataUrl(p, eventId)).Success? && FetchJson(t, RoundDataUrl(p, eventId)).value.JArr?
    requires var rounds := FetchJson(t, RoundDataUrl(p, eventId)).value.items;
      i < |rounds| && IsRound(rounds[i], roundId)
      && forall k :: 0 <= k < i ==> HasIdKey(rounds[k]) && !IsRound(rounds[k], roundId)
    ensures GetRoundData(p, eventId, roundId, t) == Success(Some(FetchJson(t, RoundDataUrl(p, eventId)).value.items[i]))
  {
    FindRoundFindsFirst(FetchJson(t, RoundDataUrl(p, eventId)).value.items, roundId, i);
  }

  /** `get_race_data`: fetched from the fixed host, every failure propagates. */
  function GetRaceData(p: Parser, eventId: string, raceId: string, t: Transport): (r: Result<Json, Error>)
    ensures r.Success? <==> Delivered(t, RaceDataUrl(p, eventId, raceId))
                            && t(RaceDataUrl(p, eventId, raceId)).value.json.Some?
    ensures r.Success? ==> r.value == t(RaceDataUrl(p, eventId, raceId)).value.json.value
  {
    FetchJson(t, RaceDataUrl(p, eventId, raceId))
  }

  /** The round and race targets do not depend on the configured address. */
  lemma TargetsIgnoreBaseAddress(p1: Parser, p2: Parser, eventId: string, raceId: string)
    ensures RoundDataUrl(p1, eventId) == RoundDataUrl(p2, eventId)
    ensures RaceDataUrl(p1, eventId, raceId) == RaceDataUrl(p2, eventId, raceId)
  {
  }

  /** ... while the event target does: two addresses on different hosts give
      different `get_event_data` targets. */
  lemma EventTargetFollowsBaseAddress(eventId: string)
    ensures Url.Join(NewParser("http://a").baseUrl, EventPath(eventId))
         != Url.Join(NewParser("http://b").baseUrl, EventPath(eventId))
  {
    var a := "http://a";
    var b := "http://b";
    assert Url.TrimTrailingSlashes(a) == a;
    assert Url.TrimTrailingSlashes(b) == b;
    assert Url.StartsWith(a, "http://") && Url.StartsWith(b, "http://");
    assert Url.Origin(a) == a by {
      assert Url.AuthorityEnd(a, 8) == 8;
    }
    assert Url.Origin(b) == b by {
      assert Url.AuthorityEnd(b, 8) == 8;
    }
    assert Url.Join(a, EventPath(eventId))[7] != Url.Join(b, EventPath(eventId))[7];
  }
}
