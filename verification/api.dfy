/** `EventParser`, the class that exists in three diverging copies. This module
    holds what the copies share: construction, the endpoint paths, the
    identifier search over downloaded text, and the fetches of `event_parser.py`
    and `event_lib/event_lib/parser.py`, which resolve every endpoint against
    the configured base address. The copy under `src/server` is `ServerApi`. */
module Api {
  import opened Wrappers
  import opened Transport
  import EventId
  import Url

  /** The constructor default of the library and server copies. */
  const DefaultApiUrl: string := "http://192.168.1.185:8080/api"

  datatype Parser = Parser(baseUrl: string)

  /** `EventParser(base_url)`: the address is kept without trailing slashes. */
  function NewParser(baseUrl: string): (p: Parser)
    ensures Url.StartsWith(baseUrl, p.baseUrl)
    ensures |p.baseUrl| == 0 || p.baseUrl[|p.baseUrl| - 1] != '/'
    ensures forall k :: |p.baseUrl| <= k < |baseUrl| ==> baseUrl[k] == '/'
  {
    Parser(Url.TrimTrailingSlashes(baseUrl))
  }

  /** Constructing a parser from an already constructed parser's address changes nothing. */
  lemma NewParserIsIdempotent(baseUrl: string)
    ensures NewParser(NewParser(baseUrl).baseUrl) == NewParser(baseUrl)
  {
    Url.TrimIsIdempotent(baseUrl);
  }

  /** The default address resolves `/events` on the server root: its `/api` path is dropped. */
  lemma DefaultAddressDropsApiPath()
    ensures Url.Join(NewParser(DefaultApiUrl).baseUrl, EventsPath) == "http://192.168.1.185:8080/events"
  {
    assert Url.TrimTrailingSlashes(DefaultApiUrl) == DefaultApiUrl;
    DefaultOrigin();
  }

  /** The origin of the default address is its scheme, host and port. */
  lemma DefaultOrigin()
    ensures Url.Origin(DefaultApiUrl) == "http://192.168.1.185:8080"
  {
    var b := DefaultApiUrl;
    assert Url.StartsWith(b, "http://");
    assert b[25] == '/';
    assert Url.AuthorityEnd(b, 7) == 25 by {
      assert forall j :: 7 <= j < 25 ==> !Url.EndsAuthority(b[j]);
    }
  }

  /** Endpoint of `get_all_events`. */
  const EventsPath: string := "/events"

  /** Endpoint of `get_event_data`: one event below the collection. */
  function EventPath(eventId: string): (r: string)
    ensures Url.IsAbsolutePath(r)
    ensures r == EventsPath + "/" + eventId
  {
    "/events/" + eventId
  }

  /** Endpoint of `get_race_data`: a race file below its event. */
  function RacePath(eventId: string, raceId: string): (r: string)
    ensures Url.IsAbsolutePath(r)
    ensures r == EventPath(eventId) + "/" + raceId + "/Race.json"
  {
    "/events/" + eventId + "/" + raceId + "/Race.json"
  }

  /** Endpoint of `get_round_data`: the rounds file below its event. */
  function RoundsPath(eventId: string): (r: string)
    ensures Url.IsAbsolutePath(r)
    ensures r == EventPath(eventId) + "/Rounds.json"
  {
    "/events/" + eventId + "/Rounds.json"
  }

  /** The endpoint of an extracted identifier is the extracted path below the root. */
  lemma EventPathOfExtractedId(s: string)
    requires EventId.ExtractEventId(s).Some?
    ensures EventPath(EventId.ExtractEventId(s).value) == "/" + EventId.ExtractEventPath(s).value
  {
  }

  /** `find_event_id` after the download: no search on empty text, the
      `extract_event_id` search otherwise. */
  function FindEventIdIn(text: string): (r: Option<string>)
    ensures text == "" ==> r.None?
    ensures r == EventId.ExtractEventId(text)
  {
    if text == "" then None else EventId.ExtractEventId(text)
  }

  /** `get_event_data` (identical in all three copies). */
  function GetEventData(p: Parser, eventId: string, t: Transport): (r: Result<Json, Error>)
    ensures r.Success? <==> Delivered(t, Url.Join(p.baseUrl, EventPath(eventId)))
                            && t(Url.Join(p.baseUrl, EventPath(eventId))).value.json.Some?
    ensures r.Success? ==> r.value == t(Url.Join(p.baseUrl, EventPath(eventId))).value.json.value
  {
    FetchJson(t, Url.Join(p.baseUrl, EventPath(eventId)))
  }

  /** `get_all_events` of `event_parser.py` and of the library copy. */
  function GetAllEvents(p: Parser, t: Transport): (r: Result<Json, Error>)
    ensures r.Success? <==> Delivered(t, Url.Join(p.baseUrl, EventsPath))
                            && t(Url.Join(p.baseUrl, EventsPath)).value.json.Some?
    ensures r.Success? ==> r.value == t(Url.Join(p.baseUrl, EventsPath)).value.json.value
  {
    FetchJson(t, Url.Join(p.baseUrl, EventsPath))
  }

  /** `get_race_data` of `event_parser.py`, resolved against the base address. */
  function GetRaceData(p: Parser, eventId: string, raceId: string, t: Transport): (r: Result<Json, Error>)
    ensures r.Success? <==> Delivered(t, Url.Join(p.baseUrl, RacePath(eventId, raceId)))
                            && t(Url.Join(p.baseUrl, RacePath(eventId, raceId))).value.json.Some?
    ensures r.Success? ==> r.value == t(Url.Join(p.baseUrl, RacePath(eventId, raceId))).value.json.value
  {
    FetchJson(t, Url.Join(p.baseUrl, RacePath(eventId, raceId)))
  }

  /** `download_api_data` of the library copy: GET the base address itself;
      any failure gives `""`. */
  function DownloadApiData(p: Parser, t: Transport): (r: string)
    ensures !Delivered(t, p.baseUrl) ==> r == ""
    ensures Delivered(t, p.baseUrl) ==> r == t(p.baseUrl).value.text
  {
    FetchTextOrEmpty(t, p.baseUrl)
  }

  /** `find_event_id` of the library copy: the identifier search over the
      downloaded text; a failed download finds nothing. */
  function FindEventId(p: Parser, t: Transport): (r: Option<string>)
    ensures !Delivered(t, p.baseUrl) ==> r.None?
    ensures Delivered(t, p.baseUrl) ==> r == EventId.ExtractEventId(t(p.baseUrl).value.text)
  {
    FindEventIdIn(DownloadApiData(p, t))
  }

  /** A transport that fails on every call: the swallowing operations degrade
      while `get_event_data` propagates the failure. */
  lemma FailingTransportAsymmetry(p: Parser, eventId: string, t: Transport)
    requires forall url :: t(url).Failure?
    ensures DownloadApiData(p, t) == "" && FindEventId(p, t).None?
    ensures GetEventData(p, eventId, t).Failure? && GetAllEvents(p, t).Failure?
    ensures GetEventData(p, eventId, t) == Failure(ConnectionFailed(t(Url.Join(p.baseUrl, EventPath(eventId))).error))
  {
  }
}
