/** The event-identifier extractor shared by every copy of `EventParser`: a
    search for `events/` followed by an 8-4-4-4-12 group of lower-case hex
    digits. The regular expression has a fixed width and no alternation, so
    `re.search` finds exactly the leftmost index where `MatchAt` holds. */
module EventId {
  import opened Wrappers

  const Prefix: string := "events/"
  /** Length of the identifier token and of the whole `events/<id>` span. */
  const IdLength: nat := 36
  const PathLength: nat := 43

  /** `[a-f0-9]`: lower-case hexadecimal only. */
  predicate IsLowerHex(c: char) {
    '0' <= c <= '9' || 'a' <= c <= 'f'
  }

  /** Offsets of the four `-` separators inside the token. */
  predicate IsDashOffset(k: int) {
    k == 8 || k == 13 || k == 18 || k == 23
  }

  /** The 8-4-4-4-12 shape of the captured group. */
  predicate IsUuid(t: string) {
    |t| == IdLength &&
    forall k :: 0 <= k < IdLength ==> if IsDashOffset(k) then t[k] == '-' else IsLowerHex(t[k])
  }

  /** The whole pattern matches at index `i` of `s`. */
  predicate MatchAt(s: string, i: nat) {
    i + PathLength <= |s| && s[i..i + 7] == Prefix && IsUuid(s[i + 7..i + PathLength])
  }

  /** `w` occurs in `s` starting at index `i`. */
  predicate OccursAt(s: string, i: nat, w: string) {
    i + |w| <= |s| && s[i..i + |w|] == w
  }

  /** `i` is where `re.search` reports its match: a match with none before it. */
  predicate IsLeftmostMatch(s: string, i: nat) {
    MatchAt(s, i) && forall j :: 0 <= j < i ==> !MatchAt(s, j)
  }

  /** The least index at or after `from` where the pattern matches. */
  function FirstMatchFrom(s: string, from: nat): (r: Option<nat>)
    ensures r.Some? ==> from <= r.value && MatchAt(s, r.value)
    ensures r.Some? ==> forall j :: from <= j < r.value ==> !MatchAt(s, j)
    ensures r.None? ==> forall j :: from <= j ==> !MatchAt(s, j)
    decreases |s| - from
  {
    if from + PathLength > |s| then None
    else if MatchAt(s, from) then Some(from)
    else FirstMatchFrom(s, from + 1)
  }

  /** `extract_event_id`: the captured 36-character token of the leftmost match. */
  function ExtractEventId(s: string): (r: Option<string>)
    ensures r.None? <==> forall i: nat :: !MatchAt(s, i)
    ensures r.Some? ==> IsUuid(r.value)
    ensures r.Some? ==> exists i: nat :: IsLeftmostMatch(s, i) && s[i + 7..i + PathLength] == r.value
    ensures r.Some? ==> exists i: nat :: OccursAt(s, i, Prefix + r.value)
  {
    match FirstMatchFrom(s, 0)
    case None => None
    case Some(i) =>
      assert IsLeftmostMatch(s, i);
      assert s[i..i + PathLength] == s[i..i + 7] + s[i + 7..i + PathLength];
      assert OccursAt(s, i, Prefix + s[i + 7..i + PathLength]);
      Some(s[i + 7..i + PathLength])
  }

  /** `extract_event_path`: the same search, returning the whole `events/<id>` span. */
  function ExtractEventPath(s: string): (r: Option<string>)
    ensures r.None? <==> ExtractEventId(s).None?
    ensures r.Some? ==> r.value == Prefix + ExtractEventId(s).value
    ensures r.Some? ==> |r.value| == PathLength
  {
    match FirstMatchFrom(s, 0)
    case None => None
    case Some(i) =>
      assert s[i..i + PathLength] == s[i..i + 7] + s[i + 7..i + PathLength];
      Some(s[i..i + PathLength])
  }

  /** Whatever follows it, the leftmost match decides both results. */
  lemma {:induction false} LeftmostMatchDecides(s: string, i: nat)
    requires IsLeftmostMatch(s, i)
    ensures ExtractEventId(s) == Some(s[i + 7..i + PathLength])
    ensures ExtractEventPath(s) == Some(s[i..i + PathLength])
  {
  }

  /** An upper-case hex digit anywhere in the token position rules a match out. */
  lemma UppercaseNeverMatches(s: string, i: nat, k: nat)
    requires i + PathLength <= |s| && k < IdLength && 'A' <= s[i + 7 + k] <= 'F'
    ensures !MatchAt(s, i)
  {
  }

  /** Text that starts with a well-formed `events/<id>` yields that identifier,
      whatever follows it, including a second identifier. */
  lemma {:induction false} FirstOfTwoMatches(a: string, rest: string)
    requires IsUuid(a)
    ensures ExtractEventId(Prefix + a + rest) == Some(a)
    ensures ExtractEventPath(Prefix + a + rest) == Some(Prefix + a)
  {
    var s := Prefix + a + rest;
    assert s[0..7] == Prefix;
    assert s[7..PathLength] == a;
    assert s[0..PathLength] == Prefix + a;
    LeftmostMatchDecides(s, 0);
  }

  /** An identifier in upper-case hex is not found at all. */
  lemma UppercaseIdIsAbsent()
    ensures ExtractEventId("events/AAAAAAAA-AAAA-AAAA-AAAA-AAAAAAAAAAAA") == None
  {
    var s := "events/AAAAAAAA-AAAA-AAAA-AAAA-AAAAAAAAAAAA";
    forall i: nat ensures !MatchAt(s, i) {
      if i == 0 {
        UppercaseNeverMatches(s, 0, 0);
      }
    }
  }

  /** The empty string holds no identifier. */
  lemma EmptyHasNoId()
    ensures ExtractEventId("") == None && ExtractEventPath("") == None
  {
  }
}
