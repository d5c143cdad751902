/** `emit_current_log_file_to_socket`: the text of the current log file sent
    to a newly connected client, keeping only lines at or above the socket's
    minimum level. A log-file line starts with a timestamp and carries its
    level in brackets after column 24; a line without such a tag (a stack
    trace, a wrapped message) follows the tagged line above it. The file is
    given as its lines, each with its line ending. */
module LogFilter {
  import opened Wrappers
  import Text
  import opened LogLevels

  /** `line_str[0:4].isnumeric()`, for ASCII digits. */
  predicate NumericPrefix(line: string): (b: bool)
    ensures b ==> |line| > 0 && Text.IsDigit(line[0])
    ensures |line| >= 4 && (forall k :: 0 <= k < 4 ==> Text.IsDigit(line[k])) ==> b
  {
    var p := if |line| < 4 then line else line[..4];
    |p| > 0 && Text.AllDigits(p)
  }

  /** Only the first four characters decide the test. */
  lemma NumericPrefixOfLonger(line: string, more: string)
    requires |line| >= 4
    ensures NumericPrefix(line + more) == NumericPrefix(line)
  {
    assert (line + more)[..4] == line[..4];
  }

  /** The known level named by the line's tag: the text between the first
      '[' at or after column 24 and the next ']', on a line that starts with
      digits. */
  function LevelTag(line: string): (r: Option<int>)
    ensures r.Some? ==> r.value in KnownLevels && |line| > 24 && NumericPrefix(line)
  {
    if |line| <= 24 || !NumericPrefix(line) then None
    else
      var p := Text.FindChar(line, '[', 24);
      if p < 0 then None
      else
        var q := Text.FindChar(line, ']', p);
        if q < 0 then None
        else
          var v := LevelValue(line[p + 1..q]);
          if v >= 0 then Some(v) else None
  }

  /** The level of the last tagged line in `lines`. */
  function LastTag(lines: seq<string>): (r: Option<int>)
    ensures r.Some? ==> exists k :: 0 <= k < |lines| && LevelTag(lines[k]) == r
    ensures r.None? ==> forall k :: 0 <= k < |lines| ==> LevelTag(lines[k]).None?
  {
    if |lines| == 0 then None
    else if LevelTag(lines[|lines| - 1]).Some? then LevelTag(lines[|lines| - 1])
    else LastTag(lines[..|lines| - 1])
  }

  /** Whether `line`, coming after `before`, is sent: a tagged line by its
      own level, an untagged one by the last tagged line before it. */
  predicate Kept(before: seq<string>, line: string, minLevel: int): (b: bool)
    ensures LevelTag(line).None? && (forall k :: 0 <= k < |before| ==> LevelTag(before[k]).None?) ==> !b
    ensures b && LevelTag(line).None? ==> exists k :: 0 <= k < |before| && LevelTag(before[k]).Some? && LevelTag(before[k]).value >= minLevel
  {
    match LevelTag(line)
    case Some(v) => v >= minLevel
    case None => LastTag(before).Some? && LastTag(before).value >= minLevel
  }

  /** The lines that are sent, in file order. */
  function ReferenceFilter(lines: seq<string>, minLevel: int): (r: seq<string>)
    ensures |r| <= |lines|
  {
    if |lines| == 0 then []
    else
      var init := lines[..|lines| - 1];
      ReferenceFilter(init, minLevel) + (if Kept(init, lines[|lines| - 1], minLevel) then [lines[|lines| - 1]] else [])
  }

  /** `min_lvl_flag` and `pos1`, carried from one line to the next. */
  datatype FilterState = FilterState(keeping: bool, pos1: int)

  const Initial: FilterState := FilterState(false, 0)

  /** One pass of the loop body: the next state and whether the line is sent.
      `pos1` is only recomputed for lines longer than 24 characters. After
      every line, `min_lvl_flag` says whether that line was sent. */
  function FilterStep(st: FilterState, line: string, minLevel: int): (r: (FilterState, bool))
    requires minLevel > NOTSET
    ensures r.0.keeping == r.1
  {
    var pos1 := if |line| > 24 then Text.FindChar(line, '[', 24) else st.pos1;
    if pos1 > 0 then
      var pos2 := if NumericPrefix(line) then Text.FindChar(line, ']', pos1) else 0;
      if pos2 > pos1 then
        var lvl := LevelValue(line[pos1 + 1..pos2]);
        if lvl >= minLevel then (FilterState(true, pos1), true)
        else if lvl >= 0 then (FilterState(false, pos1), false)
        else (FilterState(st.keeping, pos1), st.keeping)
      else (FilterState(st.keeping, pos1), st.keeping)
    else (FilterState(st.keeping, pos1), st.keeping)
  }

  /** `pos1` is either unset or a position at or after column 24. */
  predicate PosInvariant(st: FilterState) {
    st.pos1 <= 0 || st.pos1 >= 24
  }

  /** A `pos1` carried over from an earlier line never marks a tag on a short
      line: the step decides exactly as the per-line tag does. */
  lemma StepFollowsTag(st: FilterState, line: string, minLevel: int)
    requires minLevel > NOTSET && PosInvariant(st)
    ensures PosInvariant(FilterStep(st, line, minLevel).0)
    ensures LevelTag(line).Some? ==> FilterStep(st, line, minLevel).1 == (LevelTag(line).value >= minLevel)
    ensures LevelTag(line).Some? ==> FilterStep(st, line, minLevel).0.keeping == (LevelTag(line).value >= minLevel)
    ensures LevelTag(line).None? ==> FilterStep(st, line, minLevel).1 == st.keeping
    ensures LevelTag(line).None? ==> FilterStep(st, line, minLevel).0.keeping == st.keeping
  {
    if |line| <= 24 && st.pos1 > 0 && NumericPrefix(line) {
      assert Text.FindChar(line, ']', st.pos1) == -1;
    }
  }

  /** The filtering loop of `emit_current_log_file_to_socket`. */
  method FilterLogLines(lines: seq<string>, minLevel: int) returns (kept: seq<string>)
    requires minLevel > NOTSET
    ensures kept == ReferenceFilter(lines, minLevel)
  {
    var st := Initial;
    kept := [];
    var i := 0;
    while i < |lines|
      invariant 0 <= i <= |lines|
      invariant PosInvariant(st)
      invariant st.keeping == (LastTag(lines[..i]).Some? && LastTag(lines[..i]).value >= minLevel)
      invariant kept == ReferenceFilter(lines[..i], minLevel)
    {
      StepFollowsTag(st, lines[i], minLevel);
      var (next, keep) := FilterStep(st, lines[i], minLevel);
      PrefixSnoc(lines, i, minLevel);
      if keep {
        kept := kept + [lines[i]];
      }
      st := next;
      i := i + 1;
    }
    assert lines[..i] == lines;
  }

  /** Extending the prefix by one line extends the reference output and the
      last tag by what that line contributes. */
  lemma PrefixSnoc(lines: seq<string>, i: nat, minLevel: int)
    requires i < |lines|
    ensures ReferenceFilter(lines[..i + 1], minLevel)
            == ReferenceFilter(lines[..i], minLevel) + (if Kept(lines[..i], lines[i], minLevel) then [lines[i]] else [])
    ensures LastTag(lines[..i + 1]) == if LevelTag(lines[i]).Some? then LevelTag(lines[i]) else LastTag(lines[..i])
  {
    assert lines[..i + 1][..i] == lines[..i];
  }

  /** A tagged line is sent exactly when its level reaches the minimum. */
  lemma TaggedLineDecidesItself(before: seq<string>, line: string, minLevel: int, v: int)
    requires LevelTag(line) == Some(v)
    ensures Kept(before, line, minLevel) <==> v >= minLevel
  {
  }

  /** Raising the minimum level never sends a line that a lower minimum withheld. */
  lemma {:induction false} HigherMinimumSendsFewer(lines: seq<string>, low: int, high: int)
    requires low <= high
    ensures forall k :: 0 <= k < |ReferenceFilter(lines, high)| ==> ReferenceFilter(lines, high)[k] in ReferenceFilter(lines, low)
  {
    if |lines| > 0 {
      var init := lines[..|lines| - 1];
      HigherMinimumSendsFewer(init, low, high);
    }
  }

  /** A message sent on the socket: its event name and its text. */
  datatype SocketMessage = SocketMessage(event: string, payload: string)

  /** The messages `emit_current_log_file_to_socket` sends for the current
      log file (`None` when there is none) at socket minimum level `minLevel`. */
  method EmitCurrentLogFile(file: Option<seq<string>>, minLevel: int) returns (msgs: seq<SocketMessage>)
    ensures file.None? ==> msgs == []
    ensures file.Some? && minLevel <= NOTSET ==>
      msgs == [SocketMessage("hardware_log_init", Text.Join("", file.value)), SocketMessage("log_level_sel_init", "NOTSET")]
    ensures file.Some? && minLevel > NOTSET ==>
      msgs == [SocketMessage("hardware_log_init", Text.Join("", ReferenceFilter(file.value, minLevel))),
               SocketMessage("log_level_sel_init", LevelName(minLevel))]
  {
    if file.None? {
      return [];
    }
    if minLevel <= NOTSET {
      msgs := [SocketMessage("hardware_log_init", Text.Join("", file.value)), SocketMessage("log_level_sel_init", LevelName(NOTSET))];
    } else {
      var kept := FilterLogLines(file.value, minLevel);
      msgs := [SocketMessage("hardware_log_init", Text.Join("", kept)), SocketMessage("log_level_sel_init", LevelName(minLevel))];
    }
  }
}
