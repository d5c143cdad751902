/** `QueuedLogEventHandler.queueWorkerFn` and `get_log_error_alert_flag`:
    how one queued record is counted, handed to the destination handlers and
    to the level callback, and when the "errors were logged" alert is shown. */
module LogRouting {
  import Seqs
  import opened LogLevels
  import opened LogCounters
  import opened LogSetup

  /** The parts of a `LogRecord` the routing looks at. */
  datatype Record = Record(levelname: string, levelno: int)

  /** A `QueuedLogEventHandler`: its destination handlers, in the order they
      were added, and its level callback. `callable` says whether the
      callback object is callable. */
  datatype Worker = Worker(dests: seq<Handler>, callbackLevel: int, callable: bool)

  /** `QueuedLogEventHandler(dest_hndlr)`. */
  function NewWorker(dest: seq<Handler>): (w: Worker)
    requires |dest| <= 1
    ensures w.dests == dest
    ensures !w.callable && w.callbackLevel == NOTSET
  {
    Worker(dest, NOTSET, false)
  }

  /** `addHandler`. */
  function AddHandler(w: Worker, h: Handler): (r: Worker)
    ensures r.dests == w.dests + [h]
    ensures r.callbackLevel == w.callbackLevel && r.callable == w.callable
  {
    w.(dests := w.dests + [h])
  }

  /** `setLogLevelCallback`. */
  function SetLogLevelCallback(w: Worker, level: int, callable: bool): (r: Worker)
    ensures r.dests == w.dests
    ensures r.callbackLevel == level && r.callable == callable
  {
    w.(callbackLevel := level, callable := callable)
  }

  /** The destination handler takes the record. */
  predicate Accepts(rec: Record, h: Handler) {
    rec.levelno >= h.level
  }

  /** The level callback fires for the record. */
  predicate CallbackFires(w: Worker, rec: Record) {
    w.callbackLevel > NOTSET && rec.levelno >= w.callbackLevel && w.callable
  }

  /** What processing one record does. */
  datatype Delivery = Delivery(counters: Counters, emitted: seq<Handler>, callback: bool)

  /** One iteration of `queueWorkerFn`. */
  function Process(w: Worker, c: Counters, rec: Record): (d: Delivery)
    requires Valid(c)
    ensures Valid(d.counters)
    ensures GetCount(d.counters, rec.levelname) == GetCount(c, rec.levelname) + 1
    ensures forall n :: n != rec.levelname ==> GetCount(d.counters, n) == GetCount(c, n)
    ensures Seqs.IsSubsequence(d.emitted, w.dests)
    ensures forall k :: 0 <= k < |d.emitted| ==> Accepts(rec, d.emitted[k])
    ensures forall k :: 0 <= k < |w.dests| ==> (w.dests[k] in d.emitted <==> Accepts(rec, w.dests[k]))
    ensures forall h :: multiset(d.emitted)[h] == if Accepts(rec, h) then multiset(w.dests)[h] else 0
    ensures d.callback <==> w.callable && w.callbackLevel > NOTSET && rec.levelno >= w.callbackLevel
  {
    var emitted := Seqs.Filter(w.dests, h => Accepts(rec, h));
    Seqs.FilterIsSubsequence(w.dests, h => Accepts(rec, h));
    Seqs.FilterCount(w.dests, h => Accepts(rec, h));
    Delivery(IncCount(c, rec.levelname), emitted, CallbackFires(w, rec))
  }

  /** The number of records named `name`. */
  function CountNamed(recs: seq<Record>, name: string): nat {
    if |recs| == 0 then 0
    else CountNamed(recs[..|recs| - 1], name) + (if recs[|recs| - 1].levelname == name then 1 else 0)
  }

  /** The worker's loop over a queue of records: the counters afterwards, the
      handlers each record went to, and the records the callback received. */
  datatype Drain = Drain(counters: Counters, emitted: seq<seq<Handler>>, callbacks: seq<Record>)

  function ProcessAll(w: Worker, c: Counters, recs: seq<Record>): (r: Drain)
    requires Valid(c)
    ensures Valid(r.counters)
    ensures |r.emitted| == |recs| && |r.callbacks| <= |recs|
  {
    if |recs| == 0 then Drain(c, [], [])
    else
      var prev := ProcessAll(w, c, recs[..|recs| - 1]);
      var d := Process(w, prev.counters, recs[|recs| - 1]);
      Drain(d.counters, prev.emitted + [d.emitted], prev.callbacks + (if d.callback then [recs[|recs| - 1]] else []))
  }

  /** Draining a queue hands each record to the same destinations as processing it alone. */
  lemma {:induction false} DrainEmitted(w: Worker, c: Counters, recs: seq<Record>, i: nat)
    requires Valid(c) && i < |recs|
    ensures ProcessAll(w, c, recs).emitted[i] == Process(w, c, recs[i]).emitted
  {
    var init := recs[..|recs| - 1];
    var prev := ProcessAll(w, c, init);
    if i < |recs| - 1 {
      DrainEmitted(w, c, init, i);
    } else {
      EmittedIgnoresCounters(w, prev.counters, c, recs[i]);
    }
  }

  /** Where a record goes does not depend on the counters. */
  lemma EmittedIgnoresCounters(w: Worker, c: Counters, c': Counters, rec: Record)
    requires Valid(c) && Valid(c')
    ensures Process(w, c, rec).emitted == Process(w, c', rec).emitted
  {
  }

  /** Draining a queue adds to each level's count the number of records at that level. */
  lemma {:induction false} DrainCounts(w: Worker, c: Counters, recs: seq<Record>, name: string)
    requires Valid(c)
    ensures GetCount(ProcessAll(w, c, recs).counters, name) == GetCount(c, name) + CountNamed(recs, name)
  {
    if |recs| > 0 {
      DrainCounts(w, c, recs[..|recs| - 1], name);
    }
  }

  /** The callback receives exactly the records that pass its test, in queue order. */
  lemma {:induction false} DrainCallbacks(w: Worker, c: Counters, recs: seq<Record>)
    requires Valid(c)
    ensures ProcessAll(w, c, recs).callbacks == Seqs.Filter(recs, FiresFor(w))
  {
    if |recs| > 0 {
      var init := recs[..|recs| - 1];
      var p := FiresFor(w);
      DrainCallbacks(w, c, init);
      DrainCallbacksSnoc(w, c, recs);
      Seqs.FilterSnoc(recs, p);
    }
  }

  /** The last record reaches the callback exactly when the test passes. */
  lemma DrainCallbacksSnoc(w: Worker, c: Counters, recs: seq<Record>)
    requires Valid(c) && |recs| > 0
    ensures ProcessAll(w, c, recs).callbacks
         == ProcessAll(w, c, recs[..|recs| - 1]).callbacks + (if FiresFor(w)(recs[|recs| - 1]) then [recs[|recs| - 1]] else [])
  {
    var prev := ProcessAll(w, c, recs[..|recs| - 1]);
    var d := Process(w, prev.counters, recs[|recs| - 1]);
    assert FiresFor(w)(recs[|recs| - 1]) == d.callback;
  }

  /** The callback test as a function value. */
  function FiresFor(w: Worker): Record -> bool {
    rec => CallbackFires(w, rec)
  }

  /** The number of queue handlers, given by level, that take a record at `levelno`. */
  function AcceptingQueues(queueLevels: seq<int>, levelno: int): nat {
    if |queueLevels| == 0 then 0
    else AcceptingQueues(queueLevels[..|queueLevels| - 1], levelno) + (if levelno >= queueLevels[|queueLevels| - 1] then 1 else 0)
  }

  /** The root logger hands a record to every queue handler attached to it
      whose level it reaches: `queued_handler_obj` (level NOTSET) and, once the
      socket forwarder has started, `queued_handler2_obj` (level
      `socket_min_log_level`). As written, each queue's worker counts the
      record in the one shared `msg_level_counters_obj`. */
  function CountRecordAsWritten(c: Counters, queueLevels: seq<int>, rec: Record): (r: Counters)
    requires Valid(c)
    ensures Valid(r)
    ensures GetCount(r, rec.levelname) == GetCount(c, rec.levelname) + AcceptingQueues(queueLevels, rec.levelno)
    ensures forall n :: n != rec.levelname ==> GetCount(r, n) == GetCount(c, n)
  {
    if |queueLevels| == 0 then c
    else
      var prev := CountRecordAsWritten(c, queueLevels[..|queueLevels| - 1], rec);
      if rec.levelno >= queueLevels[|queueLevels| - 1] then Process(Worker([], NOTSET, false), prev, rec).counters else prev
  }

  /** The counters as their purpose states: one count per logged record,
      however many queue handlers the record passes through. */
  function CountRecord(c: Counters, queueLevels: seq<int>, rec: Record): (r: Counters)
    requires Valid(c)
    ensures Valid(r)
    ensures AcceptingQueues(queueLevels, rec.levelno) > 0 ==> GetCount(r, rec.levelname) == GetCount(c, rec.levelname) + 1
    ensures AcceptingQueues(queueLevels, rec.levelno) == 0 ==> r == c
    ensures forall n :: n != rec.levelname ==> GetCount(r, n) == GetCount(c, n)
  {
    if AcceptingQueues(queueLevels, rec.levelno) > 0 then IncCount(c, rec.levelname) else c
  }

  /** With the socket forwarder running at its default level NOTSET, one ERROR
      record is counted twice as written and once as intended. */
  lemma SocketForwarderDoubleCounts(c: Counters)
    requires Valid(c)
    ensures GetCount(CountRecordAsWritten(c, [NOTSET, NOTSET], Record(ErrorName, ERROR)), ErrorName) == GetCount(c, ErrorName) + 2
    ensures GetCount(CountRecord(c, [NOTSET, NOTSET], Record(ErrorName, ERROR)), ErrorName) == GetCount(c, ErrorName) + 1
  {
    assert [NOTSET, NOTSET][..1] == [NOTSET];
    assert [NOTSET][..0] == [];
  }

  /** `logging.getLevelName(logging.ERROR)`. */
  const ErrorName: string := "ERROR"

  /** The module state `get_log_error_alert_flag` reads and writes:
      `log_error_alerted_flag`, whether `queued_handler_obj` is set, and the
      message counters. */
  datatype AlertState = AlertState(alerted: bool, active: bool, counters: Counters)

  /** `get_log_error_alert_flag`. */
  function GetLogErrorAlertFlag(s: AlertState): (r: (AlertState, bool))
    ensures r.0.active == s.active && r.0.counters == s.counters
    ensures r.0.alerted == (s.alerted || r.1)
    ensures r.1 ==> !s.alerted && s.active && GetCount(s.counters, ErrorName) > 0
    ensures !s.alerted && s.active && GetCount(s.counters, ErrorName) > 0 ==> r.1
  {
    if s.alerted || !s.active then (s, false)
    else if GetCount(s.counters, ErrorName) > 0 then (s.(alerted := true), true)
    else (s, false)
  }

  /** What happens to the logging module over time: setup installs the queue
      handler, `close_logging` removes it, the worker counts a record, or the
      server asks for the alert flag. */
  datatype Event = SetupDone | Closed | Counted(levelname: string) | Queried

  /** The state after one event and the flag values it returned. */
  function Step(s: AlertState, e: Event): (r: (AlertState, seq<bool>))
    requires Valid(s.counters)
    ensures Valid(r.0.counters)
    ensures s.alerted ==> r.0.alerted && (r.1 == [] || r.1 == [false])
    ensures r.0.alerted ==> s.alerted || r.1 == [true]
    ensures |r.1| <= 1
  {
    match e
    case SetupDone => (s.(active := true), [])
    case Closed => (s.(active := false), [])
    case Counted(n) => (s.(counters := IncCount(s.counters, n)), [])
    case Queried =>
      var (s', flag) := GetLogErrorAlertFlag(s);
      (s', [flag])
  }

  /** The flag values returned over a sequence of events. */
  function Run(s: AlertState, events: seq<Event>): (r: (AlertState, seq<bool>))
    requires Valid(s.counters)
    ensures Valid(r.0.counters)
    ensures s.alerted ==> r.0.alerted
    decreases |events|
  {
    if |events| == 0 then (s, [])
    else
      var (s1, out1) := Step(s, events[0]);
      var (s2, outs) := Run(s1, events[1..]);
      (s2, out1 + outs)
  }

  /** The number of `true` answers. */
  function TrueCount(outs: seq<bool>): nat {
    if |outs| == 0 then 0 else (if outs[0] then 1 else 0) + TrueCount(outs[1..])
  }

  lemma {:induction false} TrueCountConcat(a: seq<bool>, b: seq<bool>)
    ensures TrueCount(a + b) == TrueCount(a) + TrueCount(b)
  {
    if |a| > 0 {
      assert (a + b)[1..] == a[1..] + b;
      TrueCountConcat(a[1..], b);
    } else {
      assert a + b == b;
    }
  }

  /** The alert is shown at most once, and never again once it has been shown. */
  lemma {:induction false} AlertShownAtMostOnce(s: AlertState, events: seq<Event>)
    requires Valid(s.counters)
    ensures TrueCount(Run(s, events).1) <= if s.alerted then 0 else 1
    decreases |events|
  {
    if |events| > 0 {
      var (s1, out1) := Step(s, events[0]);
      AlertShownAtMostOnce(s1, events[1..]);
      TrueCountConcat(out1, Run(s1, events[1..]).1);
      assert TrueCount(out1) <= 1;
    }
  }

  /** An alert is only shown after an ERROR record has been counted. */
  lemma {:induction false} AlertNeedsError(s: AlertState, events: seq<Event>)
    requires Valid(s.counters) && GetCount(s.counters, ErrorName) == 0
    requires true in Run(s, events).1
    ensures exists i :: 0 <= i < |events| && events[i] == Counted(ErrorName)
    decreases |events|
  {
    var (s1, out1) := Step(s, events[0]);
    if events[0] != Counted(ErrorName) {
      assert GetCount(s1.counters, ErrorName) == 0;
      assert Run(s, events).1 == out1 + Run(s1, events[1..]).1;
      AlertNeedsError(s1, events[1..]);
      var i :| 0 <= i < |events[1..]| && events[1..][i] == Counted(ErrorName);
      assert events[i + 1] == Counted(ErrorName);
    }
  }

  /** Once set up, an ERROR record followed by a query shows the alert. */
  lemma ErrorThenQueryAlerts(s: AlertState)
    requires Valid(s.counters) && !s.alerted
    ensures Run(s, [SetupDone, Counted(ErrorName), Queried]).1 == [true]
  {
    var s1 := s.(active := true);
    var s2 := s1.(counters := IncCount(s1.counters, ErrorName));
    assert Run(s2, [Queried]).1 == [true];
    assert [SetupDone, Counted(ErrorName), Queried][1..] == [Counted(ErrorName), Queried];
    assert [Counted(ErrorName), Queried][1..] == [Queried];
  }
}
