/** Run telemetry (proxy/app/runs/telemetry.py and the cursor of `stream_run` in
    proxy/app/api/runs.py). The event table is an append-only sequence of events in
    insertion order; the wall-clock timestamp is a parameter. */
module Telemetry {
  import opened Wrappers
  import opened Json
  import opened Text
  import opened Domain

  datatype Event = Event(
    runId: int,
    runItemId: Option<int>,
    seqNo: int,
    eventType: string,
    payload: map<string, Json>)

  /** The event table, oldest row first. */
  type Log = seq<Event>

  // ---------------------------------------------------------------------------------------
  // Sequence numbers
  // ---------------------------------------------------------------------------------------

  /** `SELECT max(seq_no) WHERE run_id = runId`: `None` when the run has no events. */
  function MaxSeq(log: Log, runId: int): (r: Option<int>)
    ensures r.None? <==> forall i :: 0 <= i < |log| ==> log[i].runId != runId
    ensures r.Some? ==> exists i :: 0 <= i < |log| && log[i].runId == runId && log[i].seqNo == r.value
    ensures r.Some? ==> forall i :: 0 <= i < |log| && log[i].runId == runId ==> log[i].seqNo <= r.value
  {
    if |log| == 0 then None
    else
      var p := log[..|log| - 1];
      var e := log[|log| - 1];
      var m := MaxSeq(p, runId);
      assert forall i :: 0 <= i < |p| ==> p[i] == log[i];
      if e.runId != runId then m
      else if m.Some? && m.value >= e.seqNo then m
      else Some(e.seqNo)
  }

  /** The sequence number `emit_event` assigns: `(max or 0) + 1`. */
  function NextSeq(log: Log, runId: int): (n: int)
    ensures (forall i :: 0 <= i < |log| ==> log[i].runId != runId) ==> n == 1
    ensures forall i :: 0 <= i < |log| && log[i].runId == runId ==> log[i].seqNo < n
    ensures (exists i :: 0 <= i < |log| && log[i].runId == runId)
            ==> exists i :: 0 <= i < |log| && log[i].runId == runId && log[i].seqNo == n - 1
  {
    MaxSeq(log, runId).GetOr(0) + 1
  }

  /** The stored value of the `run_item_id` payload key. */
  function ItemIdJson(runItemId: Option<int>): Json {
    match runItemId
    case None => JNull
    case Some(i) => JInt(i)
  }

  const TimestampKey := "timestamp"
  const RunIdKey := "run_id"
  const RunItemIdKey := "run_item_id"

  /** The stored payload: the caller's payload with the three bookkeeping keys written last,
      so they replace caller keys of the same name. */
  function StampPayload(payload: map<string, Json>, timestamp: string, runId: int, runItemId: Option<int>)
    : (p: map<string, Json>)
    ensures p.Keys == payload.Keys + {TimestampKey, RunIdKey, RunItemIdKey}
    ensures p[TimestampKey] == JStr(timestamp)
    ensures p[RunIdKey] == JInt(runId)
    ensures p[RunItemIdKey] == ItemIdJson(runItemId)
    ensures forall k :: k in payload && k != TimestampKey && k != RunIdKey && k != RunItemIdKey
                        ==> k in p && p[k] == payload[k]
  {
    payload[TimestampKey := JStr(timestamp)][RunIdKey := JInt(runId)][RunItemIdKey := ItemIdJson(runItemId)]
  }

  /** `emit_event`: the table after the new event is appended. */
  function Emit(log: Log, runId: int, eventType: string, payload: map<string, Json>,
                runItemId: Option<int>, timestamp: string): (r: Log)
    ensures |r| == |log| + 1 && r[..|log|] == log
    ensures r[|log|].runId == runId && r[|log|].runItemId == runItemId
    ensures r[|log|].eventType == eventType
    ensures forall i :: 0 <= i < |log| && log[i].runId == runId ==> log[i].seqNo < r[|log|].seqNo
    ensures r[|log|].payload == StampPayload(payload, timestamp, runId, runItemId)
  {
    log + [Event(runId, runItemId, NextSeq(log, runId), eventType, StampPayload(payload, timestamp, runId, runItemId))]
  }

  // ---------------------------------------------------------------------------------------
  // Per-run views
  // ---------------------------------------------------------------------------------------

  /** The events of one run, in insertion order. */
  function RunEvents(log: Log, runId: int): (r: Log)
    ensures |r| <= |log|
    ensures forall i :: 0 <= i < |r| ==> r[i].runId == runId
  {
    if |log| == 0 then []
    else
      var p := RunEvents(log[..|log| - 1], runId);
      var e := log[|log| - 1];
      if e.runId == runId then p + [e] else p
  }

  /** `list_events_after`: the run's events with a sequence number above `after`. The
      filter keeps insertion order; `EventsAfterIsSuffix` shows that for a table built by
      `Emit` this is ascending sequence order, the order the query asks for. */
  function EventsAfter(log: Log, runId: int, after: int): (r: Log)
    ensures |r| <= |log|
    ensures forall i :: 0 <= i < |r| ==> r[i].runId == runId && r[i].seqNo > after
  {
    if |log| == 0 then []
    else
      var p := EventsAfter(log[..|log| - 1], runId, after);
      var e := log[|log| - 1];
      if e.runId == runId && e.seqNo > after then p + [e] else p
  }

  /** Exactly the run's events above `after` are listed: no event of the run with a larger
      sequence number is missed. */
  lemma {:induction false} EventsAfterMembers(log: Log, runId: int, after: int)
    ensures forall e :: e in EventsAfter(log, runId, after) <==> e in log && e.runId == runId && e.seqNo > after
    decreases |log|
  {
    if |log| > 0 {
      var p := log[..|log| - 1];
      EventsAfterMembers(p, runId, after);
      assert log == p + [log[|log| - 1]];
    }
  }

  /** Every event carries 1 + the number of earlier events of its own run: the table
      `Emit` builds when events are emitted one at a time. */
  predicate Sequential(log: Log)
    decreases |log|
  {
    |log| == 0 ||
    (Sequential(log[..|log| - 1]) &&
     log[|log| - 1].seqNo == |RunEvents(log[..|log| - 1], log[|log| - 1].runId)| + 1)
  }

  lemma {:induction false} SequentialPrefix(log: Log, n: nat)
    requires Sequential(log) && n <= |log|
    ensures Sequential(log[..n])
    decreases |log|
  {
    if n < |log| {
      var p := log[..|log| - 1];
      SequentialPrefix(p, n);
      assert p[..n] == log[..n];
    } else {
      assert log[..n] == log;
    }
  }

  /** Under sequential emission a run's sequence numbers are exactly 1, 2, ..., n in
      insertion order: no gaps, no duplicates, strictly increasing. */
  lemma {:induction false} SequentialNumbering(log: Log, runId: int)
    requires Sequential(log)
    ensures forall i :: 0 <= i < |RunEvents(log, runId)| ==> RunEvents(log, runId)[i].seqNo == i + 1
    decreases |log|
  {
    if |log| > 0 {
      SequentialNumbering(log[..|log| - 1], runId);
    }
  }

  /** Under sequential emission the stored maximum is the run's event count. */
  lemma {:induction false} SequentialMax(log: Log, runId: int)
    requires Sequential(log)
    ensures MaxSeq(log, runId).GetOr(0) == |RunEvents(log, runId)|
    decreases |log|
  {
    if |log| > 0 {
      SequentialMax(log[..|log| - 1], runId);
    }
  }

  /** Appending an event keeps the table sequential. */
  lemma EmitSequential(log: Log, runId: int, eventType: string, payload: map<string, Json>,
                       runItemId: Option<int>, timestamp: string)
    requires Sequential(log)
    ensures Sequential(Emit(log, runId, eventType, payload, runItemId, timestamp))
  {
    var r := Emit(log, runId, eventType, payload, runItemId, timestamp);
    SequentialMax(log, runId);
    assert r[..|r| - 1] == log;
  }

  /** Events of other runs never change a run's next sequence number: it is determined by
      the run's own events alone. */
  lemma {:induction false} NextSeqOwnRun(log: Log, runId: int)
    ensures NextSeq(log, runId) == NextSeq(RunEvents(log, runId), runId)
    decreases |log|
  {
    MaxSeqOwnRun(log, runId);
  }

  lemma {:induction false} MaxSeqOwnRun(log: Log, runId: int)
    ensures MaxSeq(log, runId) == MaxSeq(RunEvents(log, runId), runId)
    decreases |log|
  {
    if |log| > 0 {
      var p := log[..|log| - 1];
      var e := log[|log| - 1];
      MaxSeqOwnRun(p, runId);
      var rp := RunEvents(p, runId);
      if e.runId == runId {
        var re := rp + [e];
        assert re[..|re| - 1] == rp;
      }
    }
  }

  // ---------------------------------------------------------------------------------------
  // Replay
  // ---------------------------------------------------------------------------------------

  /** Position of a cursor within a run of `n` events numbered 1..n. */
  function ClampCursor(after: int, n: nat): (c: nat)
    ensures c <= n
    ensures 0 <= after <= n ==> c == after
  {
    if after < 0 then 0 else if after > n then n else after
  }

  /** For a table built by `Emit`, replay after `k` is the run's event list with the first
      `k` events removed: ascending, gapless, duplicate-free. */
  lemma {:induction false} EventsAfterIsSuffix(log: Log, runId: int, after: int)
    requires Sequential(log)
    ensures EventsAfter(log, runId, after)
            == RunEvents(log, runId)[ClampCursor(after, |RunEvents(log, runId)|)..]
    decreases |log|
  {
    if |log| > 0 {
      var p := log[..|log| - 1];
      var e := log[|log| - 1];
      SequentialPrefix(log, |log| - 1);
      EventsAfterIsSuffix(p, runId, after);
      assert log[..|log| - 1] == p;
      var rp := RunEvents(p, runId);
      if e.runId == runId {
        assert e.seqNo == |rp| + 1;
        if after <= |rp| {
          assert (rp + [e])[ClampCursor(after, |rp| + 1)..] == rp[ClampCursor(after, |rp|)..] + [e];
        }
      }
    }
  }

  /** Replayed events come in strictly ascending sequence order. */
  lemma EventsAfterAscending(log: Log, runId: int, after: int)
    requires Sequential(log)
    ensures forall i, j :: 0 <= i < j < |EventsAfter(log, runId, after)|
                           ==> EventsAfter(log, runId, after)[i].seqNo < EventsAfter(log, runId, after)[j].seqNo
  {
    EventsAfterIsSuffix(log, runId, after);
    SequentialNumbering(log, runId);
  }

  /** The stream's cursor after sending a batch: each sent event moves it to that event's
      sequence number, so it ends at the last one. */
  function Advance(cursor: int, sent: Log): (c: int)
    ensures |sent| == 0 ==> c == cursor
    ensures |sent| > 0 ==> c == sent[|sent| - 1].seqNo
    decreases |sent|
  {
    if |sent| == 0 then cursor else Advance(sent[0].seqNo, sent[1..])
  }

  lemma RunEventsPrefix(log: Log, more: Log, runId: int)
    ensures RunEvents(log + more, runId) == RunEvents(log, runId) + RunEvents(more, runId)
    decreases |more|
  {
    if |more| == 0 {
      assert log + more == log;
    } else {
      var m := more[..|more| - 1];
      var e := more[|more| - 1];
      RunEventsPrefix(log, m, runId);
      assert (log + more)[..|log + more| - 1] == log + m;
      assert (log + more)[|log + more| - 1] == e;
      if e.runId == runId {
        assert RunEvents(log + more, runId) == RunEvents(log + m, runId) + [e];
        assert RunEvents(more, runId) == RunEvents(m, runId) + [e];
      }
    }
  }

  /** Polling after `k` and then after the cursor the first batch leaves behind delivers,
      once more events have been appended, exactly what a single poll after `k` would:
      nothing twice and nothing skipped. */
  lemma ReplayNoDuplicatesNoGaps(log: Log, more: Log, runId: int, k: int)
    requires Sequential(log + more)
    ensures EventsAfter(log + more, runId, k)
            == EventsAfter(log, runId, k) + EventsAfter(log + more, runId, Advance(k, EventsAfter(log, runId, k)))
  {
    var all := log + more;
    assert all[..|log|] == log;
    SequentialPrefix(all, |log|);
    EventsAfterIsSuffix(log, runId, k);
    EventsAfterIsSuffix(all, runId, k);
    RunEventsPrefix(log, more, runId);
    var first := EventsAfter(log, runId, k);
    var rl := RunEvents(log, runId);
    if |first| > 0 {
      var ra := RunEvents(all, runId);
      var c := ClampCursor(k, |rl|);
      assert Advance(k, first) == |rl| by {
        SequentialNumbering(log, runId);
        assert first[|first| - 1] == rl[|rl| - 1];
      }
      assert EventsAfter(all, runId, |rl|) == ra[|rl|..] by {
        EventsAfterIsSuffix(all, runId, |rl|);
      }
      assert ClampCursor(k, |ra|) == c;
      SuffixOfConcat(rl, RunEvents(more, runId), c);
    }
  }

  lemma SuffixOfConcat<T>(a: seq<T>, b: seq<T>, c: nat)
    requires c <= |a|
    ensures (a + b)[c..] == a[c..] + (a + b)[|a|..]
  {
    assert (a + b)[|a|..] == b;
  }

  // ---------------------------------------------------------------------------------------
  // Stream cursor and termination
  // ---------------------------------------------------------------------------------------

  /** The first cursor of `stream_run`: the `after_seq` query value when given, else the
      `Last-Event-ID` header read as an integer, else 0; an unreadable header also gives 0. */
  function StartCursor(afterSeq: Option<int>, lastEventId: Option<string>): (c: int)
    ensures afterSeq.Some? ==> c == afterSeq.value
    ensures afterSeq.None? && (lastEventId.None? || lastEventId.value == "") ==> c == 0
    ensures afterSeq.None? && lastEventId.Some? && ParseInt(lastEventId.value).None? ==> c == 0
    ensures afterSeq.None? && lastEventId.Some? && ParseInt(lastEventId.value).Some?
            ==> c == ParseInt(lastEventId.value).value
  {
    match afterSeq
    case Some(v) => v
    case None =>
      match lastEventId
      case None => 0
      case Some(h) =>
        if h == "" then 0
        else
          match ParseInt(h)
          case None => 0
          case Some(v) => v
  }

  /** A client that reconnects with the `id:` line of the last event it saw resumes right
      after that event. */
  lemma ResumeFromEventId(seqNo: int)
    ensures StartCursor(None, Some(ShowInt(seqNo))) == seqNo
  {
    ParseShowInt(seqNo);
  }

  /** The poll loop ends when the run exists, has finished (COMPLETED or FAILED) and the
      last poll returned nothing. */
  predicate StreamStops(run: Option<RunStatus>, polled: Log) {
    run.Some? && (run.value == RunCompleted || run.value == RunFailed) && |polled| == 0
  }

  /** For a finished run the stream stops exactly when the run has no events or the cursor
      has passed every stored event of the run. */
  lemma StopsIffCaughtUp(log: Log, runId: int, cursor: int, status: RunStatus)
    requires Sequential(log)
    requires status == RunCompleted || status == RunFailed
    ensures StreamStops(Some(status), EventsAfter(log, runId, cursor))
            <==> |RunEvents(log, runId)| == 0 || cursor >= |RunEvents(log, runId)|
  {
    EventsAfterIsSuffix(log, runId, cursor);
    var n := |RunEvents(log, runId)|;
    assert |EventsAfter(log, runId, cursor)| == n - ClampCursor(cursor, n);
  }
}
