/** The older, timestamp-shaped reader kept for callers that hold no line index
    (dashboard/api_register_stream.py, _read_new_events). */
module TimestampWrapper {
  import opened Common
  import opened RegisterStream

  /** The latest timestamp among since and the returned events. */
  function Latest(events: seq<Event>, since: Option<int>): Option<int> {
    if events == [] then since
    else
      var before := Latest(Front(events), since);
      var ts := Last(events).timestamp;
      if ts.Some? && (before.None? || ts.value > before.value) then ts else before
  }

  function TimedPoll(file: File, since: Option<int>, types: set<string>): (seq<Event>, Option<int>) {
    var start := if file.Readable? then StartIndex(Slots(file.lines), since) else 0;
    var events := PollOutcome(file, start, types).0;
    (events, Latest(events, since))
  }

  /** `_read_new_events`. */
  method ReadNewEvents(file: File, since: Option<int>, types: set<string>)
    returns (events: seq<Event>, latest: Option<int>)
    ensures (events, latest) == TimedPoll(file, since, types)
  {
    var start := ResolveStartIndex(file, since);
    var newIndex: nat;
    events, newIndex := ReadNewEventsAfter(file, start, types);
    latest := since;
    var k := 0;
    while k < |events|
      invariant k <= |events|
      invariant latest == Latest(events[..k], since)
    {
      PrefixStep(events, k);
      var ts := events[k].timestamp;
      if ts.Some? && (latest.None? || ts.value > latest.value) {
        latest := ts;
      }
      k := k + 1;
    }
    assert events[..k] == events;
  }

  /** A client that keeps only the wrapper's timestamp: after each appended batch it polls with
      the timestamp the previous poll returned. */
  datatype Wrapped = Wrapped(lines: seq<Line>, sent: seq<Event>, since: Option<int>)

  function TimeChain(batches: seq<seq<Line>>, types: set<string>): Wrapped {
    if batches == [] then Wrapped([], [], None)
    else
      var p := TimeChain(Front(batches), types);
      var lines := p.lines + Last(batches);
      var (events, since) := TimedPoll(Readable(lines), p.since, types);
      Wrapped(lines, p.sent + events, since)
  }

  function Records(lines: seq<Line>): seq<Event> {
    Deliverable(Slots(lines), {})
  }

  ghost predicate Dated(lines: seq<Line>) {
    forall i :: 0 <= i < |lines| && lines[i].Record? ==> lines[i].event.timestamp.Some?
  }

  ghost predicate DatedEvents(events: seq<Event>) {
    forall i :: 0 <= i < |events| ==> events[i].timestamp.Some?
  }

  predicate Later(e: Event, f: Event) {
    e.timestamp.Some? && f.timestamp.Some? && e.timestamp.value > f.timestamp.value
  }

  /** The first record of the batch is newer than every record before the batch. */
  ghost predicate LeadsNewer(past: seq<Event>, batch: seq<Event>) {
    batch != [] ==> forall k :: 0 <= k < |past| ==> Later(batch[0], past[k])
  }

  lemma {:induction false} LatestAppend(a: seq<Event>, b: seq<Event>, since: Option<int>)
    ensures Latest(a + b, since) == Latest(b, Latest(a, since))
  {
    if b == [] {
      assert a + b == a;
    } else {
      LatestAppend(a, Front(b), since);
      assert Front(a + b) == a + Front(b) && Last(a + b) == Last(b);
    }
  }

  lemma {:induction false} LatestIsMax(events: seq<Event>, since: Option<int>)
    requires DatedEvents(events)
    ensures var m := Latest(events, since);
      && (m.None? <==> since.None? && events == [])
      && (m.Some? ==> (forall k :: 0 <= k < |events| ==> events[k].timestamp.value <= m.value)
                      && (since.Some? ==> since.value <= m.value)
                      && (m == since || exists k :: 0 <= k < |events| && events[k].timestamp == m))
  {
    if events == [] {
    } else {
      LatestIsMax(Front(events), since);
      assert Last(events) == events[|events| - 1];
      assert forall k :: 0 <= k < |events| - 1 ==> events[k] == Front(events)[k];
    }
  }

  lemma {:induction false} SlotSource(lines: seq<Line>, k: nat) returns (i: nat)
    requires k < |Slots(lines)|
    ensures i < |lines| && lines[i] == Slots(lines)[k] && !lines[i].Blank?
  {
    if k < |Slots(Front(lines))| {
      i := SlotSource(Front(lines), k);
    } else {
      i := |lines| - 1;
    }
  }

  lemma {:induction false} DatedSlots(lines: seq<Line>)
    requires Dated(lines)
    ensures Dated(Slots(lines))
  {
    forall k | 0 <= k < |Slots(lines)| && Slots(lines)[k].Record?
      ensures Slots(lines)[k].event.timestamp.Some?
    {
      var i := SlotSource(lines, k);
    }
  }

  lemma {:induction false} DatedDeliverable(slots: seq<Line>, types: set<string>)
    requires Dated(slots)
    ensures DatedEvents(Deliverable(slots, types))
  {
    forall k | 0 <= k < |Deliverable(slots, types)|
      ensures Deliverable(slots, types)[k].timestamp.Some?
    {
      var i := DeliverableSource(slots, types, k);
    }
  }

  /** Slots that are not newer than t deliver nothing newer than t. */
  lemma {:induction false} OldSlotsDeliverOld(slots: seq<Line>, types: set<string>, t: int)
    requires Dated(slots) && forall i :: 0 <= i < |slots| ==> !Newer(slots[i], t)
    ensures var events := Deliverable(slots, types);
      DatedEvents(events) && forall k :: 0 <= k < |events| ==> events[k].timestamp.value <= t
  {
    DatedDeliverable(slots, types);
    forall k | 0 <= k < |Deliverable(slots, types)|
      ensures Deliverable(slots, types)[k].timestamp.value <= t
    {
      var i := DeliverableSource(slots, types, k);
    }
  }

  /** One timed poll on past + batch, when since is the latest timestamp of past: it returns a
      suffix of the batch's records, all of them exactly when the batch leads with a newer one. */
  lemma {:induction false} TimedPollStep(past: seq<Line>, batch: seq<Line>, since: Option<int>)
    requires Dated(past) && Dated(batch)
    requires since == Latest(Deliverable(past, {}), None)
    ensures var a, b := Deliverable(past, {}), Deliverable(batch, {});
      var events := Deliverable((past + batch)[StartIndex(past + batch, since)..], {});
      && DatedEvents(a) && DatedEvents(b)
      && |events| <= |b|
      && (|events| == |b| <==> events == b)
      && (events == b <==> LeadsNewer(a, b))
      && Latest(events, since) == Latest(a + b, None)
  {
    var all := past + batch;
    var a, b := Deliverable(past, {}), Deliverable(batch, {});
    DatedDeliverable(past, {});
    DatedDeliverable(batch, {});
    LatestIsMax(a, None);
    LatestAppend(a, b, None);
    if since.None? {
      assert all[0..] == all;
      DeliverableAppend(past, batch, {});
      assert a + b == b;
    } else {
      var t := since.value;
      PastIsOld(past, t);
      var j := StartIndex(batch, since);
      StartPastOld(past, batch, t, j);
      assert all[|past| + j..] == batch[j..];
      SplitBatch(batch, j, t, a);
    }
  }

  lemma {:induction false} PastIsOld(past: seq<Line>, t: int)
    requires Dated(past) && Latest(Deliverable(past, {}), None) == Some(t)
    ensures forall i :: 0 <= i < |past| ==> !Newer(past[i], t)
  {
    DatedDeliverable(past, {});
    LatestIsMax(Deliverable(past, {}), None);
    forall i | 0 <= i < |past| ensures !Newer(past[i], t) {
      if past[i].Record? {
        DeliverableTarget(past, {}, i);
      }
    }
  }

  lemma {:induction false} StartPastOld(past: seq<Line>, batch: seq<Line>, t: int, j: nat)
    requires forall i :: 0 <= i < |past| ==> !Newer(past[i], t)
    requires IsStart(batch, t, j)
    ensures StartIndex(past + batch, Some(t)) == |past| + j
  {
    var all := past + batch;
    assert forall i :: 0 <= i < |batch| ==> all[|past| + i] == batch[i];
    assert forall i :: |past| <= i < |past| + j ==> all[i] == batch[i - |past|];
    assert IsStart(all, t, |past| + j);
    StartIsUnique(all, t, |past| + j, StartIndex(all, Some(t)));
  }

  lemma {:induction false} OldEventsKeepLatest(events: seq<Event>, t: int)
    requires DatedEvents(events) && forall k :: 0 <= k < |events| ==> events[k].timestamp.value <= t
    ensures Latest(events, Some(t)) == Some(t)
  {
    LatestIsMax(events, Some(t));
  }

  /** t is the latest timestamp of the past: a batch leads with a newer record if its first one is newer
      than t. */
  lemma {:induction false} LeadsNewerIff(a: seq<Event>, b: seq<Event>, t: int)
    requires DatedEvents(a) && DatedEvents(b)
    requires forall k :: 0 <= k < |a| ==> a[k].timestamp.value <= t
    requires exists k :: 0 <= k < |a| && a[k].timestamp == Some(t)
    ensures LeadsNewer(a, b) <==> b == [] || b[0].timestamp.value > t
  {
  }

  lemma {:induction false} SplitBatch(batch: seq<Line>, j: nat, t: int, a: seq<Event>)
    requires Dated(batch) && IsStart(batch, t, j)
    requires DatedEvents(a) && DatedEvents(Deliverable(batch, {}))
    requires forall k :: 0 <= k < |a| ==> a[k].timestamp.value <= t
    requires exists k :: 0 <= k < |a| && a[k].timestamp == Some(t)
    ensures var b, events := Deliverable(batch, {}), Deliverable(batch[j..], {});
      && |events| <= |b|
      && (|events| == |b| <==> events == b)
      && (events == b <==> LeadsNewer(a, b))
      && Latest(events, Some(t)) == Latest(b, Some(t))
  {
    var b, events := Deliverable(batch, {}), Deliverable(batch[j..], {});
    var skipped := Deliverable(batch[..j], {});
    assert batch == batch[..j] + batch[j..];
    DeliverableAppend(batch[..j], batch[j..], {});
    OldSlotsDeliverOld(batch[..j], {}, t);
    LatestAppend(skipped, events, Some(t));
    OldEventsKeepLatest(skipped, t);
    LeadsNewerIff(a, b, t);
    NothingAdded(skipped, events);
    if skipped == [] && events != [] {
      HeadOfDeliverable(batch[j..]);
    } else if skipped != [] {
      assert b[0] == skipped[0];
    }
  }

  lemma {:induction false} HeadOfDeliverable(slots: seq<Line>)
    requires slots != [] && slots[0].Record?
    ensures Deliverable(slots, {}) != [] && Deliverable(slots, {})[0] == slots[0].event
  {
    DeliverableAppend([slots[0]], slots[1..], {});
    assert [slots[0]] + slots[1..] == slots;
    assert Front([slots[0]]) == [];
  }

  /** Every batch leads with a record newer than all records of the batches before it. */
  ghost predicate AllLeadNewer(batches: seq<seq<Line>>) {
    batches == [] ||
    (AllLeadNewer(Front(batches)) &&
     LeadsNewer(Records(TimeChain(Front(batches), {}).lines), Records(Last(batches))))
  }

  /** Without a filter, chaining the timestamp wrapper over any dated register never delivers more than
      the line-index cursor does, and delivers the same sequence exactly when every batch leads
      with a newer record. So the same-timestamp drop the cursor was introduced to cure is still
      there for a caller of the wrapper. */
  lemma {:induction false} TimeChainIsExactIff(batches: seq<seq<Line>>)
    requires forall i :: 0 <= i < |batches| ==> Dated(batches[i])
    ensures var r := TimeChain(batches, {});
      && Dated(r.lines)
      && r.since == Latest(Records(r.lines), None)
      && |r.sent| <= |Records(r.lines)|
      && (|r.sent| == |Records(r.lines)| <==> r.sent == Records(r.lines))
      && (r.sent == Records(r.lines) <==> AllLeadNewer(batches))
  {
    if batches == [] {
    } else {
      TimeChainIsExactIff(Front(batches));
      var p, r, batch := TimeChain(Front(batches), {}), TimeChain(batches, {}), Last(batches);
      DatedSlots(p.lines);
      DatedSlots(batch);
      SlotsAppend(p.lines, batch);
      var a, b := Records(p.lines), Records(batch);
      DeliverableAppend(Slots(p.lines), Slots(batch), {});
      assert Records(r.lines) == a + b;
      TimedPollStep(Slots(p.lines), Slots(batch), p.since);
      var events := Deliverable(Slots(r.lines)[StartIndex(Slots(r.lines), p.since)..], {});
      assert r.sent == p.sent + events;
      assert |r.sent| == |a| + |b| ==> p.sent == a && events == b;
      assert r.sent == a + b ==> |r.sent| == |a| + |b|;
    }
  }

  lemma {:induction false} FirstPoll(e: Event, types: set<string>)
    requires e.timestamp.Some? && Matches(e, types)
    ensures TimeChain([[Record(e)]], types) == Wrapped([Record(e)], [e], e.timestamp)
  {
    var one := [Record(e)];
    assert Front([one]) == [] && Front(one) == [] && Front([e]) == [];
    assert Slots(one) == one && one[0..] == one;
    assert Deliverable(one, types) == [e] && Latest([e], None) == e.timestamp;
    assert TimeChain([], types).lines + one == one && TimeChain([], types).sent + [e] == [e];
    assert TimedPoll(Readable(one), None, types) == ([e], e.timestamp);
  }

  /** The smallest instance: two records with one timestamp, each polled after it is appended. */
  lemma {:induction false} WrapperDropsSameTimestamp(e: Event, f: Event)
    requires e.timestamp.Some? && e.timestamp == f.timestamp
    ensures TimeChain([[Record(e)], [Record(f)]], {}).sent == [e]
    ensures Records([Record(e)] + [Record(f)]) == [e, f]
  {
    FirstPoll(e, {});
    var two := [Record(e)] + [Record(f)];
    assert Front([[Record(e)], [Record(f)]]) == [[Record(e)]];
    assert Front(two) == [Record(e)] && Front([Record(e)]) == [] && Slots(two) == two;
    StartIsUnique(two, e.timestamp.value, 2, StartIndex(two, e.timestamp));
    assert two[2..] == [];
  }

  // ------------------------------------------------------------------------------------------
  // Any filter, any timestamps
  // ------------------------------------------------------------------------------------------

  lemma {:induction false} NothingDeliveredIff(slots: seq<Line>, types: set<string>)
    ensures Deliverable(slots, types) == [] <==> forall i :: 0 <= i < |slots| ==> !Delivers(slots[i], types)
  {
    if slots == [] {
    } else {
      NothingDeliveredIff(Front(slots), types);
      assert forall i :: 0 <= i < |slots| - 1 ==> Front(slots)[i] == slots[i];
      assert slots[|slots| - 1] == Last(slots);
    }
  }

  /** The poll neither repeats nor skips: no matching slot of the past stands at or behind its start, and
      no matching slot of the batch before it. */
  ghost predicate PollIsExact(past: seq<Line>, batch: seq<Line>, since: Option<int>, types: set<string>) {
    var n := StartIndex(past + batch, since);
    && (forall i :: n <= i < |past| ==> !Delivers(past[i], types))
    && (forall i :: 0 <= i < n - |past| && i < |batch| ==> !Delivers(batch[i], types))
  }

  /** What a timed poll adds to the batch, or leaves out of it. */
  lemma {:induction false} TimedPollParts(past: seq<Line>, batch: seq<Line>, n: nat, types: set<string>)
    requires n <= |past + batch|
    ensures n <= |past| ==>
        Deliverable((past + batch)[n..], types) == Deliverable(past[n..], types) + Deliverable(batch, types)
    ensures n > |past| ==>
              Deliverable(batch, types) == Deliverable(batch[..n - |past|], types) + Deliverable((past
                  + batch)[n..], types)
  {
    if n <= |past| {
      assert (past + batch)[n..] == past[n..] + batch;
      DeliverableAppend(past[n..], batch, types);
    } else {
      assert batch == batch[..n - |past|] + (past + batch)[n..];
      DeliverableAppend(batch[..n - |past|], (past + batch)[n..], types);
    }
  }

  lemma {:induction false} QuietIff(slots: seq<Line>, from: nat, to: nat, types: set<string>)
    requires from <= to <= |slots|
    ensures Deliverable(slots[from..to], types) == [] <==> forall k :: from <= k < to ==> !Delivers(slots[k], types)
  {
    NothingDeliveredIff(slots[from..to], types);
    assert forall k :: from <= k < to ==> slots[k] == slots[from..to][k - from];
  }

  lemma {:induction false} EarlyPollIsExactIff(past: seq<Line>, batch: seq<Line>, since: Option<int>,
                                               types: set<string>)
    requires StartIndex(past + batch, since) <= |past|
    ensures PollIsExact(past, batch, since, types) <==>
        Deliverable(past[StartIndex(past + batch, since)..], types) == []
  {
    var n := StartIndex(past + batch, since);
    assert past[n..|past|] == past[n..];
    QuietIff(past, n, |past|, types);
  }

  lemma {:induction false} LatePollIsExactIff(past: seq<Line>, batch: seq<Line>, since: Option<int>, types: set<string>)
    requires StartIndex(past + batch, since) > |past|
    ensures PollIsExact(past, batch, since, types) <==>
            Deliverable(batch[..StartIndex(past + batch, since) - |past|], types) == []
  {
    var m := StartIndex(past + batch, since) - |past|;
    assert batch[0..m] == batch[..m];
    QuietIff(batch, 0, m, types);
  }

  lemma {:induction false} NothingAdded<T>(a: seq<T>, b: seq<T>)
    ensures a + b == b <==> a == []
  {
    assert |a + b| == |a| + |b|;
  }

  /** Whatever the filter, the dates and since: a timed poll hands over precisely the batch's matching
      records if and only if it neither repeats nor skips. */
  lemma {:induction false} TimedPollIsExactIff(past: seq<Line>, batch: seq<Line>, since: Option<int>,
                                               types: set<string>)
    ensures Deliverable((past + batch)[StartIndex(past + batch, since)..], types) == Deliverable(batch, types) <==>
            PollIsExact(past, batch, since, types)
  {
    var n := StartIndex(past + batch, since);
    TimedPollParts(past, batch, n, types);
    if n <= |past| {
      EarlyPollIsExactIff(past, batch, since, types);
      NothingAdded(Deliverable(past[n..], types), Deliverable(batch, types));
    } else {
      LatePollIsExactIff(past, batch, since, types);
      NothingAdded(Deliverable(batch[..n - |past|], types), Deliverable((past + batch)[n..], types));
    }
  }

  /** The register after a sequence of batches. */
  function Register(batches: seq<seq<Line>>): seq<Line> {
    if batches == [] then [] else Register(Front(batches)) + Last(batches)
  }

  /** Read off the register alone: each batch's poll is exact when since is the latest timestamp among the
      matching records before the batch. */
  ghost predicate AllPollsExact(batches: seq<seq<Line>>, types: set<string>) {
    batches == [] ||
    var past := Slots(Register(Front(batches)));
    && AllPollsExact(Front(batches), types)
    && PollIsExact(past, Slots(Last(batches)), Latest(Deliverable(past, types), None), types)
  }

  /** The client holds what the line-index cursor would have delivered. */
  ghost predicate UpToDate(r: Wrapped, types: set<string>) {
    r.sent == Deliverable(Slots(r.lines), types)
  }

  lemma {:induction false} TimeChainStep(batches: seq<seq<Line>>, types: set<string>)
    requires batches != []
    ensures var p, r := TimeChain(Front(batches), types), TimeChain(batches, types);
      var past, batch := Slots(p.lines), Slots(Last(batches));
      var events := Deliverable((past + batch)[StartIndex(past + batch, p.since)..], types);
      && Slots(r.lines) == past + batch
      && r.sent == p.sent + events && r.since == Latest(events, p.since)
      && Deliverable(Slots(r.lines), types) == Deliverable(past, types) + Deliverable(batch, types)
  {
    var p := TimeChain(Front(batches), types);
    SlotsAppend(p.lines, Last(batches));
    DeliverableAppend(Slots(p.lines), Slots(Last(batches)), types);
  }

  lemma {:induction false} SameHead<T>(head: seq<T>, a: seq<T>, b: seq<T>)
    ensures head + a == head + b <==> a == b
  {
    if head + a == head + b {
      assert |a| == |b|;
      assert forall k :: 0 <= k < |a| ==> a[k] == (head + a)[|head| + k] == b[k];
    }
  }

  /** What the chain remembers: the register, and the latest timestamp it has sent. */
  lemma {:induction false} ChainRemembers(batches: seq<seq<Line>>, types: set<string>)
    ensures TimeChain(batches, types).lines == Register(batches)
    ensures TimeChain(batches, types).since == Latest(TimeChain(batches, types).sent, None)
  {
    if batches == [] {
    } else {
      ChainRemembers(Front(batches), types);
      TimeChainStep(batches, types);
      var p := TimeChain(Front(batches), types);
      var past, batch := Slots(p.lines), Slots(Last(batches));
      LatestAppend(p.sent, Deliverable((past + batch)[StartIndex(past + batch, p.since)..], types), None);
    }
  }

  /** The next poll of a client that is up to date leaves it so if and only if the poll is exact. */
  lemma {:induction false} NextUpToDateIff(batches: seq<seq<Line>>, types: set<string>)
    requires batches != [] && UpToDate(TimeChain(Front(batches), types), types)
    ensures var past := Slots(Register(Front(batches)));
      UpToDate(TimeChain(batches, types), types) <==>
      PollIsExact(past, Slots(Last(batches)), Latest(Deliverable(past, types), None), types)
  {
    ChainRemembers(Front(batches), types);
    TimeChainStep(batches, types);
    var p := TimeChain(Front(batches), types);
    var past, batch := Slots(p.lines), Slots(Last(batches));
    var events := Deliverable((past + batch)[StartIndex(past + batch, p.since)..], types);
    TimedPollIsExactIff(past, batch, p.since, types);
    SameHead(p.sent, events, Deliverable(batch, types));
  }

  lemma {:induction false} ExactPollsKeepUp(batches: seq<seq<Line>>, types: set<string>)
    requires AllPollsExact(batches, types)
    ensures UpToDate(TimeChain(batches, types), types)
  {
    if batches == [] {
    } else {
      ExactPollsKeepUp(Front(batches), types);
      NextUpToDateIff(batches, types);
    }
  }

  /** The client is up to date now and was after every earlier poll. */
  ghost predicate UpToDateThroughout(batches: seq<seq<Line>>, types: set<string>) {
    UpToDate(TimeChain(batches, types), types) && (batches == [] || UpToDateThroughout(Front(batches), types))
  }

  /** For any batches and any filter, the client is up to date after every poll if and only if every poll
      is exact. */
  lemma {:induction false} UpToDateThroughoutIff(batches: seq<seq<Line>>, types: set<string>)
    ensures UpToDateThroughout(batches, types) <==> AllPollsExact(batches, types)
  {
    if batches == [] {
    } else {
      UpToDateThroughoutIff(Front(batches), types);
      if AllPollsExact(Front(batches), types) {
        ExactPollsKeepUp(Front(batches), types);
        NextUpToDateIff(batches, types);
      }
    }
  }

  // Over a whole chain a skipped record can be made up for by repeating an equal one, so the end result
  // decides about the polls only where the matching records differ from one another.

  predicate AtLeast(since: Option<int>, before: Option<int>) {
    before.None? || (since.Some? && since.value >= before.value)
  }

  lemma {:induction false} LatestGrows(events: seq<Event>, since: Option<int>)
    ensures AtLeast(Latest(events, since), since)
  {
    if events == [] {
    } else {
      LatestGrows(Front(events), since);
    }
  }

  /** The start never moves back. */
  lemma {:induction false} StartAdvances(past: seq<Line>, batch: seq<Line>, before: Option<int>, since: Option<int>)
    requires AtLeast(since, before)
    ensures StartIndex(past, before) <= StartIndex(past + batch, since)
  {
    var n := StartIndex(past + batch, since);
    assert before.Some? && n < |past| ==> (past + batch)[n] == past[n];
  }

  lemma {:induction false} SentComesFromRegister(batches: seq<seq<Line>>, types: set<string>)
    ensures var r := TimeChain(batches, types);
      forall x :: x in r.sent ==> x in Deliverable(Slots(r.lines), types)
  {
    if batches == [] {
    } else {
      SentComesFromRegister(Front(batches), types);
      TimeChainStep(batches, types);
      var p := TimeChain(Front(batches), types);
      var past, batch := Slots(p.lines), Slots(Last(batches));
      TimedPollParts(past, batch, StartIndex(past + batch, p.since), types);
      var n := StartIndex(past + batch, p.since);
      if n <= |past| {
        assert past == past[..n] + past[n..];
        DeliverableAppend(past[..n], past[n..], types);
      }
    }
  }

  lemma {:induction false} LaterSlotsDeliverLess(slots: seq<Line>, m: nat, n: nat, types: set<string>)
    requires m <= n <= |slots|
    ensures forall x :: x in Deliverable(slots[n..], types) ==> x in Deliverable(slots[m..], types)
  {
    assert slots[m..] == slots[m..n] + slots[n..];
    DeliverableAppend(slots[m..n], slots[n..], types);
  }

  /** What a later poll repeats has been sent before. */
  lemma {:induction false} RepeatedWasSent(batches: seq<seq<Line>>, batch: seq<Line>, types: set<string>)
    ensures var r := TimeChain(batches, types);
      var past := Slots(r.lines);
      var n := StartIndex(past + batch, r.since);
      n <= |past| ==> forall x :: x in Deliverable(past[n..], types) ==> x in r.sent
  {
    if batches == [] {
    } else {
      var p, r := TimeChain(Front(batches), types), TimeChain(batches, types);
      TimeChainStep(batches, types);
      var past := Slots(r.lines);
      var m, n := StartIndex(past, p.since), StartIndex(past + batch, r.since);
      LatestGrows(Deliverable(past[m..], types), p.since);
      StartAdvances(past, batch, p.since, r.since);
      if n <= |past| {
        LaterSlotsDeliverLess(past, m, n, types);
      }
    }
  }

  lemma {:induction false} DistinctParts<T>(a: seq<T>, b: seq<T>)
    requires Distinct(a + b)
    ensures Distinct(a) && Distinct(b) && forall x :: x in a ==> x !in b
  {
    assert forall i :: 0 <= i < |a| ==> (a + b)[i] == a[i];
    assert forall i :: 0 <= i < |b| ==> (a + b)[|a| + i] == b[i];
  }

  lemma {:induction false} NothingRepeated<T>(sent: seq<T>, again: seq<T>, added: seq<T>, earlier: seq<T>)
    requires sent + (again + added) == earlier + added && Distinct(earlier)
    requires forall x :: x in again ==> x in sent
    ensures again == [] && sent == earlier
  {
    assert again != [] ==> again[0] in again;
    assert (sent + again) + added == earlier + added;
    SameTail(sent + again, earlier, added);
    DistinctParts(sent, again);
  }

  lemma {:induction false} NothingSkipped<T>(sent: seq<T>, skipped: seq<T>, events: seq<T>, earlier: seq<T>)
    requires sent + events == earlier + (skipped + events) && Distinct(earlier + (skipped + events))
    requires forall x :: x in sent ==> x in earlier
    ensures skipped == [] && sent == earlier
  {
    assert skipped != [] ==> skipped[0] in skipped && skipped[0] in skipped + events;
    assert sent + events == (earlier + skipped) + events;
    SameTail(sent, earlier + skipped, events);
    DistinctParts(earlier, skipped + events);
  }

  /** The last poll of a chain that ends up to date is exact, and so was the state before it. */
  lemma {:induction false} LastPollIsExact(batches: seq<seq<Line>>, types: set<string>)
    requires batches != [] && UpToDate(TimeChain(batches, types), types)
    requires Distinct(Deliverable(Slots(Register(batches)), types))
    ensures var p := TimeChain(Front(batches), types);
      UpToDate(p, types) && Distinct(Deliverable(Slots(Register(Front(batches))), types))
  {
    var p := TimeChain(Front(batches), types);
    var past, batch := Slots(p.lines), Slots(Last(batches));
    var n := StartIndex(past + batch, p.since);
    var earlier, added := Deliverable(past, types), Deliverable(batch, types);
    ChainRemembers(batches, types);
    ChainRemembers(Front(batches), types);
    TimeChainStep(batches, types);
    TimedPollParts(past, batch, n, types);
    DistinctParts(earlier, added);
    if n <= |past| {
      RepeatedWasSent(Front(batches), batch, types);
      NothingRepeated(p.sent, Deliverable(past[n..], types), added, earlier);
    } else {
      SentComesFromRegister(Front(batches), types);
      NothingSkipped(p.sent, Deliverable(batch[..n - |past|], types), Deliverable((past + batch)[n..], types), earlier);
    }
  }

  /** For any batches and any filter, as long as no two matching records are the same: the chain of polls
      delivers the sequence the line-index cursor does if and only if every poll is exact. */
  lemma {:induction false} FilteredChainIsExactIff(batches: seq<seq<Line>>, types: set<string>)
    requires Distinct(Deliverable(Slots(Register(batches)), types))
    ensures UpToDate(TimeChain(batches, types), types) <==> AllPollsExact(batches, types)
  {
    if batches == [] {
    } else {
      if AllPollsExact(batches, types) {
        ExactPollsKeepUp(batches, types);
      }
      if UpToDate(TimeChain(batches, types), types) {
        LastPollIsExact(batches, types);
        FilteredChainIsExactIff(Front(batches), types);
        NextUpToDateIff(batches, types);
      }
    }
  }

  // Where polls are not exact

  lemma {:induction false} SlotsOfRecords(lines: seq<Line>)
    requires forall i :: 0 <= i < |lines| ==> lines[i].Record?
    ensures Slots(lines) == lines
  {
    if lines == [] {
    } else {
      SlotsOfRecords(Front(lines));
      assert lines == Front(lines) + [Last(lines)];
    }
  }

  /** One more poll of a register of records, when its start is known. */
  lemma {:induction false} NextPoll(batches: seq<seq<Line>>, batch: seq<Line>, n: nat, events: seq<Event>,
                                    types: set<string>)
    requires var lines, since := TimeChain(batches, types).lines + batch, TimeChain(batches, types).since;
      && (forall i :: 0 <= i < |lines| ==> lines[i].Record?)
      && (since.None? ==> n == 0) && (since.Some? ==> IsStart(lines, since.value, n))
      && n <= |lines| && events == Deliverable(lines[n..], types)
    ensures var p := TimeChain(batches, types);
      TimeChain(batches + [batch], types) == Wrapped(p.lines + batch, p.sent + events, Latest(events, p.since))
  {
    var p := TimeChain(batches, types);
    assert Front(batches + [batch]) == batches && Last(batches + [batch]) == batch;
    SlotsOfRecords(p.lines + batch);
    if p.since.Some? {
      StartIsUnique(p.lines + batch, p.since.value, n, StartIndex(p.lines + batch, p.since));
    }
  }

  lemma {:induction false} DeliverPair(e: Event, f: Event, types: set<string>)
    ensures Deliverable([Record(e), Record(f)], types) ==
            (if Matches(e, types) then [e] else []) + (if Matches(f, types) then [f] else [])
  {
    DeliverSingle(e, types);
    DeliverOne([Record(e)], Record(f), types);
    assert [Record(e)] + [Record(f)] == [Record(e), Record(f)];
  }

  lemma {:induction false} DeliverSingle(e: Event, types: set<string>)
    ensures Deliverable([Record(e)], types) == if Matches(e, types) then [e] else []
  {
    assert Front([Record(e)]) == [];
  }

  lemma {:induction false} LatestOne(e: Event, since: Option<int>)
    ensures Latest([], since) == since
    ensures Latest([e], since) == if e.timestamp.Some?
        && (since.None? || e.timestamp.value > since.value) then e.timestamp else since
  {
    assert Front([e]) == [];
  }

  lemma {:induction false} FilteredFirstPoll(noise: Event, f: Event, types: set<string>)
    requires !Matches(noise, types) && Matches(f, types) && f.timestamp.Some?
    ensures TimeChain([[Record(noise), Record(f)]], types) == Wrapped([Record(noise), Record(f)], [f], f.timestamp)
  {
    var past := [Record(noise), Record(f)];
    DeliverPair(noise, f, types);
    LatestOne(f, None);
    assert [] + past == past && past[0..] == past && [] + [past] == [past] && [] + [f] == [f];
    NextPoll([], past, 0, [f], types);
  }

  lemma {:induction false} FilteredSecondBatch(noise: Event, f: Event, g: Event, types: set<string>)
    requires !Matches(noise, types) && Matches(f, types) && Matches(g, types)
    ensures var all := [Record(noise), Record(f)] + [Record(g)];
      all[0..] == all && Deliverable(all, types) == [f] + [g]
  {
    DeliverPair(noise, f, types);
    DeliverOne([Record(noise), Record(f)], Record(g), types);
  }

  /** With a filter a record can be delivered twice: since moves only with delivered records, so a newer
      record the filter drops holds the start in front of f. Both records are dated, and g leads its batch
      with a timestamp newer than everything before it. */
  lemma {:induction false} FilteredRedelivers(noise: Event, f: Event, g: Event, types: set<string>)
    requires !Matches(noise, types) && Matches(f, types) && Matches(g, types)
    requires Later(g, noise) && Later(noise, f)
    ensures LeadsNewer([noise, f], [g])
    ensures TimeChain([[Record(noise), Record(f)]] + [[Record(g)]], types).sent == [f] + ([f] + [g])
  {
    FilteredFirstPoll(noise, f, types);
    FilteredSecondBatch(noise, f, g, types);
    NextPoll([[Record(noise), Record(f)]], [Record(g)], 0, [f] + [g], types);
  }

  /** A record without a timestamp leaves since where it is, and is delivered again. */
  lemma {:induction false} UndatedRedelivers(e: Event)
    requires e.timestamp.None?
    ensures TimeChain([[Record(e)]] + [[]], {}).sent == [e, e]
  {
    var one := [Record(e)];
    DeliverSingle(e, {});
    LatestOne(e, None);
    assert one[0..] == one && [] + one == one && one + [] == one && [] + [e] == [e] && [] + [one] == [one];
    NextPoll([], one, 0, [e], {});
    NextPoll([one], [], 0, [e], {});
  }

  lemma {:induction false} SkippedPoll(a: Event, x: Event, types: set<string>)
    requires Matches(a, types) && Later(a, x)
    ensures TimeChain([[Record(a)]] + [[Record(x)]], types) == Wrapped([Record(a), Record(x)], [a], a.timestamp)
  {
    FirstPoll(a, types);
    var lines := [Record(a)] + [Record(x)];
    LatestOne(a, a.timestamp);
    assert lines[2..] == [] && [a] + [] == [a];
    NextPoll([[Record(a)]], [Record(x)], 2, [], types);
  }

  lemma {:induction false} RepeatingPoll(a: Event, x: Event, noise: Event, types: set<string>)
    requires Matches(a, types) && Matches(x, types) && !Matches(noise, types)
    requires Later(a, x) && Later(noise, a)
    ensures TimeChain([[Record(a)]] + [[Record(x)]] + [[Record(noise), Record(x)]], types) ==
            Wrapped([Record(a), Record(x)] + [Record(noise), Record(x)], [a] + [x], a.timestamp)
  {
    var past, batch := [Record(a), Record(x)], [Record(noise), Record(x)];
    SkippedPoll(a, x, types);
    DeliverPair(noise, x, types);
    LatestOne(x, a.timestamp);
    assert (past + batch)[2..] == batch;
    NextPoll([[Record(a)]] + [[Record(x)]], batch, 2, [x], types);
  }

  lemma {:induction false} RegisterOfThree(a: Event, x: Event, noise: Event, types: set<string>)
    requires Matches(a, types) && Matches(x, types) && !Matches(noise, types)
    ensures var lines := [Record(a), Record(x)] + [Record(noise), Record(x)];
      && lines + [] == lines && lines[2..] == [Record(noise), Record(x)]
      && Deliverable(lines, types) == [a] + [x] + [x] && Deliverable(lines[2..], types) == [x]
  {
    DeliverPair(a, x, types);
    DeliverPair(noise, x, types);
    DeliverableAppend([Record(a), Record(x)], [Record(noise), Record(x)], types);
  }

  /** Why the records must differ for the end result to tell: x is skipped, and made up for later by
      repeating an equal record. */
  lemma {:induction false} SkipCanBeMadeUpFor(a: Event, x: Event, noise: Event, types: set<string>)
    requires Matches(a, types) && Matches(x, types) && !Matches(noise, types)
    requires Later(a, x) && Later(noise, a)
    ensures TimeChain([[Record(a)]] + [[Record(x)]], types).sent == [a]
    ensures var r := TimeChain([[Record(a)]] + [[Record(x)]] + [[Record(noise), Record(x)]] + [[]], types);
      && r.lines == [Record(a), Record(x)] + [Record(noise), Record(x)]
      && r.sent == [a] + [x] + [x] == Deliverable(r.lines, types)
  {
    SkippedPoll(a, x, types);
    RepeatingPoll(a, x, noise, types);
    RegisterOfThree(a, x, noise, types);
    NextPoll([[Record(a)]] + [[Record(x)]] + [[Record(noise), Record(x)]], [], 2, [x], types);
  }

  // Filtered streams: strictly increasing timestamps are enough.

  ghost predicate StrictlyIncreasing(slots: seq<Line>) {
    forall i, j :: 0 <= i < j < |slots| && slots[i].Record? && slots[j].Record? ==>
        Later(slots[j].event, slots[i].event)
  }

  /** Whatever the filter, on a register with strictly increasing timestamps a timed poll neither repeats
      nor skips. */
  lemma {:induction false} TimedPollFiltered(past: seq<Line>, batch: seq<Line>, since: Option<int>, types: set<string>)
    requires Dated(past + batch) && StrictlyIncreasing(past + batch)
    requires DatedEvents(Deliverable(past, types)) && since == Latest(Deliverable(past, types), None)
    ensures PollIsExact(past, batch, since, types)
  {
    var all, n := past + batch, StartIndex(past + batch, since);
    LatestIsMax(Deliverable(past, types), None);
    assert forall i :: 0 <= i < |past| ==> all[i] == past[i];
    if since.None? {
      NothingDeliveredIff(past, types);
    } else {
      var k :| 0 <= k < |Deliverable(past, types)| && Deliverable(past, types)[k].timestamp == since;
      var m := DeliverableSource(past, types, k);
      assert m < n;
      assert forall i :: m < i < n ==> !all[i].Record?;
      assert forall i :: 0 <= i < n - |past| ==> batch[i] == all[|past| + i];
      forall i | n <= i < |past| ensures !Delivers(past[i], types) {
        if Delivers(past[i], types) {
          DeliverableTarget(past, types, i);
        }
      }
    }
  }

  lemma {:induction false} StrictPollsAreExact(batches: seq<seq<Line>>, types: set<string>)
    requires Dated(Slots(Register(batches))) && StrictlyIncreasing(Slots(Register(batches)))
    ensures AllPollsExact(batches, types)
  {
    if batches == [] {
    } else {
      SlotsAppend(Register(Front(batches)), Last(batches));
      var past, added := Slots(Register(Front(batches))), Slots(Last(batches));
      var all := Slots(Register(batches));
      assert forall i :: 0 <= i < |past| ==> past[i] == all[i];
      StrictPollsAreExact(Front(batches), types);
      DatedDeliverable(past, types);
      TimedPollFiltered(past, added, Latest(Deliverable(past, types), None), types);
    }
  }

  /** So with strictly increasing timestamps, chaining the timestamp wrapper over any polls and any
      filter delivers the same sequence as the line-index cursor. */
  lemma {:induction false} TimeChainStrict(batches: seq<seq<Line>>, types: set<string>)
    requires Dated(Slots(Register(batches))) && StrictlyIncreasing(Slots(Register(batches)))
    ensures TimeChain(batches, types).sent == Deliverable(Slots(Register(batches)), types)
  {
    StrictPollsAreExact(batches, types);
    ExactPollsKeepUp(batches, types);
    ChainRemembers(batches, types);
  }
}
