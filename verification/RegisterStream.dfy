/** The positional-cursor reader behind /api/register-stream (dashboard/api_register_stream.py). */
module RegisterStream {
  import opened Common

  /** A parsed register record. A missing or empty timestamp is None. */
  datatype Event = Event(timestamp: Option<int>, kind: Option<string>, body: string)

  datatype Line = Blank | Malformed | Record(event: Event)

  /** What one attempt to read the register file finds. */
  datatype File = Missing | Unreadable | Readable(lines: seq<Line>)

  /** The record slots of a file: its non-blank lines, in order. */
  function Slots(lines: seq<Line>): (slots: seq<Line>)
    ensures |slots| <= |lines|
  {
    if lines == [] then []
    else if Last(lines).Blank? then Slots(Front(lines))
    else Slots(Front(lines)) + [Last(lines)]
  }

  /** An empty filter set admits every record, as `if event_types and ...` does. */
  predicate Matches(e: Event, types: set<string>) {
    types == {} || (e.kind.Some? && e.kind.value in types)
  }

  predicate Delivers(slot: Line, types: set<string>) {
    slot.Record? && Matches(slot.event, types)
  }

  /** The events a client should receive for a run of slots. */
  function Deliverable(slots: seq<Line>, types: set<string>): (events: seq<Event>) {
    if slots == [] then []
    else Deliverable(Front(slots), types) +
         (if Delivers(Last(slots), types) then [Last(slots).event] else [])
  }

  predicate Newer(slot: Line, since: int) {
    slot.Record? && slot.event.timestamp.Some? && slot.event.timestamp.value > since
  }

  /** n is the length of the longest prefix of slots with no record newer than since. */
  ghost predicate IsStart(slots: seq<Line>, since: int, n: nat) {
    && n <= |slots|
    && (forall i :: 0 <= i < n ==> !Newer(slots[i], since))
    && (n < |slots| ==> Newer(slots[n], since))
  }

  function StartIndex(slots: seq<Line>, since: Option<int>): (n: nat)
    ensures n <= |slots|
    ensures since.None? ==> n == 0
    ensures since.Some? ==> IsStart(slots, since.value, n)
  {
    if since.None? || slots == [] || Newer(slots[0], since.value) then 0
    else 1 + StartIndex(slots[1..], since)
  }

  // What slots and deliverable events are, said without the functions above

  ghost function NotBlank(): Line -> bool {
    (line: Line) => !line.Blank?
  }

  /** The records of the given kinds; every record when no kind is given. */
  ghost function OfKind(types: set<string>): Line -> bool {
    (line: Line) => line.Record? && (types == {} || (line.event.kind.Some? && line.event.kind.value in types))
  }

  function EventIn(line: Line): Event {
    if line.Record? then line.event else Event(None, None, "")
  }

  /** The slots are the non-blank lines, in order. */
  lemma {:induction false} SlotsAre(lines: seq<Line>)
    ensures Slots(lines) == Filter(lines, NotBlank(), Itself)
  {
    if lines == [] {
    } else {
      SlotsAre(Front(lines));
    }
  }

  /** The events delivered for a run of slots are those of its records of the given kinds, in order. */
  lemma {:induction false} DeliverableIs(slots: seq<Line>, types: set<string>)
    ensures Deliverable(slots, types) == Filter(slots, OfKind(types), EventIn)
  {
    if slots == [] {
    } else {
      DeliverableIs(Front(slots), types);
      DeliversIff(Last(slots), types);
    }
  }

  lemma {:induction false} DeliversIff(slot: Line, types: set<string>)
    ensures Delivers(slot, types) <==> OfKind(types)(slot)
  {
  }

  lemma {:induction false} SlotsAppend(a: seq<Line>, b: seq<Line>)
    ensures Slots(a + b) == Slots(a) + Slots(b)
  {
    if b == [] {
      assert a + b == a;
    } else {
      SlotsAppend(a, Front(b));
      assert Front(a + b) == a + Front(b) && Last(a + b) == Last(b);
    }
  }

  lemma {:induction false} SlotsPrefix(lines: seq<Line>, k: nat)
    requires k <= |lines|
    ensures Slots(lines[..k]) <= Slots(lines)
  {
    SlotsAppend(lines[..k], lines[k..]);
    assert lines[..k] + lines[k..] == lines;
  }

  lemma {:induction false} DeliverableAppend(a: seq<Line>, b: seq<Line>, types: set<string>)
    ensures Deliverable(a + b, types) == Deliverable(a, types) + Deliverable(b, types)
  {
    if b == [] {
      assert a + b == a;
    } else {
      DeliverableAppend(a, Front(b), types);
      assert Front(a + b) == a + Front(b) && Last(a + b) == Last(b);
    }
  }

  /** Every delivered event sits in a slot, and dated slots deliver dated events. */
  lemma {:induction false} DeliverableSource(slots: seq<Line>, types: set<string>, k: nat) returns (i: nat)
    requires k < |Deliverable(slots, types)|
    ensures i < |slots| && Delivers(slots[i], types) && slots[i].event == Deliverable(slots, types)[k]
  {
    if k < |Deliverable(Front(slots), types)| {
      i := DeliverableSource(Front(slots), types, k);
    } else {
      i := |slots| - 1;
    }
  }

  lemma {:induction false} DeliverableTarget(slots: seq<Line>, types: set<string>, i: nat)
    requires i < |slots| && Delivers(slots[i], types)
    ensures slots[i].event in Deliverable(slots, types)
  {
    if i < |slots| - 1 {
      DeliverableTarget(Front(slots), types, i);
    }
  }

  // ------------------------------------------------------------------------------------------
  // The two readers
  // ------------------------------------------------------------------------------------------

  /** `_resolve_start_index`: the loop counts slots until it meets a record newer than since. */
  method ResolveStartIndex(file: File, since: Option<int>) returns (index: nat)
    ensures !file.Readable? ==> index == 0
    ensures file.Readable? ==> index == StartIndex(Slots(file.lines), since)
  {
    if since.None? || !file.Readable? {
      return 0;
    }
    var lines := file.lines;
    var k := 0;
    index := 0;
    while k < |lines|
      invariant k <= |lines|
      invariant index == |Slots(lines[..k])|
      invariant forall i :: 0 <= i < index ==> !Newer(Slots(lines[..k])[i], since.value)
    {
      PrefixStep(lines, k);
      SlotsPrefix(lines, k + 1);
      if Newer(lines[k], since.value) {
        assert Slots(lines)[index] == lines[k];
        StartIsUnique(Slots(lines), since.value, index, StartIndex(Slots(lines), since));
        return;
      }
      if !lines[k].Blank? {
        index := index + 1;
      }
      k := k + 1;
    }
    assert lines[..k] == lines;
    StartIsUnique(Slots(lines), since.value, index, StartIndex(Slots(lines), since));
  }

  lemma {:induction false} StartIsUnique(slots: seq<Line>, since: int, m: nat, n: nat)
    requires IsStart(slots, since, m) && IsStart(slots, since, n)
    ensures m == n
  {
  }

  /** The slots past the cursor; none when the file has shrunk below it. */
  function Unread(lines: seq<Line>, cursor: nat): seq<Line> {
    if cursor <= |Slots(lines)| then Slots(lines)[cursor..] else []
  }

  /** What one poll hands over, and the cursor it leaves. */
  function PollOutcome(file: File, cursor: nat, types: set<string>): (r: (seq<Event>, nat)) {
    if file.Readable? then
      (Deliverable(Unread(file.lines, cursor), types), cursor + |Unread(file.lines, cursor)|)
    else
      ([], cursor)
  }

  /** One more line: a record slot past the cursor is one more unread slot. */
  lemma {:induction false} UnreadStep(done: seq<Line>, line: Line, cursor: nat)
    ensures |Slots(done + [line])| == |Slots(done)| + (if line.Blank? then 0 else 1)
    ensures Unread(done + [line], cursor) ==
            Unread(done, cursor) + (if !line.Blank? && |Slots(done)| >= cursor then [line] else [])
  {
  }

  lemma {:induction false} DeliverOne(slots: seq<Line>, slot: Line, types: set<string>)
    ensures Deliverable(slots + [slot], types) ==
            Deliverable(slots, types) + (if Delivers(slot, types) then [slot.event] else [])
    ensures Deliverable(slots + [], types) == Deliverable(slots, types)
  {
    assert Front(slots + [slot]) == slots && slots + [] == slots;
  }

  /** What the loop variables say about the lines done so far. */
  ghost predicate Polled(done: seq<Line>, cursor: nat, types: set<string>, current: nat, newIndex: nat,
                         events: seq<Event>) {
    && current == |Slots(done)|
    && newIndex == Max(cursor, current)
    && events == Deliverable(Unread(done, cursor), types)
  }

  lemma {:induction false} PollStep(done: seq<Line>, line: Line, cursor: nat, types: set<string>, current: nat,
                                    newIndex: nat, events: seq<Event>)
    requires Polled(done, cursor, types, current, newIndex, events)
    ensures if line.Blank? then Polled(done + [line], cursor, types, current, newIndex, events)
            else if current + 1 <= cursor then Polled(done + [line], cursor, types, current + 1, newIndex, events)
            else Polled(done + [line], cursor, types, current + 1, current + 1,
                        if Delivers(line, types) then events + [line.event] else events)
  {
    UnreadStep(done, line, cursor);
    DeliverOne(Unread(done, cursor), line, types);
  }

  lemma {:induction false} PollNone(cursor: nat, types: set<string>)
    ensures Polled([], cursor, types, 0, cursor, [])
  {
  }

  lemma {:induction false} PollDone(lines: seq<Line>, cursor: nat, types: set<string>, current: nat, newIndex: nat,
                                    events: seq<Event>)
    requires Polled(lines, cursor, types, current, newIndex, events)
    ensures (events, newIndex) == PollOutcome(Readable(lines), cursor, types)
  {
  }

  /** `_read_new_events_after`: consume every slot past lastIndex, deliver the matching ones. */
  method ReadNewEventsAfter(file: File, lastIndex: nat, types: set<string>)
    returns (events: seq<Event>, newIndex: nat)
    ensures (events, newIndex) == PollOutcome(file, lastIndex, types)
    ensures file.Readable? && lastIndex <= |Slots(file.lines)| ==>
              events == Filter(Slots(file.lines)[lastIndex..], OfKind(types), EventIn)
  {
    events, newIndex := [], lastIndex;
    if !file.Readable? {
      return;
    }
    var lines := file.lines;
    var current, k := 0, 0;
    ghost var done := [];
    PollNone(lastIndex, types);
    while k < |lines|
      invariant k <= |lines| && done == lines[..k]
      invariant Polled(done, lastIndex, types, current, newIndex, events)
    {
      PollStep(done, lines[k], lastIndex, types, current, newIndex, events);
      if !lines[k].Blank? {
        current := current + 1;
        if current > lastIndex {
          newIndex := current;
          if lines[k].Record? && Matches(lines[k].event, types) {
            events := events + [lines[k].event];
          }
        }
      }
      assert done + [lines[k]] == lines[..k + 1];
      done := done + [lines[k]];
      k := k + 1;
    }
    assert done == lines;
    PollDone(lines, lastIndex, types, current, newIndex, events);
    DeliverableIs(Unread(lines, lastIndex), types);
  }

  // ------------------------------------------------------------------------------------------
  // Streaming sessions
  // ------------------------------------------------------------------------------------------

  /** `handle_register_stream`: the cursor is resolved once, then every poll advances it. */
  class StreamSession {
    const types: set<string>
    var lastIndex: nat
    var sent: seq<Event>

    constructor (file: File, since: Option<int>, types: set<string>)
      ensures this.types == types && sent == []
      ensures lastIndex == if file.Readable? then StartIndex(Slots(file.lines), since) else 0
    {
      this.types := types;
      sent := [];
      var start := ResolveStartIndex(file, since);
      lastIndex := start;
    }

    /** One turn of the loop: the batch is written to the client in order. */
    method Poll(file: File)
      modifies this
      ensures sent == old(sent) + PollOutcome(file, old(lastIndex), types).0
      ensures lastIndex == PollOutcome(file, old(lastIndex), types).1
    {
      var events, newIndex := ReadNewEventsAfter(file, lastIndex, types);
      lastIndex := newIndex;
      var i := 0;
      ghost var before := sent;
      while i < |events|
        invariant i <= |events|
        invariant sent == before + events[..i]
        invariant lastIndex == newIndex
      {
        sent := sent + [events[i]];
        i := i + 1;
      }
    }
  }

  /** What can happen between the writer of the register and one streaming client. A torn line is
      one the writer has started: it is read as Malformed until FinishTorn completes it. */
  datatype Step =
    | Append(line: Line)
    | FinishTorn(line: Line)
    | Poll
    | FailedPoll

  /** firstSeen records each slot as it stood when a poll first consumed it. */
  datatype Session = Session(lines: seq<Line>, cursor: nat, sent: seq<Event>, firstSeen: seq<Line>)

  predicate Torn(lines: seq<Line>) {
    lines != [] && Last(lines).Malformed?
  }

  function Next(s: Session, step: Step, types: set<string>): Session {
    match step
    case Append(line) => s.(lines := s.lines + [line])
    case FinishTorn(line) =>
      if Torn(s.lines) && !line.Blank? then s.(lines := Front(s.lines) + [line]) else s
    case Poll =>
      var (events, cursor) := PollOutcome(Readable(s.lines), s.cursor, types);
      Session(s.lines, cursor, s.sent + events, s.firstSeen + Unread(s.lines, s.cursor))
    case FailedPoll =>
      var (events, cursor) := PollOutcome(Missing, s.cursor, types);
      s.(cursor := cursor, sent := s.sent + events)
  }

  function Run(s: Session, steps: seq<Step>, types: set<string>): Session {
    if steps == [] then s else Next(Run(s, Front(steps), types), Last(steps), types)
  }

  /** A session just opened: the cursor is at most the number of slots, and the slots before it
      count as seen. */
  ghost predicate Opened(s: Session) {
    && s.cursor <= |Slots(s.lines)|
    && s.sent == []
    && s.firstSeen == Slots(s.lines)[..s.cursor]
  }

  ghost predicate WholeLines(steps: seq<Step>) {
    forall i :: 0 <= i < |steps| ==> !steps[i].FinishTorn?
  }

  lemma {:induction false} FinishKeepsSlots(lines: seq<Line>, line: Line)
    requires Torn(lines) && !line.Blank?
    ensures |Slots(Front(lines) + [line])| == |Slots(lines)|
    ensures Front(Slots(Front(lines) + [line])) == Front(Slots(lines))
  {
  }

  /** The bookkeeping a session started at slot start keeps up. */
  ghost predicate Consistent(r: Session, start: nat, types: set<string>) {
    && start <= r.cursor == |r.firstSeen| <= |Slots(r.lines)|
    && r.sent == Deliverable(r.firstSeen[start..], types)
  }

  lemma {:induction false} PollKeepsConsistent(p: Session, start: nat, types: set<string>)
    requires Consistent(p, start, types)
    ensures Consistent(Next(p, Poll, types), start, types)
  {
    var unread := Unread(p.lines, p.cursor);
    DeliverableAppend(p.firstSeen[start..], unread, types);
    assert (p.firstSeen + unread)[start..] == p.firstSeen[start..] + unread;
  }

  lemma {:induction false} NextKeepsConsistent(p: Session, step: Step, start: nat, types: set<string>)
    requires Consistent(p, start, types)
    ensures Consistent(Next(p, step, types), start, types)
  {
    match step
    case Append(line) => SlotsAppend(p.lines, [line]);
    case FinishTorn(line) => if Torn(p.lines) && !line.Blank? { FinishKeepsSlots(p.lines, line); }
    case Poll => PollKeepsConsistent(p, start, types);
    case FailedPoll => assert p.sent + [] == p.sent;
  }

  /** Every run, torn writes included: what was sent is exactly what the consumed slots held when
      they were first read, each slot once and in order; the cursor is the number of consumed
      slots and never exceeds the register. */
  lemma {:induction false} DeliversFirstSight(s: Session, steps: seq<Step>, types: set<string>)
    requires Opened(s)
    ensures Consistent(Run(s, steps, types), s.cursor, types)
  {
    if steps == [] {
      assert s.firstSeen[s.cursor..] == [];
    } else {
      DeliversFirstSight(s, Front(steps), types);
      NextKeepsConsistent(Run(s, Front(steps), types), Last(steps), s.cursor, types);
    }
  }

  /** Once a slot has been consumed its fate is sealed: no later step revises firstSeen, and the
      cursor never moves back. */
  lemma {:induction false} CursorMonotone(s: Session, steps: seq<Step>, k: nat, types: set<string>)
    requires k <= |steps|
    ensures Run(s, steps[..k], types).cursor <= Run(s, steps, types).cursor
    ensures Run(s, steps[..k], types).sent <= Run(s, steps, types).sent
    ensures Run(s, steps[..k], types).firstSeen <= Run(s, steps, types).firstSeen
  {
    if k == |steps| {
      assert steps[..k] == steps;
    } else {
      CursorMonotone(s, Front(steps), k, types);
      assert Front(steps)[..k] == steps[..k];
    }
  }

  /** Each slot was first seen as it stands. */
  ghost predicate SeenWhole(r: Session) {
    r.cursor <= |Slots(r.lines)| && r.firstSeen == Slots(r.lines)[..r.cursor]
  }

  lemma {:induction false} StepSeesWhole(p: Session, step: Step, types: set<string>)
    requires SeenWhole(p) && !step.FinishTorn?
    ensures SeenWhole(Next(p, step, types))
  {
  }

  /** With whole-line appends the first sight of a slot is its final content. */
  lemma {:induction false} WholeLinesAreSeenWhole(s: Session, steps: seq<Step>, types: set<string>)
    requires Opened(s) && WholeLines(steps)
    ensures SeenWhole(Run(s, steps, types))
  {
    if steps == [] {
    } else {
      WholeLinesAreSeenWhole(s, Front(steps), types);
      StepSeesWhole(Run(s, Front(steps), types), Last(steps), types);
    }
  }

  /** Exactly-once streaming: for every interleaving of whole-line appends, polls and failed polls,
      the client has received the matching records of the register between the start slot and the
      cursor, in order and each once; a successful poll leaves nothing behind. */
  lemma {:induction false} ExactlyOnce(s: Session, steps: seq<Step>, types: set<string>)
    requires Opened(s) && WholeLines(steps)
    ensures var r := Run(s, steps, types);
      && s.cursor <= r.cursor <= |Slots(r.lines)|
      && r.sent == Deliverable(Slots(r.lines)[s.cursor..r.cursor], types)
      && r.sent == Filter(Slots(r.lines)[s.cursor..r.cursor], OfKind(types), EventIn)
      && (steps != [] && Last(steps).Poll? ==> r.cursor == |Slots(r.lines)|)
  {
    DeliversFirstSight(s, steps, types);
    WholeLinesAreSeenWhole(s, steps, types);
    var r := Run(s, steps, types);
    assert r.firstSeen[s.cursor..] == Slots(r.lines)[s.cursor..r.cursor];
    DeliverableIs(Slots(r.lines)[s.cursor..r.cursor], types);
    if steps != [] {
      DeliversFirstSight(s, Front(steps), types);
    }
  }

  /** A session opened on a readable register with since. */
  function OpenedAt(lines: seq<Line>, since: Option<int>): Session {
    var start := StartIndex(Slots(lines), since);
    Session(lines, start, [], Slots(lines)[..start])
  }

  /** Every newer record of a register that has grown stands at or behind the start. */
  lemma {:induction false} NewerIsBehindStart(slots: seq<Line>, grown: seq<Line>, since: int)
    requires slots <= grown
    ensures forall i :: 0 <= i < |grown| && Newer(grown[i], since) ==> StartIndex(slots, Some(since)) <= i
  {
    assert forall i :: 0 <= i < |slots| ==> grown[i] == slots[i];
  }

  lemma {:induction false} DeliveredFrom(slots: seq<Line>, start: nat, types: set<string>)
    requires start <= |slots|
    ensures forall i :: start <= i < |slots| && OfKind(types)(slots[i]) ==>
              EventIn(slots[i]) in Deliverable(slots[start..], types)
  {
    forall i | start <= i < |slots| && OfKind(types)(slots[i])
      ensures EventIn(slots[i]) in Deliverable(slots[start..], types)
    {
      DeliversIff(slots[i], types);
      DeliverableTarget(slots[start..], types, i - start);
    }
  }

  /** A record with a timestamp above since. */
  ghost predicate DatedAfter(line: Line, since: int) {
    line.Record? && match line.event.timestamp case None => false case Some(t) => since < t
  }

  /** End to end: after any whole-line run that ends in a poll, a client that opened the stream with
      since holds every newer record of the kinds it asked for, wherever it stands in the register. */
  lemma {:induction false} EveryNewerRecordArrives(lines: seq<Line>, since: int, steps: seq<Step>, types: set<string>)
    requires WholeLines(steps) && steps != [] && Last(steps).Poll?
    ensures var r := Run(OpenedAt(lines, Some(since)), steps, types);
      && StartIndex(Slots(lines), Some(since)) <= |Slots(r.lines)|
      && r.sent == Filter(Slots(r.lines)[StartIndex(Slots(lines), Some(since))..], OfKind(types), EventIn)
      && forall i :: 0 <= i < |Slots(r.lines)| && DatedAfter(Slots(r.lines)[i], since)
                     && OfKind(types)(Slots(r.lines)[i])
           ==> EventIn(Slots(r.lines)[i]) in r.sent
  {
    var s := OpenedAt(lines, Some(since));
    var r := Run(s, steps, types);
    ExactlyOnce(s, steps, types);
    SlotsGrow(s, steps, types);
    assert Slots(r.lines)[s.cursor..r.cursor] == Slots(r.lines)[s.cursor..];
    NewerIsBehindStart(Slots(lines), Slots(r.lines), since);
    DeliveredFrom(Slots(r.lines), s.cursor, types);
    DeliverableIs(Slots(r.lines)[s.cursor..], types);
  }

  /** With a filter, over every whole-line run: whatever is sent is of a kind asked for, and every record of
      such a kind between the start slot and the cursor is sent. */
  lemma {:induction false} FilterIsKept(s: Session, steps: seq<Step>, types: set<string>)
    requires Opened(s) && WholeLines(steps) && types != {}
    ensures var r := Run(s, steps, types);
      && (forall e :: e in r.sent ==> e.kind.Some? && e.kind.value in types)
      && s.cursor <= r.cursor <= |Slots(r.lines)|
      && forall i :: s.cursor <= i < r.cursor && Slots(r.lines)[i].Record? && Slots(r.lines)[i].event.kind.Some?
                     && Slots(r.lines)[i].event.kind.value in types
           ==> Slots(r.lines)[i].event in r.sent
  {
    ExactlyOnce(s, steps, types);
    var r := Run(s, steps, types);
    var slots := Slots(r.lines)[s.cursor..r.cursor];
    FilterMembers(slots, OfKind(types), EventIn);
    forall i | s.cursor <= i < r.cursor && Slots(r.lines)[i].Record? && Slots(r.lines)[i].event.kind.Some?
               && Slots(r.lines)[i].event.kind.value in types
      ensures Slots(r.lines)[i].event in r.sent
    {
      var slot := slots[i - s.cursor];
      assert slot == Slots(r.lines)[i];
      assert OfKind(types)(slot) && EventIn(slot) == slot.event;
    }
  }

  /** Whole-line runs only add slots. */
  lemma {:induction false} SlotsGrow(s: Session, steps: seq<Step>, types: set<string>)
    requires WholeLines(steps)
    ensures Slots(s.lines) <= Slots(Run(s, steps, types).lines)
  {
    if steps == [] {
    } else {
      SlotsGrow(s, Front(steps), types);
      if Last(steps).Append? {
        SlotsAppend(Run(s, Front(steps), types).lines, [Last(steps).line]);
      }
    }
  }

  // What a torn write costs

  /** A slot is lost: it holds a record the client wants, but was served as something else. */
  ghost predicate Lost(r: Session, k: nat, types: set<string>) {
    && k < |r.firstSeen| && k < |Slots(r.lines)|
    && r.firstSeen[k] != Slots(r.lines)[k] && Delivers(Slots(r.lines)[k], types)
  }

  ghost predicate Loses(r: Session, start: nat, types: set<string>) {
    exists k: nat :: start <= k && Lost(r, k, types)
  }

  /** The step completes, with a record the client wants, a slot consumed in this session. */
  ghost predicate Harmful(p: Session, step: Step, start: nat, types: set<string>) {
    step.FinishTorn? && Torn(p.lines) && start < p.cursor == |Slots(p.lines)| && Delivers(step.line, types)
  }

  /** Some step of the run is harmful where it is taken. */
  ghost predicate Harms(s: Session, steps: seq<Step>, types: set<string>) {
    exists k :: 0 <= k < |steps| && Harmful(Run(s, steps[..k], types), steps[k], s.cursor, types)
  }

  /** A slot was first seen as it stands, or when it was torn. */
  ghost predicate SeenOrTorn(r: Session) {
    && |r.firstSeen| == r.cursor <= |Slots(r.lines)|
    && forall k :: 0 <= k < r.cursor ==> r.firstSeen[k] == Slots(r.lines)[k] || r.firstSeen[k].Malformed?
  }

  lemma {:induction false} HarmsStep(s: Session, steps: seq<Step>, types: set<string>)
    requires steps != []
    ensures Harms(s, steps, types) <==>
            Harms(s, Front(steps), types) || Harmful(Run(s, Front(steps), types), Last(steps), s.cursor, types)
  {
    var n := |steps| - 1;
    assert forall k :: 0 <= k <= n ==> Front(steps)[..k] == steps[..k];
    if k :| 0 <= k < |steps| && Harmful(Run(s, steps[..k], types), steps[k], s.cursor, types) {
      assert k < n ==> Harmful(Run(s, Front(steps)[..k], types), Front(steps)[k], s.cursor, types);
    }
    if k :| 0 <= k < n && Harmful(Run(s, Front(steps)[..k], types), Front(steps)[k], s.cursor, types) {
      assert Harmful(Run(s, steps[..k], types), steps[k], s.cursor, types);
    }
    if Harmful(Run(s, Front(steps), types), Last(steps), s.cursor, types) {
      assert steps[..n] == Front(steps) && steps[n] == Last(steps);
    }
  }

  /** Completing the torn slot changes what the last slot holds, and nothing else. */
  lemma {:induction false} FinishIsLast(p: Session, line: Line, types: set<string>)
    requires Torn(p.lines) && !line.Blank?
    ensures var before, after := Slots(p.lines), Slots(Next(p, FinishTorn(line), types).lines);
      && before != [] && |after| == |before| && Last(before).Malformed? && Last(after) == line
      && forall k :: 0 <= k < |before| - 1 ==> after[k] == before[k]
  {
    FinishKeepsSlots(p.lines, line);
    assert Last(Front(p.lines) + [line]) == line && Front(Front(p.lines) + [line]) == Front(p.lines);
    var before, after := Slots(p.lines), Slots(Front(p.lines) + [line]);
    assert forall k :: 0 <= k < |before| - 1 ==> after[k] == Front(after)[k] == Front(before)[k] == before[k];
  }

  lemma {:induction false} FinishLoses(p: Session, line: Line, start: nat, types: set<string>)
    requires SeenOrTorn(p)
    ensures var n := Next(p, FinishTorn(line), types);
      SeenOrTorn(n) && (Loses(n, start, types) <==>
          Loses(p, start, types) || Harmful(p, FinishTorn(line), start, types))
  {
    if Torn(p.lines) && !line.Blank? {
      var n := Next(p, FinishTorn(line), types);
      FinishIsLast(p, line, types);
      var last := |Slots(p.lines)| - 1;
      forall k: nat | start <= k
        ensures Lost(n, k, types) <==> Lost(p, k, types) || (k == last && Harmful(p, FinishTorn(line), start, types)) {
        if k == last && k < p.cursor {
          assert p.firstSeen[k].Malformed?;
        }
      }
      assert Harmful(p, FinishTorn(line), start, types) ==> Lost(n, last, types);
    }
  }

  lemma {:induction false} PollLosesNothing(p: Session, start: nat, types: set<string>)
    requires SeenOrTorn(p)
    ensures var n := Next(p, Poll, types);
      SeenOrTorn(n) && (Loses(n, start, types) <==> Loses(p, start, types))
  {
    var n, slots := Next(p, Poll, types), Slots(p.lines);
    assert n.firstSeen == p.firstSeen + slots[p.cursor..];
    assert forall k :: 0 <= k < p.cursor ==> n.firstSeen[k] == p.firstSeen[k];
    assert forall k :: p.cursor <= k < |slots| ==> n.firstSeen[k] == slots[k];
    forall k: nat ensures Lost(n, k, types) <==> Lost(p, k, types) {
    }
  }

  lemma {:induction false} AppendLosesNothing(p: Session, line: Line, start: nat, types: set<string>)
    requires SeenOrTorn(p)
    ensures var n := Next(p, Append(line), types);
      SeenOrTorn(n) && (Loses(n, start, types) <==> Loses(p, start, types))
  {
    var n := Next(p, Append(line), types);
    SlotsAppend(p.lines, [line]);
    assert forall k :: 0 <= k < |Slots(p.lines)| ==> Slots(n.lines)[k] == Slots(p.lines)[k];
    forall k: nat ensures Lost(n, k, types) <==> Lost(p, k, types) {
    }
  }

  lemma {:induction false} RunLoses(s: Session, steps: seq<Step>, types: set<string>)
    requires Opened(s)
    ensures SeenOrTorn(Run(s, steps, types))
    ensures Loses(Run(s, steps, types), s.cursor, types) <==> Harms(s, steps, types)
  {
    if steps == [] {
      assert forall k: nat :: !Lost(s, k, types);
    } else {
      var p := Run(s, Front(steps), types);
      RunLoses(s, Front(steps), types);
      HarmsStep(s, steps, types);
      match Last(steps)
      case Append(line) => AppendLosesNothing(p, line, s.cursor, types);
      case FinishTorn(line) => FinishLoses(p, line, s.cursor, types);
      case Poll => PollLosesNothing(p, s.cursor, types);
      case FailedPoll => assert forall k: nat :: Lost(Run(s, steps, types), k, types) <==> Lost(p, k, types);
    }
  }

  /** Slots served as they stand or as Malformed deliver no more than they hold, and exactly what they
      hold when none of them is lost. */
  lemma {:induction false} ServedIffNothingLost(seen: seq<Line>, slots: seq<Line>, types: set<string>)
    requires |seen| == |slots|
    requires forall k :: 0 <= k < |seen| ==> seen[k] == slots[k] || seen[k].Malformed?
    ensures |Deliverable(seen, types)| <= |Deliverable(slots, types)|
    ensures Deliverable(seen, types) == Deliverable(slots, types) <==>
            forall k :: 0 <= k < |seen| ==> seen[k] == slots[k] || !Delivers(slots[k], types)
  {
    if seen == [] {
    } else {
      ServedIffNothingLost(Front(seen), Front(slots), types);
      var n := |seen| - 1;
      assert forall k :: 0 <= k < n ==> Front(seen)[k] == seen[k] && Front(slots)[k] == slots[k];
      if seen[n] == slots[n] || !Delivers(slots[n], types) {
        SameTail(Deliverable(Front(seen), types), Deliverable(Front(slots), types),
                 if Delivers(slots[n], types) then [slots[n].event] else []);
      }
    }
  }

  lemma {:induction false} SameTail<T>(a: seq<T>, b: seq<T>, tail: seq<T>)
    ensures a + tail == b + tail <==> a == b
  {
    if a + tail == b + tail {
      assert |a| == |b|;
      assert forall k :: 0 <= k < |a| ==> a[k] == (a + tail)[k] == b[k];
    }
  }

  /** Exactly-once under torn writes, for every run: the client has received exactly the matching records
      between the start slot and the cursor if and only if no torn line is completed, with a record it
      wants, after the session has consumed its slot. A torn line completed between two polls is harmless. */
  lemma {:induction false} ExactlyOnceIffUnharmed(s: Session, steps: seq<Step>, types: set<string>)
    requires Opened(s)
    ensures var r := Run(s, steps, types);
      && s.cursor <= r.cursor <= |Slots(r.lines)|
      && |r.sent| <= |Deliverable(Slots(r.lines)[s.cursor..r.cursor], types)|
      && (r.sent == Deliverable(Slots(r.lines)[s.cursor..r.cursor], types) <==> !Harms(s, steps, types))
  {
    DeliversFirstSight(s, steps, types);
    RunLoses(s, steps, types);
    var r := Run(s, steps, types);
    var seen, slots := r.firstSeen[s.cursor..], Slots(r.lines)[s.cursor..r.cursor];
    ServedIffNothingLost(seen, slots, types);
    LossIsVisible(r, s.cursor, types);
  }

  lemma {:induction false} LossIsVisible(r: Session, start: nat, types: set<string>)
    requires SeenOrTorn(r) && start <= r.cursor
    ensures var seen, slots := r.firstSeen[start..], Slots(r.lines)[start..r.cursor];
      Loses(r, start, types) <==> exists k :: 0 <= k < |seen| && seen[k] != slots[k] && Delivers(slots[k], types)
  {
    var seen, slots := r.firstSeen[start..], Slots(r.lines)[start..r.cursor];
    if k: nat :| start <= k && Lost(r, k, types) {
      assert seen[k - start] == r.firstSeen[k] && slots[k - start] == Slots(r.lines)[k];
    }
    if k :| 0 <= k < |seen| && seen[k] != slots[k] && Delivers(slots[k], types) {
      assert Lost(r, start + k, types);
    }
  }

  /** Polling a torn slot and completing it leaves the slot consumed as Malformed. */
  lemma {:induction false} PolledThenFinished(p: Session, start: nat, line: Line, types: set<string>)
    requires Consistent(p, start, types) && Torn(p.lines) && !line.Blank?
    requires |p.firstSeen| < |Slots(p.lines)|
    ensures var done := Next(Next(p, Poll, types), FinishTorn(line), types);
      && |done.firstSeen| == |Slots(done.lines)| == |Slots(p.lines)|
      && Last(Slots(done.lines)) == line && Last(done.firstSeen) == Malformed
  {
  }

  /** The whole-line hypothesis is needed: a matching record whose torn first half was polled is
      lost for good. Its slot holds the record in the register, but stays Malformed in what the
      client was served, whatever happens afterwards. */
  lemma {:induction false} TornRecordIsLost(s: Session, before: seq<Step>, line: Line, after: seq<Step>,
                                            types: set<string>)
    requires Opened(s)
    requires var p := Run(s, before, types);
      && p.lines != [] && Last(p.lines) == Malformed && p.cursor < |Slots(p.lines)|
      && line.Record? && (types == {} || (line.event.kind.Some? && line.event.kind.value in types))
    ensures var done := Run(s, before + [Poll, FinishTorn(line)], types);
      var slot := |Slots(Run(s, before, types).lines)| - 1;
      var end := Run(s, before + [Poll, FinishTorn(line)] + after, types);
      && slot < |Slots(done.lines)| && Slots(done.lines)[slot] == line
      && slot < |end.firstSeen| && end.firstSeen[slot] == Malformed
  {
    var p := Run(s, before, types);
    var two := before + [Poll, FinishTorn(line)];
    assert Front(two) == before + [Poll] && Front(Front(two)) == before;
    DeliversFirstSight(s, before, types);
    PolledThenFinished(p, s.cursor, line, types);
    assert (two + after)[..|two|] == two;
    CursorMonotone(s, two + after, |two|, types);
  }

  // ------------------------------------------------------------------------------------------
  // Resolving a start timestamp
  // ------------------------------------------------------------------------------------------

  /** The slots that count as already seen at time since: not newer, malformed or undated. */
  function CountSeen(slots: seq<Line>, since: int): (n: nat)
    ensures n <= |slots|
  {
    if slots == [] then 0
    else (if Newer(slots[0], since) then 0 else 1) + CountSeen(slots[1..], since)
  }

  lemma {:induction false} CountSeenExtremes(slots: seq<Line>, since: int)
    ensures CountSeen(slots, since) == 0 <==> forall i :: 0 <= i < |slots| ==> Newer(slots[i], since)
  {
    if slots == [] {
    } else {
      CountSeenExtremes(slots[1..], since);
      assert forall i :: 1 <= i < |slots| ==> slots[i] == slots[1..][i - 1];
      assert forall i :: 0 <= i < |slots| - 1 ==> slots[1..][i] == slots[i + 1];
    }
  }

  /** The start cursor is the count of already-seen records, as its documentation says, exactly
      when no already-seen slot comes after a newer one; otherwise it is the longest prefix only. */
  lemma {:induction false} StartIndexIsCount(slots: seq<Line>, since: int)
    ensures StartIndex(slots, Some(since)) == CountSeen(slots, since) <==>
            forall i, j :: 0 <= i < j < |slots| && Newer(slots[i], since) ==> Newer(slots[j], since)
  {
    if slots == [] {
    } else {
      var rest := slots[1..];
      StartIndexIsCount(rest, since);
      CountSeenExtremes(rest, since);
      assert forall i :: 1 <= i < |slots| ==> slots[i] == rest[i - 1];
      assert forall i :: 0 <= i < |rest| ==> rest[i] == slots[i + 1];
    }
  }

  /** A smallest instance that fails: an older record behind a newer one is not counted. */
  lemma {:induction false} OlderBehindNewer(newer: Line, older: Line, since: int)
    requires Newer(newer, since) && !Newer(older, since)
    ensures StartIndex([newer, older], Some(since)) == 0 && CountSeen([newer, older], since) == 1
  {
    assert [newer, older][1..] == [older] && [older][1..] == [];
  }
}
