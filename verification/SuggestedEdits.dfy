/** The life cycle of suggested edits, shared by the command line (scripts/apply_suggested_edits.py)
    and the dashboard (dashboard/api_intelligence.py). */
module SuggestedEdits {
  import opened Common

  datatype Status = Pending | Accepted | Rejected | Applied | OtherStatus

  datatype Edit = Edit(
    id: int, category: string, content: string, status: Status, acceptedAt: Option<string>,
    rejectedAt: Option<string>, rejectReason: Option<string>, appliedAt: Option<string>)

  /** pending_edits.json and edit_history.json. */
  datatype State = State(pending: seq<Edit>, history: seq<Edit>)

  // What the commands do to one edit

  predicate CanAccept(e: Edit) {
    e.status == Pending
  }

  predicate CanReject(e: Edit) {
    e.status == Pending || e.status == Accepted
  }

  function Accept(e: Edit, now: string): Edit {
    e.(status := Accepted, acceptedAt := Some(now))
  }

  function Reject(e: Edit, reason: string, now: string): Edit {
    e.(status := Rejected, rejectedAt := Some(now),
        rejectReason := if reason != "" then Some(reason) else e.rejectReason)
  }

  function MarkApplied(e: Edit, now: string): Edit {
    e.(status := Applied, appliedAt := Some(now))
  }

  // What they do to the lists

  function AcceptAll(edits: seq<Edit>, ids: seq<int>, now: string): (r: seq<Edit>)
    ensures |r| == |edits|
    ensures forall k :: 0 <= k < |edits| ==>
              r[k] == if edits[k].id in ids && CanAccept(edits[k]) then Accept(edits[k], now) else edits[k]
  {
    seq(|edits|, k requires 0 <= k < |edits| =>
      if edits[k].id in ids && CanAccept(edits[k]) then Accept(edits[k], now) else edits[k])
  }

  function RejectAll(edits: seq<Edit>, ids: seq<int>, reason: string, now: string): (r: seq<Edit>)
    ensures |r| == |edits|
    ensures forall k :: 0 <= k < |edits| ==>
              r[k] == if edits[k].id in ids && CanReject(edits[k]) then Reject(edits[k], reason, now) else edits[k]
  {
    seq(|edits|, k requires 0 <= k < |edits| =>
      if edits[k].id in ids && CanReject(edits[k]) then Reject(edits[k], reason, now) else edits[k])
  }

  /** The first edit of the id that can be accepted, |edits| if there is none. */
  function FirstAcceptable(edits: seq<Edit>, id: int): (i: nat)
    ensures i <= |edits| && (i < |edits| ==> edits[i].id == id && CanAccept(edits[i]))
    ensures forall k :: 0 <= k < i ==> !(edits[k].id == id && CanAccept(edits[k]))
  {
    if edits == [] || (edits[0].id == id && CanAccept(edits[0])) then 0 else 1 + FirstAcceptable(edits[1..], id)
  }

  function FirstRejectable(edits: seq<Edit>, id: int): (i: nat)
    ensures i <= |edits| && (i < |edits| ==> edits[i].id == id && CanReject(edits[i]))
    ensures forall k :: 0 <= k < i ==> !(edits[k].id == id && CanReject(edits[k]))
  {
    if edits == [] || (edits[0].id == id && CanReject(edits[0])) then 0 else 1 + FirstRejectable(edits[1..], id)
  }

  function AcceptFirst(edits: seq<Edit>, id: int, now: string): seq<Edit> {
    var i := FirstAcceptable(edits, id);
    if i < |edits| then edits[i := Accept(edits[i], now)] else edits
  }

  function RejectFirst(edits: seq<Edit>, id: int, reason: string, now: string): seq<Edit> {
    var i := FirstRejectable(edits, id);
    if i < |edits| then edits[i := Reject(edits[i], reason, now)] else edits
  }

  /** The edits an apply run archives: the accepted ones whose handler succeeds, in list order. */
  function Archived(edits: seq<Edit>, handler: Edit -> bool, now: string): seq<Edit> {
    if edits == [] then []
    else Archived(Front(edits), handler, now) +
         (if Last(edits).status == Accepted && handler(Last(edits)) then [MarkApplied(Last(edits), now)] else [])
  }

  /** What stays pending: everything that is neither archived now nor marked applied already. */
  function Remaining(edits: seq<Edit>, handler: Edit -> bool): seq<Edit> {
    if edits == [] then []
    else Remaining(Front(edits), handler) +
         (if Last(edits).status == Applied || (Last(edits).status == Accepted && handler(Last(edits)))
          then [] else [Last(edits)])
  }

  predicate HasAccepted(edits: seq<Edit>) {
    exists k :: 0 <= k < |edits| && edits[k].status == Accepted
  }

  /** handler tells for which edits the category's handler exists, returns true and does not raise. */
  function ApplyAccepted(s: State, handler: Edit -> bool, now: string): State {
    if !HasAccepted(s.pending) then s
    else State(Remaining(s.pending, handler), s.history + Archived(s.pending, handler, now))
  }

  // ------------------------------------------------------------------------------------------
  // The two front ends
  // ------------------------------------------------------------------------------------------

  class EditStore {
    var pending: seq<Edit>
    var history: seq<Edit>

    constructor (s: State)
      ensures View() == s
    {
      pending, history := s.pending, s.history;
    }

    function View(): State
      reads this
    {
      State(pending, history)
    }

    /** `cmd_accept`: every pending edit with one of the ids. */
    method CmdAccept(ids: seq<int>, now: string) returns (code: int, accepted: seq<int>)
      modifies this`pending
      ensures pending == AcceptAll(old(pending), ids, now)
      ensures code == if ids == [] then 1 else 0
      ensures forall id :: id in accepted <==>
                id in ids && exists k ::
                    0 <= k < |old(pending)| && old(pending)[k].id == id && CanAccept(old(pending)[k])
    {
      accepted := [];
      if |ids| == 0 {
        assert pending == AcceptAll(pending, ids, now);
        return 1, [];
      }
      ghost var was := pending;
      var k := 0;
      while k < |pending|
        invariant k <= |pending| == |was|
        invariant forall j :: 0 <= j < k ==> pending[j] == AcceptAll(was, ids, now)[j]
        invariant forall j :: k <= j < |was| ==> pending[j] == was[j]
        invariant forall id :: id in accepted <==>
            id in ids && exists j :: 0 <= j < k && was[j].id == id && CanAccept(was[j])
      {
        if pending[k].id in ids && pending[k].status == Pending {
          accepted := accepted + [pending[k].id];
          pending := pending[k := Accept(pending[k], now)];
        }
        k := k + 1;
      }
      code := 0;
    }

    /** `cmd_reject`: every pending or accepted edit with one of the ids. */
    method CmdReject(ids: seq<int>, reason: string, now: string) returns (code: int)
      modifies this`pending
      ensures pending == RejectAll(old(pending), ids, reason, now)
      ensures code == if ids == [] then 1 else 0
    {
      if |ids| == 0 {
        assert pending == RejectAll(pending, ids, reason, now);
        return 1;
      }
      ghost var was := pending;
      var k := 0;
      while k < |pending|
        invariant k <= |pending| == |was|
        invariant forall j :: 0 <= j < k ==> pending[j] == RejectAll(was, ids, reason, now)[j]
        invariant forall j :: k <= j < |was| ==> pending[j] == was[j]
      {
        if pending[k].id in ids && (pending[k].status == Pending || pending[k].status == Accepted) {
          pending := pending[k := Reject(pending[k], reason, now)];
        }
        k := k + 1;
      }
      code := 0;
    }

    /** `cmd_apply`: marks the accepted edits whose handler succeeds, archives them, and drops every
        edit marked applied from the pending list. */
    method CmdApply(handler: Edit -> bool, now: string) returns (code: int)
      modifies this
      ensures View() == ApplyAccepted(old(View()), handler, now)
      ensures (forall k :: 0 <= k < |old(pending)| ==> old(pending)[k].status != Accepted) ==> View() == old(View())
      ensures code == 1 <==> exists k ::
          0 <= k < |old(pending)| && old(pending)[k].status == Accepted && !handler(old(pending)[k])
      ensures code == 0 || code == 1
    {
      if !HasAccepted(pending) {
        return 0;
      }
      ghost var was := View();
      var failed := RunHandlers(handler, now);
      NotAppliedIsRemaining(was.pending, pending, handler, now);
      pending := NotApplied(pending);
      code := if failed then 1 else 0;
    }

    /** The loop over the accepted edits, which are marked in place. */
    method RunHandlers(handler: Edit -> bool, now: string) returns (failed: bool)
      modifies this
      ensures |pending| == |old(pending)|
      ensures forall k :: 0 <= k < |pending| ==> pending[k] == AfterHandler(old(pending)[k], handler, now)
      ensures history == old(history) + Archived(old(pending), handler, now)
      ensures failed <==> exists k ::
          0 <= k < |old(pending)| && old(pending)[k].status == Accepted && !handler(old(pending)[k])
    {
      ghost var was := View();
      failed := false;
      var k := 0;
      assert history == was.history + Archived(was.pending[..0], handler, now);
      while k < |pending|
        invariant k <= |pending| == |was.pending|
        invariant forall j :: 0 <= j < k ==> pending[j] == AfterHandler(was.pending[j], handler, now)
        invariant forall j :: k <= j < |pending| ==> pending[j] == was.pending[j]
        invariant history == was.history + Archived(was.pending[..k], handler, now)
        invariant failed <==> exists j :: 0 <= j < k && was.pending[j].status == Accepted && !handler(was.pending[j])
      {
        PrefixStep(was.pending, k);
        var edit := pending[k];
        if edit.status == Accepted {
          if handler(edit) {
            edit := MarkApplied(edit, now);
            pending := pending[k := edit];
            history := history + [edit];
          } else {
            failed := true;
          }
        }
        k := k + 1;
      }
      assert was.pending[..k] == was.pending;
    }

    /** `_intelligence_accept_proposal` for a numeric id: the first match only. */
    method AcceptProposal(id: int, now: string) returns (code: int)
      modifies this`pending
      ensures pending == AcceptFirst(old(pending), id, now)
      ensures code == if FirstAcceptable(old(pending), id) < |old(pending)| then 200 else 404
    {
      ghost var was := pending;
      var matched, k := false, 0;
      while k < |pending| && !matched
        invariant k <= |pending| == |was|
        invariant !matched ==> pending == was && forall j :: 0 <= j < k ==> !(was[j].id == id && CanAccept(was[j]))
        invariant matched ==> pending == AcceptFirst(was, id, now) && FirstAcceptable(was, id) < |was|
        decreases |pending| - k, !matched
      {
        if pending[k].id == id && pending[k].status == Pending {
          assert k == FirstAcceptable(was, id);
          pending := pending[k := Accept(pending[k], now)];
          matched := true;
        } else {
          k := k + 1;
        }
      }
      code := if matched then 200 else 404;
    }

    /** `_intelligence_reject_proposal` for a numeric id. */
    method RejectProposal(id: int, reason: string, now: string) returns (code: int)
      modifies this`pending
      ensures pending == RejectFirst(old(pending), id, reason, now)
      ensures code == if FirstRejectable(old(pending), id) < |old(pending)| then 200 else 404
    {
      ghost var was := pending;
      var matched, k := false, 0;
      while k < |pending| && !matched
        invariant k <= |pending| == |was|
        invariant !matched ==> pending == was && forall j :: 0 <= j < k ==> !(was[j].id == id && CanReject(was[j]))
        invariant matched ==> pending == RejectFirst(was, id, reason, now) && FirstRejectable(was, id) < |was|
        decreases |pending| - k, !matched
      {
        if pending[k].id == id && (pending[k].status == Pending || pending[k].status == Accepted) {
          assert k == FirstRejectable(was, id);
          pending := pending[k := Reject(pending[k], reason, now)];
          matched := true;
        } else {
          k := k + 1;
        }
      }
      code := if matched then 200 else 404;
    }
  }

  function AfterHandler(e: Edit, handler: Edit -> bool, now: string): Edit {
    if e.status == Accepted && handler(e) then MarkApplied(e, now) else e
  }

  function NotApplied(edits: seq<Edit>): seq<Edit> {
    if edits == [] then []
    else NotApplied(Front(edits)) + (if Last(edits).status == Applied then [] else [Last(edits)])
  }

  lemma {:induction false} NotAppliedIsRemaining(edits: seq<Edit>, after: seq<Edit>, handler: Edit -> bool, now: string)
    requires |after| == |edits|
    requires forall j :: 0 <= j < |edits| ==> after[j] == AfterHandler(edits[j], handler, now)
    ensures NotApplied(after) == Remaining(edits, handler)
  {
    if edits == [] {
    } else {
      NotAppliedIsRemaining(Front(edits), Front(after), handler, now);
    }
  }

  // ------------------------------------------------------------------------------------------
  // Every run of both front ends
  // ------------------------------------------------------------------------------------------

  datatype Command =
    | CliAccept(ids: seq<int>, now: string)
    | CliReject(ids: seq<int>, reason: string, now: string)
    | CliApply(handler: Edit -> bool, now: string)
    | WebAccept(id: int, now: string)
    | WebReject(id: int, reason: string, now: string)

  function Step(s: State, c: Command): State {
    match c
    case CliAccept(ids, now) => s.(pending := AcceptAll(s.pending, ids, now))
    case CliReject(ids, reason, now) => s.(pending := RejectAll(s.pending, ids, reason, now))
    case CliApply(handler, now) => ApplyAccepted(s, handler, now)
    case WebAccept(id, now) => s.(pending := AcceptFirst(s.pending, id, now))
    case WebReject(id, reason, now) => s.(pending := RejectFirst(s.pending, id, reason, now))
  }

  function Run(s: State, cs: seq<Command>): State {
    if cs == [] then s else Step(Run(s, Front(cs)), Last(cs))
  }

  function Ids(edits: seq<Edit>): (r: seq<int>)
    ensures |r| == |edits| && forall k :: 0 <= k < |edits| ==> r[k] == edits[k].id
  {
    seq(|edits|, k requires 0 <= k < |edits| => edits[k].id)
  }

  /** Nothing pending is marked applied, everything archived is. */
  ghost predicate Inv(s: State) {
    && (forall k :: 0 <= k < |s.pending| ==> s.pending[k].status != Applied)
    && (forall k :: 0 <= k < |s.history| ==> s.history[k].status == Applied)
  }

  function AppliedIds(edits: seq<Edit>): multiset<int> {
    if edits == [] then multiset{}
    else AppliedIds(Front(edits)) + (if Last(edits).status == Applied then multiset{Last(edits).id} else multiset{})
  }

  function IdBag(edits: seq<Edit>): multiset<int> {
    multiset(Ids(edits))
  }

  lemma {:induction false} IdBagAppend(edits: seq<Edit>, e: Edit)
    ensures IdBag(edits + [e]) == IdBag(edits) + multiset{e.id}
    ensures IdBag(edits + []) == IdBag(edits)
  {
    assert Ids(edits + [e]) == Ids(edits) + [e.id];
    assert edits + [] == edits;
  }

  predicate IsDropped(e: Edit) {
    e.status == Applied
  }

  predicate IsArchived(e: Edit, handler: Edit -> bool) {
    e.status == Accepted && handler(e)
  }

  lemma {:induction false} RemainingBag(edits: seq<Edit>, handler: Edit -> bool)
    requires edits != []
    ensures var e := Last(edits);
      IdBag(Remaining(edits, handler)) ==
      IdBag(Remaining(Front(edits), handler))
          + (if IsDropped(e) || IsArchived(e, handler) then multiset{} else multiset{e.id})
  {
    IdBagAppend(Remaining(Front(edits), handler), Last(edits));
  }

  lemma {:induction false} ArchivedBag(edits: seq<Edit>, handler: Edit -> bool, now: string)
    requires edits != []
    ensures var e := Last(edits);
      IdBag(Archived(edits, handler, now)) ==
      IdBag(Archived(Front(edits), handler, now)) + (if IsArchived(e, handler) then multiset{e.id} else multiset{})
  {
    IdBagAppend(Archived(Front(edits), handler, now), MarkApplied(Last(edits), now));
  }

  /** Splitting the pending list at an apply loses exactly the edits already marked applied. */
  lemma {:induction false} ApplySplits(edits: seq<Edit>, handler: Edit -> bool, now: string)
    ensures IdBag(Remaining(edits, handler)) + IdBag(Archived(edits, handler, now)) + AppliedIds(edits) == IdBag(edits)
  {
    if edits == [] {
    } else {
      var e := Last(edits);
      ApplySplits(Front(edits), handler, now);
      assert edits == Front(edits) + [e];
      IdBagAppend(Front(edits), e);
      RemainingBag(edits, handler);
      ArchivedBag(edits, handler, now);
      OneMore(IdBag(Remaining(Front(edits), handler)), IdBag(Archived(Front(edits), handler, now)),
          AppliedIds(Front(edits)), e.id);
    }
  }

  /** One id more in one of three bags is one more in their sum. */
  lemma {:induction false} OneMore(a: multiset<int>, b: multiset<int>, c: multiset<int>, x: int)
    ensures (a + multiset{x}) + (b + multiset{}) + (c + multiset{}) == a + b + c + multiset{x}
    ensures (a + multiset{}) + (b + multiset{x}) + (c + multiset{}) == a + b + c + multiset{x}
    ensures (a + multiset{}) + (b + multiset{}) + (c + multiset{x}) == a + b + c + multiset{x}
  {
  }

  lemma {:induction false} IdsJoin(a: seq<Edit>, b: seq<Edit>)
    ensures Ids(a + b) == Ids(a) + Ids(b)
  {
  }

  /** The ids of a state, pending and archived together. */
  function AllIds(s: State): multiset<int> {
    IdBag(s.pending) + IdBag(s.history)
  }

  lemma {:induction false} NoneApplied(edits: seq<Edit>)
    ensures AppliedIds(edits) == multiset{} <==> forall k :: 0 <= k < |edits| ==> edits[k].status != Applied
  {
    if edits == [] {
    } else {
      NoneApplied(Front(edits));
      assert forall k :: 0 <= k < |edits| - 1 ==> Front(edits)[k] == edits[k];
      assert edits[|edits| - 1] == Last(edits);
      assert Last(edits).status == Applied ==> Last(edits).id in AppliedIds(edits);
    }
  }

  /** An apply run conserves the ids exactly when it finds nothing accepted, or nothing in the pending
      list was marked applied before: such an edit is dropped without being archived. */
  lemma {:induction false} ApplyConservesIff(s: State, handler: Edit -> bool, now: string)
    ensures AllIds(ApplyAccepted(s, handler, now)) == AllIds(s) <==>
            || (forall k :: 0 <= k < |s.pending| ==> s.pending[k].status != Accepted)
            || (forall k :: 0 <= k < |s.pending| ==> s.pending[k].status != Applied)
  {
    ApplySplits(s.pending, handler, now);
    NoneApplied(s.pending);
    IdsJoin(s.history, Archived(s.pending, handler, now));
    var t := ApplyAccepted(s, handler, now);
    assert HasAccepted(s.pending) ==> AllIds(t) + AppliedIds(s.pending) == AllIds(s);
  }

  /** A smallest instance that fails: one accepted edit beside one already marked applied. */
  lemma {:induction false} MarkedEditIsDropped(accepted: Edit, marked: Edit, handler: Edit -> bool, now: string)
    requires accepted.status == Accepted && marked.status == Applied && handler(accepted)
    ensures ApplyAccepted(State([accepted, marked], []), handler, now) == State([], [MarkApplied(accepted, now)])
  {
    var edits := [accepted, marked];
    assert edits[0].status == Accepted && Front(edits) == [accepted] && Front([accepted]) == [];
    assert Remaining([], handler) == [] && Archived([], handler, now) == [];
    assert Remaining([accepted], handler) == [] && Archived([accepted], handler, now) == [MarkApplied(accepted, now)];
  }

  /** A command that only rewrites pending edits in place. */
  lemma {:induction false} RewriteConserves(s: State, pending: seq<Edit>)
    requires Inv(s) && |pending| == |s.pending|
    requires forall k :: 0 <= k < |pending| ==> pending[k].id == s.pending[k].id && pending[k].status != Applied
    ensures Inv(s.(pending := pending)) && AllIds(s.(pending := pending)) == AllIds(s)
  {
    assert Ids(pending) == Ids(s.pending);
  }

  lemma {:induction false} StepConserves(s: State, c: Command)
    requires Inv(s)
    ensures Inv(Step(s, c)) && AllIds(Step(s, c)) == AllIds(s) && s.history <= Step(s, c).history
  {
    if c.CliApply? {
      ApplyConservesIff(s, c.handler, c.now);
      RemainingUnapplied(s.pending, c.handler);
      ArchivedApplied(s.pending, c.handler, c.now);
    } else {
      RewriteConserves(s, Step(s, c).pending);
    }
  }

  lemma {:induction false} RemainingUnapplied(edits: seq<Edit>, handler: Edit -> bool)
    ensures forall e :: e in Remaining(edits, handler) ==>
              e in edits && e.status != Applied && !(e.status == Accepted && handler(e))
  {
    if edits == [] {
    } else {
      RemainingUnapplied(Front(edits), handler);
    }
  }

  lemma {:induction false} ArchivedApplied(edits: seq<Edit>, handler: Edit -> bool, now: string)
    ensures forall e :: e in Archived(edits, handler, now) ==>
              e.status == Applied && exists f ::
                  f in edits && f.status == Accepted && handler(f) && e == MarkApplied(f, now)
  {
    if edits == [] {
    } else {
      ArchivedApplied(Front(edits), handler, now);
      assert forall e :: e in Front(edits) ==> e in edits;
      assert Last(edits) in edits;
    }
  }

  /** Over every run of both front ends: no id appears or is lost, pending and history together, and
      the history only grows. */
  lemma {:induction false} RunConserves(s: State, cs: seq<Command>)
    requires Inv(s)
    ensures Inv(Run(s, cs)) && AllIds(Run(s, cs)) == AllIds(s) && s.history <= Run(s, cs).history
  {
    if cs == [] {
    } else {
      RunConserves(s, Front(cs));
      StepConserves(Run(s, Front(cs)), Last(cs));
    }
  }

  ghost predicate UniqueIds(s: State) {
    forall id :: AllIds(s)[id] <= 1
  }

  /** So with unique ids no edit is ever in both lists. */
  lemma {:induction false} NeverInBoth(s: State, cs: seq<Command>, p: nat, h: nat)
    requires Inv(s) && UniqueIds(s)
    requires p < |Run(s, cs).pending| && h < |Run(s, cs).history|
    ensures Run(s, cs).pending[p].id != Run(s, cs).history[h].id
  {
    RunConserves(s, cs);
    var r := Run(s, cs);
    assert Ids(r.pending)[p] in multiset(Ids(r.pending)) && Ids(r.history)[h] in multiset(Ids(r.history));
    assert AllIds(r)[r.pending[p].id] <= 1;
  }

  // Statuses

  /** The moves an edit's status may make in one step. */
  ghost predicate Moves(from: Status, to: Status) {
    || from == to
    || (from == Pending && (to == Accepted || to == Rejected))
    || (from == Accepted && (to == Rejected || to == Applied))
  }

  /** f is e after a legal move, with the suggestion itself unchanged. */
  ghost predicate Succeeds(e: Edit, f: Edit) {
    Moves(e.status, f.status) && f.id == e.id && f.category == e.category && f.content == e.content
  }

  /** What the step writes: the new status, its time, a reason if one is given, and nothing else. */
  ghost predicate WrittenBy(e: Edit, f: Edit, c: Command) {
    f == e ||
    match c
    case CliAccept(ids, now) => e.id in ids && f == e.(status := Accepted, acceptedAt := Some(now))
    case WebAccept(id, now) => e.id == id && f == e.(status := Accepted, acceptedAt := Some(now))
    case CliReject(ids, reason, now) => e.id in ids && RejectedFor(e, f, reason, now)
    case WebReject(id, reason, now) => e.id == id && RejectedFor(e, f, reason, now)
    case CliApply(handler, now) => handler(e) && f == e.(status := Applied, appliedAt := Some(now))
  }

  /** An empty reason leaves the old one. */
  ghost predicate RejectedFor(e: Edit, f: Edit, reason: string, now: string) {
    && f.status == Rejected && f.rejectedAt == Some(now)
    && (if reason == "" then f.rejectReason == e.rejectReason else f.rejectReason == Some(reason))
    && f.id == e.id && f.category == e.category && f.content == e.content
    && f.acceptedAt == e.acceptedAt && f.appliedAt == e.appliedAt
  }

  /** One step moves every pending edit legally: it stays pending, or is archived as applied. */
  lemma {:induction false} StepMovesLegally(s: State, c: Command, e: Edit)
    requires Inv(s) && e in s.pending
    ensures var t := Step(s, c);
      || (exists f :: f in t.pending && Succeeds(e, f) && WrittenBy(e, f, c))
      || (exists f :: && f in t.history[|s.history|..] && Succeeds(e, f) && WrittenBy(e, f, c)
                      && e.status == Accepted && f.status == Applied)
  {
    var t := Step(s, c);
    if c.CliApply? {
      if HasAccepted(s.pending) && e.status == Accepted && c.handler(e) {
        ArchivedHolds(s.pending, c.handler, c.now, e);
        assert t.history[|s.history|..] == Archived(s.pending, c.handler, c.now);
        assert Succeeds(e, MarkApplied(e, c.now));
      } else {
        RemainingHolds(s.pending, c.handler, e);
        assert e in t.pending && Succeeds(e, e);
      }
    } else {
      var k :| 0 <= k < |s.pending| && s.pending[k] == e;
      assert t.pending[k] in t.pending && Succeeds(e, t.pending[k]);
    }
  }

  lemma {:induction false} ArchivedHolds(edits: seq<Edit>, handler: Edit -> bool, now: string, e: Edit)
    requires e in edits && e.status == Accepted && handler(e)
    ensures MarkApplied(e, now) in Archived(edits, handler, now)
  {
    if e != Last(edits) {
      assert edits == Front(edits) + [Last(edits)];
      ArchivedHolds(Front(edits), handler, now, e);
    }
  }

  lemma {:induction false} RemainingHolds(edits: seq<Edit>, handler: Edit -> bool, e: Edit)
    requires e in edits && e.status != Applied && !(e.status == Accepted && handler(e))
    ensures e in Remaining(edits, handler)
  {
    if e != Last(edits) {
      assert edits == Front(edits) + [Last(edits)];
      RemainingHolds(Front(edits), handler, e);
    }
  }

  /** A rejected edit stays pending, untouched, through every run: it is never accepted, never applied
      and, ids being unique, never archived. */
  lemma {:induction false} RejectedIsFinal(s: State, cs: seq<Command>, e: Edit)
    requires Inv(s) && UniqueIds(s) && e in s.pending && e.status == Rejected
    ensures e in Run(s, cs).pending
    ensures forall f :: f in Run(s, cs).history ==> f.id != e.id
  {
    if cs != [] {
      RejectedIsFinal(s, Front(cs), e);
      var r, c := Run(s, Front(cs)), Last(cs);
      if c.CliApply? {
        if HasAccepted(r.pending) {
          RemainingHolds(r.pending, c.handler, e);
        }
      } else {
        var k :| 0 <= k < |r.pending| && r.pending[k] == e;
        assert Step(r, c).pending[k] == e;
      }
    }
    var k :| 0 <= k < |Run(s, cs).pending| && Run(s, cs).pending[k] == e;
    forall f | f in Run(s, cs).history ensures f.id != e.id {
      var h :| 0 <= h < |Run(s, cs).history| && Run(s, cs).history[h] == f;
      NeverInBoth(s, cs, k, h);
    }
  }

  /** An edit carries the time of every step that led to its status. */
  ghost predicate Stamped(e: Edit) {
    && (e.status == Accepted ==> e.acceptedAt.Some?)
    && (e.status == Rejected ==> e.rejectedAt.Some?)
    && (e.status == Applied ==> e.acceptedAt.Some? && e.appliedAt.Some?)
  }

  ghost predicate AllStamped(s: State) {
    && (forall e :: e in s.pending ==> Stamped(e))
    && (forall e :: e in s.history ==> Stamped(e))
  }

  lemma {:induction false} StepStamps(s: State, c: Command)
    requires AllStamped(s)
    ensures AllStamped(Step(s, c))
  {
    if c.CliApply? {
      RemainingUnapplied(s.pending, c.handler);
      ArchivedApplied(s.pending, c.handler, c.now);
    } else {
      var t := Step(s, c);
      forall k | 0 <= k < |t.pending| ensures Stamped(t.pending[k]) {
        assert s.pending[k] in s.pending;
      }
    }
  }

  /** Over every run each accepted, rejected and archived edit carries its times, an archived one both
      that of its acceptance and that of its application. */
  lemma {:induction false} RunStamps(s: State, cs: seq<Command>)
    requires AllStamped(s)
    ensures AllStamped(Run(s, cs))
  {
    if cs == [] {
    } else {
      RunStamps(s, Front(cs));
      StepStamps(Run(s, Front(cs)), Last(cs));
    }
  }

  // ------------------------------------------------------------------------------------------
  // One state machine, two front ends
  // ------------------------------------------------------------------------------------------

  /** Accepting one id on the dashboard and on the command line agree exactly when at most one pending
      edit carries it: the dashboard stops at the first, the command line takes them all. */
  lemma {:induction false} AcceptsAgreeIff(edits: seq<Edit>, id: int, now: string)
    ensures AcceptFirst(edits, id, now) == AcceptAll(edits, [id], now) <==>
            forall i, j :: 0 <= i < j < |edits| ==>
              !(edits[i].id == id && CanAccept(edits[i]) && edits[j].id == id && CanAccept(edits[j]))
  {
  }

  /** The same for rejecting: at most one edit of that id still open. */
  lemma {:induction false} RejectsAgreeIff(edits: seq<Edit>, id: int, reason: string, now: string)
    ensures RejectFirst(edits, id, reason, now) == RejectAll(edits, [id], reason, now) <==>
            forall i, j :: 0 <= i < j < |edits| ==>
              !(edits[i].id == id && CanReject(edits[i]) && edits[j].id == id && CanReject(edits[j]))
  {
  }

  /** A smallest instance where they differ: two pending edits of one id. */
  lemma {:induction false} DashboardTakesTheFirst(a: Edit, b: Edit, reason: string, now: string)
    requires a.id == b.id && a.status == Pending && b.status == Pending
    ensures AcceptFirst([a, b], a.id, now) == [Accept(a, now), b]
    ensures AcceptAll([a, b], [a.id], now) == [Accept(a, now), Accept(b, now)]
    ensures RejectFirst([a, b], a.id, reason, now) == [Reject(a, reason, now), b]
    ensures RejectAll([a, b], [a.id], reason, now) == [Reject(a, reason, now), Reject(b, reason, now)]
  {
    assert a.id in [a.id];
  }
}
