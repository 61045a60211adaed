/** Backfilling dispatch_metadata from completion receipts (scripts/backfill_dispatch_metadata.py). */
module MetadataBackfill {
  import opened Common
  import opened Text

  // ------------------------------------------------------------------------------------------
  // Status vocabulary
  // ------------------------------------------------------------------------------------------

  datatype Outcome = Failure | Unknown | Success

  const SUCCESS_STATUSES: set<string> := {"success", "completed", "complete", "ok", "", "done"}
  const FAILURE_STATUSES: set<string> := {"failed", "failure", "error", "blocked", "timeout", "contract_invalid"}
  const FAILURE_TOKENS: set<string> := {"fail", "failed", "failure", "error", "err"}

  predicate IsSeparator(c: char)
    ensures IsSeparator(c) <==> c in "_-./"
  {
    c == '_' || c == '-' || c == '.' || c == '/'
  }

  function FirstSeparator(s: string): (k: nat)
    ensures k <= |s| && (k < |s| ==> IsSeparator(s[k]))
    ensures forall i :: 0 <= i < k ==> !IsSeparator(s[i])
  {
    if s == [] || IsSeparator(s[0]) then 0 else 1 + FirstSeparator(s[1..])
  }

  /** `re.split(r"[_\-./]", s)`. */
  function Tokens(s: string): seq<string> {
    var k := FirstSeparator(s);
    if k == |s| then [s] else [s[..k]] + Tokens(s[k + 1..])
  }

  function NormalizeStatus(raw: Option<string>): Outcome {
    if raw.None? then Unknown
    else
      var s := Lower(Strip(raw.value));
      if s in SUCCESS_STATUSES then Success
      else if s in FAILURE_STATUSES then Failure
      else if exists t :: t in Tokens(s) && t in FAILURE_TOKENS then Failure
      else Unknown
  }

  /** t stands in s between separators or ends, and holds no separator itself. */
  ghost predicate DiscreteAt(s: string, t: string, i: nat) {
    && i + |t| <= |s|
    && s[i..i + |t|] == t
    && (forall j :: 0 <= j < |t| ==> !IsSeparator(t[j]))
    && (i == 0 || IsSeparator(s[i - 1]))
    && (i + |t| == |s| || IsSeparator(s[i + |t|]))
  }

  /** holds is true of the text before the first separator, and of what it is true of behind it. */
  ghost predicate TokenClosed(holds: (string, string) -> bool) {
    && (forall s :: holds(s, s[..FirstSeparator(s)]))
    && (forall s, t {:trigger holds(s[FirstSeparator(s) + 1..], t)} ::
          FirstSeparator(s) < |s| && holds(s[FirstSeparator(s) + 1..], t) ==> holds(s, t))
  }

  lemma {:induction false} InCons<T>(x: T, a: T, rest: seq<T>)
    ensures x in [a] + rest <==> x == a || x in rest
  {
  }

  lemma {:induction false} TokenSplit(s: string, t: string)
    ensures var k := FirstSeparator(s);
      t in Tokens(s) <==> t == s[..k] || (k < |s| && t in Tokens(s[k + 1..]))
  {
    var k := FirstSeparator(s);
    if k == |s| {
      assert s[..k] == s;
    } else {
      InCons(t, s[..k], Tokens(s[k + 1..]));
    }
  }

  /** Induction over the tokens of a text. */
  lemma {:induction false} ByTokens(s: string, t: string, holds: (string, string) -> bool)
    requires TokenClosed(holds) && t in Tokens(s)
    ensures holds(s, t)
  {
    TokenSplit(s, t);
    if t != s[..FirstSeparator(s)] {
      ByTokens(s[FirstSeparator(s) + 1..], t, holds);
    }
  }

  lemma {:induction false} DiscreteHead(s: string, t: string)
    ensures DiscreteAt(s, t, 0) <==> t == s[..FirstSeparator(s)]
  {
    var k := FirstSeparator(s);
    if DiscreteAt(s, t, 0) {
      assert forall j :: 0 <= j < |t| ==> s[j] == t[j];
      assert |t| == k;
    }
  }

  /** Cutting s after a separator keeps the discrete words behind the cut. */
  lemma {:induction false} DiscreteShift(s: string, k: nat, t: string, j: nat)
    requires k < |s| && IsSeparator(s[k])
    ensures DiscreteAt(s[k + 1..], t, j) <==> DiscreteAt(s, t, k + 1 + j)
  {
  }

  /** Induction over the positions of the discrete words of a text. */
  lemma {:induction false} ByPosition(s: string, t: string, i: nat, holds: (string, string) -> bool)
    requires TokenClosed(holds) && DiscreteAt(s, t, i)
    ensures holds(s, t)
  {
    var k := FirstSeparator(s);
    if i == 0 {
      DiscreteHead(s, t);
    } else {
      assert k < i;
      DiscreteShift(s, k, t, i - k - 1);
      ByPosition(s[k + 1..], t, i - k - 1, holds);
    }
  }

  ghost predicate IsWord(s: string, t: string) {
    exists i: nat :: DiscreteAt(s, t, i)
  }

  lemma {:induction false} WordsAreTokenClosed()
    ensures TokenClosed((s: string, t: string) => IsWord(s, t))
  {
    forall s: string ensures IsWord(s, s[..FirstSeparator(s)]) {
      DiscreteHead(s, s[..FirstSeparator(s)]);
    }
    forall s: string, t: string {:trigger IsWord(s, t)} | FirstSeparator(s) < |s|
        && IsWord(s[FirstSeparator(s) + 1..], t)
      ensures IsWord(s, t)
    {
      var j: nat :| DiscreteAt(s[FirstSeparator(s) + 1..], t, j);
      DiscreteShift(s, FirstSeparator(s), t, j);
    }
  }

  lemma {:induction false} TokensAreTokenClosed()
    ensures TokenClosed((s: string, t: string) => t in Tokens(s))
  {
    forall s: string ensures s[..FirstSeparator(s)] in Tokens(s) {
      TokenSplit(s, s[..FirstSeparator(s)]);
    }
    forall s: string, t: string {:trigger t in Tokens(s)} | FirstSeparator(s) < |s|
        && t in Tokens(s[FirstSeparator(s) + 1..])
      ensures t in Tokens(s)
    {
      TokenSplit(s, t);
    }
  }

  /** A token is a discrete word: "deploy_error" has the token "error", "failsafe" has no "fail". */
  lemma {:induction false} TokenIsDiscrete(s: string, t: string)
    ensures t in Tokens(s) <==> IsWord(s, t)
  {
    if t in Tokens(s) {
      WordsAreTokenClosed();
      ByTokens(s, t, (s: string, t: string) => IsWord(s, t));
    } else if IsWord(s, t) {
      var i: nat :| DiscreteAt(s, t, i);
      TokensAreTokenClosed();
      ByPosition(s, t, i, (s: string, t: string) => t in Tokens(s));
    }
  }

  ghost predicate HoldsFailureWord(s: string) {
    exists t :: t in FAILURE_TOKENS && IsWord(s, t)
  }

  lemma {:induction false} FailureTokenIsWord(s: string)
    ensures (exists t :: t in Tokens(s) && t in FAILURE_TOKENS) <==> HoldsFailureWord(s)
  {
    forall t ensures t in Tokens(s) <==> IsWord(s, t) {
      TokenIsDiscrete(s, t);
    }
  }

  /** A given status is a failure exactly when its trimmed lower-case form is a listed failure, or is
      not a listed success and holds a failure word between separators; a success exactly when it is
      listed as one. A missing status is neither. */
  lemma {:induction false} StatusIs(raw: Option<string>)
    ensures raw.None? ==> NormalizeStatus(raw) == Unknown
    ensures raw.Some? ==>
      var s := Lower(Strip(raw.value));
      && (NormalizeStatus(raw) == Failure <==>
          s !in SUCCESS_STATUSES && (s in FAILURE_STATUSES || HoldsFailureWord(s)))
      && (NormalizeStatus(raw) == Success <==> s in SUCCESS_STATUSES)
  {
    if raw.Some? {
      FailureTokenIsWord(Lower(Strip(raw.value)));
    }
  }

  // ------------------------------------------------------------------------------------------
  // The receipt fold
  // ------------------------------------------------------------------------------------------

  /** A completion receipt; did is the stripped dispatch_id, the key every use takes it by. */
  datatype Receipt = Receipt(
    did: string, status: Option<string>, timestamp: Option<int>,
    reportPath: Option<string>, terminal: Option<string>, track: Option<string>)

  /** The program's vocabulary is NormalizeStatus; nothing about the fold depends on it. */
  type Vocabulary = Option<string> -> Outcome

  function OutcomeOf(r: Receipt, norm: Vocabulary): Outcome {
    norm(r.status)
  }

  function Rank(o: Outcome): nat {
    match o case Failure => 0 case Unknown => 1 case Success => 2
  }

  /** A missing timestamp is the empty string, below every other. */
  predicate LaterThan(a: Option<int>, b: Option<int>) {
    a.Some? && (b.None? || a.value > b.value)
  }

  /** The receipt that replaces another of its dispatch: a worse outcome, or the same and later. */
  predicate Beats(a: Receipt, b: Receipt, norm: Vocabulary) {
    || Rank(OutcomeOf(a, norm)) < Rank(OutcomeOf(b, norm))
    || (OutcomeOf(a, norm) == OutcomeOf(b, norm) && LaterThan(a.timestamp, b.timestamp))
  }

  /** One entry of the insertion-ordered dict `best`. */
  datatype Pick = Pick(did: string, rec: Receipt)

  function DidOf(p: Pick): string {
    p.did
  }

  ghost predicate DistinctDids(best: seq<Pick>) {
    forall i, j :: 0 <= i < j < |best| ==> best[i].did != best[j].did
  }

  function Fold(best: seq<Pick>, r: Receipt, norm: Vocabulary): seq<Pick> {
    var i := Find(best, DidOf, r.did);
    if i == |best| then best + [Pick(r.did, r)]
    else if Beats(r, best[i].rec, norm) then best[i := Pick(r.did, r)]
    else best
  }

  function Best(receipts: seq<Receipt>, norm: Vocabulary): seq<Pick> {
    if receipts == [] then [] else Fold(Best(Front(receipts), norm), Last(receipts), norm)
  }

  /** `_best_receipt_per_dispatch`. */
  method BestReceiptPerDispatch(receipts: seq<Receipt>, norm: Vocabulary) returns (best: seq<Pick>)
    ensures best == Best(receipts, norm)
  {
    best := [];
    var k := 0;
    while k < |receipts|
      invariant k <= |receipts|
      invariant best == Best(receipts[..k], norm)
    {
      PrefixStep(receipts, k);
      var rec := receipts[k];
      var did := rec.did;
      var outcome := OutcomeOf(rec, norm);
      var i := Find(best, DidOf, did);
      if i == |best| {
        best := best + [Pick(did, rec)];
      } else {
        var prev := best[i].rec;
        var prevOutcome := OutcomeOf(prev, norm);
        if Rank(outcome) < Rank(prevOutcome) {
          best := best[i := Pick(did, rec)];
        } else if Rank(outcome) == Rank(prevOutcome) {
          if LaterThan(rec.timestamp, prev.timestamp) {
            best := best[i := Pick(did, rec)];
          }
        }
      }
      k := k + 1;
    }
    assert receipts[..k] == receipts;
  }

  /** Receipt i is the optimum of its dispatch: nothing beats it, and it beats all before it. */
  ghost predicate Optimal(receipts: seq<Receipt>, norm: Vocabulary, did: string, i: nat) {
    && i < |receipts| && receipts[i].did == did
    && (forall j :: 0 <= j < |receipts| && receipts[j].did == did ==> !Beats(receipts[j], receipts[i], norm))
    && (forall j :: 0 <= j < i && receipts[j].did == did ==> Beats(receipts[i], receipts[j], norm))
  }

  ghost predicate HasOptimum(receipts: seq<Receipt>, norm: Vocabulary, p: Pick) {
    exists i: nat :: Optimal(receipts, norm, p.did, i) && p.rec == receipts[i]
  }

  ghost predicate Covers(best: seq<Pick>, did: string) {
    exists k :: 0 <= k < |best| && best[k].did == did
  }

  lemma {:induction false} OptimumExtends(receipts: seq<Receipt>, norm: Vocabulary, p: Pick)
    requires receipts != [] && HasOptimum(Front(receipts), norm, p)
    ensures var r := Last(receipts);
      HasOptimum(receipts, norm, if r.did == p.did && Beats(r, p.rec, norm) then Pick(p.did, r) else p)
  {
    var rest, r, n := Front(receipts), Last(receipts), |receipts| - 1;
    assert forall j :: 0 <= j < n ==> rest[j] == receipts[j];
    var i: nat :| Optimal(rest, norm, p.did, i) && p.rec == rest[i];
    if r.did == p.did && Beats(r, p.rec, norm) {
      assert Optimal(receipts, norm, p.did, n);
    } else {
      assert Optimal(receipts, norm, p.did, i);
    }
  }

  lemma {:induction false} FirstIsOptimum(receipts: seq<Receipt>, norm: Vocabulary)
    requires receipts != []
    requires forall j :: 0 <= j < |receipts| - 1 ==> receipts[j].did != Last(receipts).did
    ensures HasOptimum(receipts, norm, Pick(Last(receipts).did, Last(receipts)))
  {
    assert Optimal(receipts, norm, Last(receipts).did, |receipts| - 1);
  }

  lemma {:induction false} FindCovered(best: seq<Pick>, did: string)
    ensures Covers(best, did) <==> Find(best, DidOf, did) < |best|
  {
  }

  ghost predicate Represents(best: seq<Pick>, receipts: seq<Receipt>, norm: Vocabulary) {
    && DistinctDids(best)
    && (forall k :: 0 <= k < |best| ==> HasOptimum(receipts, norm, best[k]))
    && (forall i :: 0 <= i < |receipts| ==> Covers(best, receipts[i].did))
  }

  lemma {:induction false} FoldCovers(before: seq<Pick>, r: Receipt, norm: Vocabulary)
    ensures Covers(Fold(before, r, norm), r.did)
    ensures forall did :: Covers(before, did) ==> Covers(Fold(before, r, norm), did)
  {
    var best := Fold(before, r, norm);
    assert best[Find(before, DidOf, r.did)].did == r.did;
    forall did | Covers(before, did) ensures Covers(best, did) {
      FindCovered(before, did);
      assert best[Find(before, DidOf, did)].did == did;
    }
  }

  lemma {:induction false} FoldKeepsOptima(before: seq<Pick>, receipts: seq<Receipt>, norm: Vocabulary)
    requires receipts != [] && Represents(before, Front(receipts), norm)
    ensures var best := Fold(before, Last(receipts), norm);
      forall k :: 0 <= k < |best| ==> HasOptimum(receipts, norm, best[k])
  {
    var r := Last(receipts);
    var best := Fold(before, r, norm);
    FindCovered(before, r.did);
    forall k | 0 <= k < |best| ensures HasOptimum(receipts, norm, best[k]) {
      if k < |before| {
        OptimumExtends(receipts, norm, before[k]);
      } else {
        assert forall j :: 0 <= j < |receipts| - 1 ==> Front(receipts)[j] == receipts[j];
        FirstIsOptimum(receipts, norm);
      }
    }
  }

  lemma {:induction false} FoldRepresents(before: seq<Pick>, receipts: seq<Receipt>, norm: Vocabulary)
    requires receipts != [] && Represents(before, Front(receipts), norm)
    ensures Represents(Fold(before, Last(receipts), norm), receipts, norm)
  {
    FoldDistinct(before, Last(receipts), norm);
    FoldKeepsOptima(before, receipts, norm);
    FoldCovers(before, Last(receipts), norm);
    var best := Fold(before, Last(receipts), norm);
    forall i | 0 <= i < |receipts| ensures Covers(best, receipts[i].did) {
      if i < |receipts| - 1 {
        assert receipts[i] == Front(receipts)[i];
      }
    }
  }

  lemma {:induction false} FoldDistinct(before: seq<Pick>, r: Receipt, norm: Vocabulary)
    requires DistinctDids(before)
    ensures DistinctDids(Fold(before, r, norm))
  {
  }

  /** The fold keeps exactly one pick per dispatch, the first of the lexicographic optima. */
  lemma {:induction false} BestIsOptimal(receipts: seq<Receipt>, norm: Vocabulary)
    ensures Represents(Best(receipts, norm), receipts, norm)
  {
    if receipts == [] {
    } else {
      BestIsOptimal(Front(receipts), norm);
      FoldRepresents(Best(Front(receipts), norm), receipts, norm);
    }
  }

  /** Fail-closed: the chosen outcome is failure exactly when some receipt of the dispatch is a
      failure, and success exactly when all of them are. */
  lemma {:induction false} FailClosed(receipts: seq<Receipt>, norm: Vocabulary, k: nat)
    requires k < |Best(receipts, norm)|
    ensures var p := Best(receipts, norm)[k];
      && (OutcomeOf(p.rec, norm) == Failure <==>
          exists i :: 0 <= i < |receipts| && receipts[i].did == p.did && OutcomeOf(receipts[i], norm) == Failure)
      && (OutcomeOf(p.rec, norm) == Success <==>
          forall i :: 0 <= i < |receipts| && receipts[i].did == p.did ==> OutcomeOf(receipts[i], norm) == Success)
  {
    BestIsOptimal(receipts, norm);
    var p := Best(receipts, norm)[k];
    assert HasOptimum(receipts, norm, p);
    var c: nat :| Optimal(receipts, norm, p.did, c) && p.rec == receipts[c];
  }

  /** Two optima of the same dispatch over the same receipts tie. */
  lemma {:induction false} OptimaTie(a: seq<Receipt>, b: seq<Receipt>, norm: Vocabulary, p: Pick, q: Pick)
    requires multiset(a) == multiset(b) && p.did == q.did
    requires HasOptimum(a, norm, p) && HasOptimum(b, norm, q)
    ensures OutcomeOf(p.rec, norm) == OutcomeOf(q.rec, norm) && p.rec.timestamp == q.rec.timestamp
  {
    var i: nat :| Optimal(a, norm, p.did, i) && p.rec == a[i];
    var j: nat :| Optimal(b, norm, q.did, j) && q.rec == b[j];
    assert a[i] in multiset(b) && b[j] in multiset(a);
    assert !Beats(p.rec, q.rec, norm) && !Beats(q.rec, p.rec, norm);
  }

  /** The order of the receipts decides neither the outcome nor the timestamp of a pick. */
  lemma {:induction false} FoldIsOrderIndependent(a: seq<Receipt>, b: seq<Receipt>, norm: Vocabulary, k: nat)
    requires multiset(a) == multiset(b) && k < |Best(a, norm)|
    ensures var p := Best(a, norm)[k];
      var j := Find(Best(b, norm), DidOf, p.did);
      && j < |Best(b, norm)|
      && OutcomeOf(Best(b, norm)[j].rec, norm) == OutcomeOf(p.rec, norm)
      && Best(b, norm)[j].rec.timestamp == p.rec.timestamp
  {
    BestIsOptimal(a, norm);
    BestIsOptimal(b, norm);
    var p := Best(a, norm)[k];
    var i: nat :| Optimal(a, norm, p.did, i) && p.rec == a[i];
    assert a[i] in multiset(b);
    FindCovered(Best(b, norm), p.did);
    OptimaTie(a, b, norm, p, Best(b, norm)[Find(Best(b, norm), DidOf, p.did)]);
  }

  // ------------------------------------------------------------------------------------------
  // The table
  // ------------------------------------------------------------------------------------------

  datatype Row = Row(
    did: string, project: string, terminal: string, track: string,
    outcome: Option<string>, reportPath: Option<string>, dispatchedAt: string, completedAt: Option<int>)

  /** A run's scope: one project, or the whole table when it has no project_id column. */
  datatype Scope = WholeTable | Project(id: string)

  predicate InScope(row: Row, scope: Scope) {
    scope.WholeTable? || row.project == scope.id
  }

  predicate Exists(rows: seq<Row>, scope: Scope, did: string) {
    exists k :: 0 <= k < |rows| && rows[k].did == did && InScope(rows[k], scope)
  }

  predicate IsOpen(row: Row, scope: Scope, did: string) {
    row.did == did && InScope(row, scope) && row.outcome.None?
  }

  predicate HasOpen(rows: seq<Row>, scope: Scope, did: string) {
    exists k :: 0 <= k < |rows| && IsOpen(rows[k], scope, did)
  }

  /** "unknown" is stored as NULL. */
  function Stored(o: Outcome): Option<string> {
    match o case Failure => Some("failure") case Success => Some("success") case Unknown => None
  }

  function OrUnknown(o: Option<string>): string {
    if o.None? then "unknown" else o.value
  }

  function NewRow(p: Pick, scope: Scope, now: string, norm: Vocabulary): Row {
    Row(p.did, if scope.Project? then scope.id else "", OrUnknown(p.rec.terminal), OrUnknown(p.rec.track),
        Stored(OutcomeOf(p.rec, norm)), p.rec.reportPath, now, p.rec.timestamp)
  }

  function Resolve(row: Row, rec: Receipt, norm: Vocabulary): Row {
    row.(outcome := Stored(OutcomeOf(rec, norm)), reportPath := rec.reportPath, completedAt := rec.timestamp)
  }

  /** UPDATE ... WHERE dispatch_id = did AND outcome_status IS NULL, within the scope. */
  function SetOutcome(rows: seq<Row>, scope: Scope, did: string, rec: Receipt, norm: Vocabulary): (r: seq<Row>)
    ensures |r| == |rows|
    ensures forall k :: 0 <= k < |rows| ==>
              r[k] == if IsOpen(rows[k], scope, did) then Resolve(rows[k], rec, norm) else rows[k]
  {
    seq(|rows|, k requires 0 <= k < |rows| =>
      if IsOpen(rows[k], scope, did) then Resolve(rows[k], rec, norm) else rows[k])
  }

  /** INSERT OR IGNORE: a row with the same key wins over the new one. */
  function InsertOrIgnore(rows: seq<Row>, scope: Scope, row: Row): seq<Row> {
    if Exists(rows, scope, row.did) then rows else rows + [row]
  }

  // What a run does to the table, row by row

  function Filled(row: Row, best: seq<Pick>, scope: Scope, norm: Vocabulary): Row {
    var i := Find(best, DidOf, row.did);
    if InScope(row, scope) && row.outcome.None? && i < |best| then Resolve(row, best[i].rec, norm) else row
  }

  function FilledAll(rows: seq<Row>, best: seq<Pick>, scope: Scope, norm: Vocabulary): (r: seq<Row>)
    ensures |r| == |rows| && forall k :: 0 <= k < |rows| ==> r[k] == Filled(rows[k], best, scope, norm)
  {
    seq(|rows|, k requires 0 <= k < |rows| => Filled(rows[k], best, scope, norm))
  }

  function NewRows(rows: seq<Row>, best: seq<Pick>, scope: Scope, now: string, norm: Vocabulary): (r: seq<Row>)
    ensures |r| <= |best|
  {
    if best == [] then []
    else NewRows(rows, Front(best), scope, now, norm) +
         (if Exists(rows, scope, Last(best).did) then [] else [NewRow(Last(best), scope, now, norm)])
  }

  function Applied(rows: seq<Row>, best: seq<Pick>, scope: Scope, now: string, norm: Vocabulary): seq<Row> {
    FilledAll(rows, best, scope, norm) + NewRows(rows, best, scope, now, norm)
  }

  datatype Action = Insert | UpdateOutcome | Skip

  function ActionOf(rows: seq<Row>, scope: Scope, did: string): Action {
    if !Exists(rows, scope, did) then Insert else if HasOpen(rows, scope, did) then UpdateOutcome else Skip
  }

  /** What one pick's action does to the table. */
  function Effect(rows: seq<Row>, p: Pick, action: Action, scope: Scope, now: string, norm: Vocabulary): seq<Row> {
    match action
    case Insert => rows + [NewRow(p, scope, now, norm)]
    case UpdateOutcome => SetOutcome(rows, scope, p.did, p.rec, norm)
    case Skip => rows
  }

  function CountActions(rows: seq<Row>, best: seq<Pick>, scope: Scope, action: Action): (n: nat)
    ensures n <= |best|
  {
    if best == [] then 0
    else CountActions(rows, Front(best), scope, action) +
         (if ActionOf(rows, scope, Last(best).did) == action then 1 else 0)
  }

  ghost predicate NonEmptyDids(best: seq<Pick>) {
    forall k :: 0 <= k < |best| ==> best[k].did != ""
  }

  // ------------------------------------------------------------------------------------------
  // Dry run and application
  // ------------------------------------------------------------------------------------------

  /** SELECT dispatch_id in scope; falsy ids are dropped. */
  function ExistingIds(rows: seq<Row>, scope: Scope): set<string> {
    set k | 0 <= k < |rows| && InScope(rows[k], scope) && rows[k].did != "" :: rows[k].did
  }

  function NullOutcomeIds(rows: seq<Row>, scope: Scope): set<string> {
    set k | 0 <= k < |rows| && InScope(rows[k], scope) && rows[k].outcome.None? && rows[k].did != "" :: rows[k].did
  }

  datatype Summary = Summary(receipts: nat, dispatches: nat, already: nat, toInsert: nat, toUpdate: nat,
                             actions: seq<(string, Action)>)

  datatype Counts = Counts(inserted: nat, updated: nat, skipped: nat)

  /** The loader keeps only receipts whose dispatch id is not empty. */
  ghost predicate Loaded(receipts: seq<Receipt>) {
    forall k :: 0 <= k < |receipts| ==> receipts[k].did != ""
  }

  lemma {:induction false} BestKeepsLoaded(receipts: seq<Receipt>, norm: Vocabulary)
    requires Loaded(receipts)
    ensures NonEmptyDids(Best(receipts, norm)) && DistinctDids(Best(receipts, norm))
  {
    BestIsOptimal(receipts, norm);
    var best := Best(receipts, norm);
    forall k | 0 <= k < |best| ensures best[k].did != "" {
      assert HasOptimum(receipts, norm, best[k]);
    }
  }

  function Tally(rows: seq<Row>, best: seq<Pick>, scope: Scope): Counts {
    Counts(CountActions(rows, best, scope, Insert), CountActions(rows, best, scope, UpdateOutcome),
           CountActions(rows, best, scope, Skip))
  }

  /** `counts[...] += 1` for the action taken. */
  function Count(c: Counts, action: Action): Counts {
    match action
    case Insert => c.(inserted := c.inserted + 1)
    case UpdateOutcome => c.(updated := c.updated + 1)
    case Skip => c.(skipped := c.skipped + 1)
  }

  lemma {:induction false} TallyStep(rows: seq<Row>, best: seq<Pick>, k: nat, scope: Scope)
    requires k < |best|
    ensures Tally(rows, best[..k
        + 1], scope) == Count(Tally(rows, best[..k], scope), ActionOf(rows, scope, best[k].did))
    ensures forall a :: CountActions(rows, best[..k + 1], scope, a) ==
                        CountActions(rows, best[..k], scope, a)
                            + if ActionOf(rows, scope, best[k].did) == a then 1 else 0
  {
    PrefixStep(best, k);
  }

  /** What a dry run says about a table and the picks. */
  ghost predicate Announces(s: Summary, rows: seq<Row>, best: seq<Pick>, scope: Scope) {
    && s.dispatches == |best|
    && s.toInsert == CountActions(rows, best, scope, Insert)
    && s.toUpdate == CountActions(rows, best, scope, UpdateOutcome)
    && s.already == |best| - s.toInsert
    && |s.actions| == |best|
    && forall k :: 0 <= k < |best| ==> s.actions[k] == (best[k].did, ActionOf(rows, scope, best[k].did))
  }

  class DispatchMetadata {
    var rows: seq<Row>

    constructor (rows: seq<Row>)
      ensures this.rows == rows
    {
      this.rows := rows;
    }

    /** The two id sets read before the loop. */
    method Snapshot(scope: Scope) returns (existing: set<string>, nullOutcome: set<string>)
      ensures forall did :: did != "" ==> (did in existing <==> Exists(rows, scope, did))
      ensures forall did :: did != "" ==> (did in nullOutcome <==> HasOpen(rows, scope, did))
    {
      existing, nullOutcome := ExistingIds(rows, scope), NullOutcomeIds(rows, scope);
    }

    /** `analyse`: reads the table, promises the counts. */
    method Analyse(receipts: seq<Receipt>, scope: Scope, norm: Vocabulary) returns (s: Summary)
      requires Loaded(receipts)
      ensures s.receipts == |receipts| && Announces(s, rows, Best(receipts, norm), scope)
    {
      var best := BestReceiptPerDispatch(receipts, norm);
      BestKeepsLoaded(receipts, norm);
      s := AnalysePicks(best, scope);
      s := s.(receipts := |receipts|);
    }

    method AnalysePicks(best: seq<Pick>, scope: Scope) returns (s: Summary)
      requires NonEmptyDids(best)
      ensures Announces(s, rows, best, scope)
    {
      var existing, nullOutcome := Snapshot(scope);
      var toInsert, toUpdate, actions, k := 0, 0, [], 0;
      while k < |best|
        invariant k <= |best| && |actions| == k
        invariant toInsert == CountActions(rows, best[..k], scope, Insert)
        invariant toUpdate == CountActions(rows, best[..k], scope, UpdateOutcome)
        invariant forall j :: 0 <= j < k ==> actions[j] == (best[j].did, ActionOf(rows, scope, best[j].did))
      {
        TallyStep(rows, best, k, scope);
        var did := best[k].did;
        var action := Skip;
        if did !in existing {
          action := Insert;
          toInsert := toInsert + 1;
        } else if did in nullOutcome {
          action := UpdateOutcome;
          toUpdate := toUpdate + 1;
        }
        actions := actions + [(did, action)];
        k := k + 1;
      }
      assert best[..k] == best;
      s := Summary(0, |best|, |best| - toInsert, toInsert, toUpdate, actions);
    }

    /** `apply_backfill`. */
    method ApplyBackfill(receipts: seq<Receipt>, scope: Scope, now: string, norm: Vocabulary) returns (counts: Counts)
      requires Loaded(receipts)
      modifies this
      ensures rows == Applied(old(rows), Best(receipts, norm), scope, now, norm)
      ensures counts == Tally(old(rows), Best(receipts, norm), scope)
    {
      var best := BestReceiptPerDispatch(receipts, norm);
      BestKeepsLoaded(receipts, norm);
      counts := ApplyPicks(best, scope, now, norm);
    }

    method ApplyPicks(best: seq<Pick>, scope: Scope, now: string, norm: Vocabulary) returns (counts: Counts)
      requires NonEmptyDids(best) && DistinctDids(best)
      modifies this
      ensures rows == Applied(old(rows), best, scope, now, norm)
      ensures counts == Tally(old(rows), best, scope)
    {
      ghost var was := rows;
      var existing, nullOutcome := Snapshot(scope);
      counts := Counts(0, 0, 0);
      var k := 0;
      assert rows == Applied(was, best[..0], scope, now, norm);
      while k < |best|
        invariant k <= |best|
        invariant rows == Applied(was, best[..k], scope, now, norm)
        invariant counts == Tally(was, best[..k], scope)
      {
        ApplyStep(was, best, k, scope, now, norm);
        var action := ApplyPick(best[k], best[k].did in existing, best[k].did in nullOutcome, scope, now, norm);
        TallyStep(was, best, k, scope);
        counts := Count(counts, action);
        k := k + 1;
      }
      assert best[..k] == best;
    }

    /** One pick; existing and nullOutcome are what the snapshots say about its dispatch. */
    method ApplyPick(p: Pick, existing: bool, nullOutcome: bool, scope: Scope, now: string, norm: Vocabulary)
      returns (action: Action)
      requires existing == Exists(rows, scope, p.did) && nullOutcome == HasOpen(rows, scope, p.did)
      modifies this
      ensures action == ActionOf(old(rows), scope, p.did)
      ensures rows == Effect(old(rows), p, action, scope, now, norm)
    {
      if !existing {
        rows := InsertOrIgnore(rows, scope, NewRow(p, scope, now, norm));
        action := Insert;
      } else if nullOutcome {
        var rowcountPositive := HasOpen(rows, scope, p.did);
        rows := SetOutcome(rows, scope, p.did, p.rec, norm);
        action := if rowcountPositive then UpdateOutcome else Skip;
      } else {
        action := Skip;
      }
    }
  }

  /** The picks before k left pick k's dispatch alone, so the snapshot taken at the start is still
      right about it, the UPDATE finds a row exactly when the snapshot says so, and no INSERT is
      ignored. */
  lemma {:induction false} ApplyStep(was: seq<Row>, best: seq<Pick>, k: nat, scope: Scope, now: string,
                                     norm: Vocabulary)
    requires DistinctDids(best) && k < |best|
    ensures var rows, p := Applied(was, best[..k], scope, now, norm), best[k];
      && Exists(rows, scope, p.did) == Exists(was, scope, p.did)
      && HasOpen(rows, scope, p.did) == HasOpen(was, scope, p.did)
      && ActionOf(rows, scope, p.did) == ActionOf(was, scope, p.did)
      && Applied(was, best[..k + 1], scope, now, norm) == Effect(rows, p, ActionOf(was, scope, p.did), scope, now, norm)
  {
    var p, done := best[k], best[..k];
    var filled, added := FilledAll(was, done, scope, norm), NewRows(was, done, scope, now, norm);
    var rows := filled + added;
    PrefixStep(best, k);
    NewRowsAreOthers(was, done, scope, now, norm, p.did);
    FilledStep(was, best, k, scope, norm);
    SameDispatch(was, filled, added, scope, p.did);
    SetOutcomeSplits(filled, added, scope, p.did, p.rec, norm);
    if !HasOpen(was, scope, p.did) {
      SetOutcomeNothing(rows, scope, p.did, p.rec, norm);
      SetOutcomeNothing(filled, scope, p.did, p.rec, norm);
    }
    if !Exists(was, scope, p.did) {
      assert filled + (added + [NewRow(p, scope, now, norm)]) == rows + [NewRow(p, scope, now, norm)];
    }
  }

  /** Filling for one more pick is that pick's UPDATE; its dispatch had been left alone. */
  lemma {:induction false} FilledStep(was: seq<Row>, best: seq<Pick>, k: nat, scope: Scope, norm: Vocabulary)
    requires DistinctDids(best) && k < |best|
    ensures var filled := FilledAll(was, best[..k], scope, norm);
      && (forall j :: 0 <= j < |was| ==> filled[j].did == was[j].did && filled[j].project == was[j].project)
      && (forall j :: 0 <= j < |was| && was[j].did == best[k].did ==> filled[j] == was[j])
      && FilledAll(was, best[..k + 1], scope, norm) == SetOutcome(filled, scope, best[k].did, best[k].rec, norm)
  {
    assert Find(best[..k], DidOf, best[k].did) == k;
    forall j | 0 <= j < |was|
      ensures Filled(was[j], best[..k + 1], scope, norm) ==
              if IsOpen(was[j], scope, best[k].did) then Resolve(was[j], best[k].rec, norm)
              else Filled(was[j], best[..k], scope, norm)
    {
      FindPrefix(best, k, was[j].did);
    }
  }

  lemma {:induction false} SetOutcomeSplits(a: seq<Row>, b: seq<Row>, scope: Scope, did: string, rec: Receipt,
                                            norm: Vocabulary)
    requires OtherDids(b, did)
    ensures SetOutcome(a + b, scope, did, rec, norm) == SetOutcome(a, scope, did, rec, norm) + b
  {
  }

  lemma {:induction false} SetOutcomeNothing(rows: seq<Row>, scope: Scope, did: string, rec: Receipt, norm: Vocabulary)
    requires !HasOpen(rows, scope, did)
    ensures SetOutcome(rows, scope, did, rec, norm) == rows
  {
  }

  lemma {:induction false} SameDispatch(was: seq<Row>, filled: seq<Row>, added: seq<Row>, scope: Scope, did: string)
    requires |was| == |filled| && OtherDids(added, did)
    requires forall j :: 0 <= j < |was| ==> filled[j].did == was[j].did && (was[j].did == did ==> filled[j] == was[j])
    ensures Exists(filled + added, scope, did) == Exists(was, scope, did)
    ensures HasOpen(filled + added, scope, did) == HasOpen(was, scope, did)
    ensures HasOpen(filled, scope, did) == HasOpen(was, scope, did)
  {
    var rows := filled + added;
    assert forall j :: |was| <= j < |rows| ==> rows[j] == added[j - |was|];
    if Exists(was, scope, did) {
      var j :| 0 <= j < |was| && was[j].did == did && InScope(was[j], scope);
      assert rows[j] == was[j];
    }
    if HasOpen(was, scope, did) {
      var j :| 0 <= j < |was| && IsOpen(was[j], scope, did);
      assert rows[j] == was[j] && filled[j] == was[j];
    }
  }

  lemma {:induction false} FindAppend(a: seq<Pick>, p: Pick, did: string)
    ensures Find(a + [p], DidOf, did) == if Find(a, DidOf, did) < |a| then Find(a, DidOf, did)
                                         else if p.did == did then |a| else |a| + 1
  {
    assert forall j :: 0 <= j < |a| ==> (a + [p])[j] == a[j];
    assert (a + [p])[|a|] == p;
  }

  lemma {:induction false} FindPrefix(best: seq<Pick>, k: nat, did: string)
    requires k < |best|
    ensures Find(best[..k + 1], DidOf, did) == if Find(best[..k], DidOf, did) < k then Find(best[..k], DidOf, did)
                                        else if best[k].did == did then k else k + 1
  {
    FindAppend(best[..k], best[k], did);
    assert best[..k + 1] == best[..k] + [best[k]];
  }

  ghost predicate OtherDids(rows: seq<Row>, did: string) {
    forall j :: 0 <= j < |rows| ==> rows[j].did != did
  }

  lemma {:induction false} NewRowsAreOthers(was: seq<Row>, best: seq<Pick>, scope: Scope, now: string,
                                            norm: Vocabulary, did: string)
    requires forall j :: 0 <= j < |best| ==> best[j].did != did
    ensures OtherDids(NewRows(was, best, scope, now, norm), did)
  {
    if best == [] {
    } else {
      NewRowsAreOthers(was, Front(best), scope, now, norm, did);
    }
  }

  // ------------------------------------------------------------------------------------------
  // What a run guarantees
  // ------------------------------------------------------------------------------------------

  /** The row is none of the run's: it has an outcome, belongs to another project, or no pick is of its
      dispatch. */
  ghost predicate OutOfReach(row: Row, best: seq<Pick>, scope: Scope) {
    || row.outcome.Some?
    || (scope.Project? && row.project != scope.id)
    || (forall i :: 0 <= i < |best| ==> best[i].did != row.did)
  }

  /** Never overwritten: every row stays in place, with its dispatch, project, terminal, track and time of
      dispatch; one that already has an outcome, belongs to another project or has no receipt is untouched. */
  lemma {:induction false} RunIsAdditive(rows: seq<Row>, best: seq<Pick>, scope: Scope, now: string, norm: Vocabulary,
                                         k: nat)
    requires k < |rows|
    ensures var after := Applied(rows, best, scope, now, norm);
      && |rows| <= |after|
      && after[k] == rows[k].(outcome := after[k].outcome, reportPath := after[k].reportPath,
                              completedAt := after[k].completedAt)
      && (OutOfReach(rows[k], best, scope) ==> after[k] == rows[k])
  {
    var i := Find(best, DidOf, rows[k].did);
    assert i < |best| ==> best[i].did == rows[k].did;
  }

  lemma {:induction false} NewRowsCount(rows: seq<Row>, best: seq<Pick>, scope: Scope, now: string, norm: Vocabulary)
    ensures |NewRows(rows, best, scope, now, norm)| == CountActions(rows, best, scope, Insert)
  {
    if best == [] {
    } else {
      NewRowsCount(rows, Front(best), scope, now, norm);
    }
  }

  /** Dry-run fidelity: on every table, what `analyse` announces is what `apply_backfill` counts, and
      the table grows by exactly the announced inserts. */
  lemma {:induction false} DryRunIsFaithful(s: Summary, rows: seq<Row>, best: seq<Pick>, scope: Scope, now: string,
                                            norm: Vocabulary)
    requires Announces(s, rows, best, scope)
    ensures var c := Tally(rows, best, scope);
      && c.inserted == s.toInsert && c.updated == s.toUpdate && c.inserted + c.updated + c.skipped == s.dispatches
      && |Applied(rows, best, scope, now, norm)| == |rows| + s.toInsert
  {
    NewRowsCount(rows, best, scope, now, norm);
    ActionsPartition(rows, best, scope);
  }

  lemma {:induction false} ActionsPartition(rows: seq<Row>, best: seq<Pick>, scope: Scope)
    ensures CountActions(rows, best, scope, Insert) + CountActions(rows, best, scope, UpdateOutcome)
            + CountActions(rows, best, scope, Skip) == |best|
  {
    if best == [] {
    } else {
      ActionsPartition(rows, Front(best), scope);
    }
  }

  lemma {:induction false} NewRowSource(rows: seq<Row>, best: seq<Pick>, scope: Scope, now: string, norm: Vocabulary,
                                        k: nat)
    returns (i: nat)
    requires k < |NewRows(rows, best, scope, now, norm)|
    ensures i < |best| && !Exists(rows, scope, best[i].did)
    ensures NewRows(rows, best, scope, now, norm)[k] == NewRow(best[i], scope, now, norm)
  {
    if k < |NewRows(rows, Front(best), scope, now, norm)| {
      i := NewRowSource(rows, Front(best), scope, now, norm, k);
    } else {
      i := |best| - 1;
    }
  }

  lemma {:induction false} NewRowTarget(rows: seq<Row>, best: seq<Pick>, scope: Scope, now: string, norm: Vocabulary,
                                        i: nat)
    returns (k: nat)
    requires i < |best| && !Exists(rows, scope, best[i].did)
    ensures k < |NewRows(rows, best, scope, now, norm)|
    ensures NewRows(rows, best, scope, now, norm)[k] == NewRow(best[i], scope, now, norm)
  {
    if i < |best| - 1 {
      k := NewRowTarget(rows, Front(best), scope, now, norm, i);
    } else {
      k := |NewRows(rows, Front(best), scope, now, norm)|;
    }
  }

  lemma {:induction false} FindIs(best: seq<Pick>, i: nat)
    requires DistinctDids(best) && i < |best|
    ensures Find(best, DidOf, best[i].did) == i
  {
  }

  /** Every dispatch with a receipt has a row after the run. */
  lemma {:induction false} RunCovers(rows: seq<Row>, best: seq<Pick>, scope: Scope, now: string, norm: Vocabulary,
                                     i: nat)
    requires i < |best|
    ensures Exists(Applied(rows, best, scope, now, norm), scope, best[i].did)
  {
    var after := Applied(rows, best, scope, now, norm);
    if Exists(rows, scope, best[i].did) {
      var k :| 0 <= k < |rows| && rows[k].did == best[i].did && InScope(rows[k], scope);
      assert after[k].did == best[i].did;
    } else {
      var k := NewRowTarget(rows, best, scope, now, norm, i);
      assert after[|rows| + k].did == best[i].did;
    }
  }

  lemma {:induction false} NoneNew(rows: seq<Row>, best: seq<Pick>, scope: Scope, now: string, norm: Vocabulary)
    requires forall i :: 0 <= i < |best| ==> Exists(rows, scope, best[i].did)
    ensures NewRows(rows, best, scope, now, norm) == []
  {
    if best == [] {
    } else {
      NoneNew(rows, Front(best), scope, now, norm);
      assert Last(best) == best[|best| - 1];
    }
  }

  /** Idempotence: a second application of the same receipts, at any later time, leaves the table
      as the first left it. */
  lemma {:induction false} RunIsIdempotent(rows: seq<Row>, best: seq<Pick>, scope: Scope, now: string, later: string,
                                           norm: Vocabulary)
    requires DistinctDids(best)
    ensures var once := Applied(rows, best, scope, now, norm);
      Applied(once, best, scope, later, norm) == once
  {
    var once := Applied(rows, best, scope, now, norm);
    forall i | 0 <= i < |best| ensures Exists(once, scope, best[i].did) {
      RunCovers(rows, best, scope, now, norm, i);
    }
    NoneNew(once, best, scope, later, norm);
    RowsStable(rows, best, scope, now, norm);
  }

  lemma {:induction false} FilledTwice(row: Row, best: seq<Pick>, scope: Scope, norm: Vocabulary)
    ensures Filled(Filled(row, best, scope, norm), best, scope, norm) == Filled(row, best, scope, norm)
  {
  }

  lemma {:induction false} NewRowStable(best: seq<Pick>, i: nat, scope: Scope, now: string, norm: Vocabulary)
    requires DistinctDids(best) && i < |best|
    ensures Filled(NewRow(best[i], scope, now, norm), best, scope, norm) == NewRow(best[i], scope, now, norm)
  {
  }

  lemma {:induction false} RowsStable(rows: seq<Row>, best: seq<Pick>, scope: Scope, now: string, norm: Vocabulary)
    requires DistinctDids(best)
    ensures var once := Applied(rows, best, scope, now, norm);
      FilledAll(once, best, scope, norm) == once
  {
    var once := Applied(rows, best, scope, now, norm);
    forall k | 0 <= k < |once| ensures Filled(once[k], best, scope, norm) == once[k] {
      if k < |rows| {
        FilledTwice(rows[k], best, scope, norm);
      } else {
        var i := NewRowSource(rows, best, scope, now, norm, k - |rows|);
        NewRowStable(best, i, scope, now, norm);
      }
    }
  }

  lemma {:induction false} OpenComesFrom(rows: seq<Row>, best: seq<Pick>, scope: Scope, now: string, norm: Vocabulary,
                                         i: nat, k: nat)
    requires DistinctDids(best) && i < |best|
    requires k < |Applied(rows, best, scope, now, norm)|
    requires IsOpen(Applied(rows, best, scope, now, norm)[k], scope, best[i].did)
    ensures ActionOf(rows, scope, best[i].did) != Skip && OutcomeOf(best[i].rec, norm) == Unknown
  {
    FindIs(best, i);
    if k < |rows| {
      assert IsOpen(rows[k], scope, best[i].did);
    } else {
      var j := NewRowSource(rows, best, scope, now, norm, k - |rows|);
      FindIs(best, j);
    }
  }

  lemma {:induction false} OpenRemains(rows: seq<Row>, best: seq<Pick>, scope: Scope, now: string, norm: Vocabulary,
                                       i: nat) returns (k: nat)
    requires DistinctDids(best) && i < |best|
    requires ActionOf(rows, scope, best[i].did) != Skip && OutcomeOf(best[i].rec, norm) == Unknown
    ensures k < |Applied(rows, best, scope, now, norm)|
    ensures IsOpen(Applied(rows, best, scope, now, norm)[k], scope, best[i].did)
  {
    FindIs(best, i);
    if ActionOf(rows, scope, best[i].did) == Insert {
      var j := NewRowTarget(rows, best, scope, now, norm, i);
      k := |rows| + j;
    } else {
      k :| 0 <= k < |rows| && IsOpen(rows[k], scope, best[i].did);
    }
  }

  /** Yet the second run reports work again, for exactly the dispatches that were open or absent and
      whose chosen outcome is unknown: NULL is written over NULL and counted. */
  lemma {:induction false} UnknownStaysOpen(rows: seq<Row>, best: seq<Pick>, scope: Scope, now: string,
                                            norm: Vocabulary, i: nat)
    requires DistinctDids(best) && i < |best|
    ensures ActionOf(Applied(rows, best, scope, now, norm), scope, best[i].did) ==
            if ActionOf(rows, scope, best[i].did) != Skip
                && OutcomeOf(best[i].rec, norm) == Unknown then UpdateOutcome else Skip
  {
    var once := Applied(rows, best, scope, now, norm);
    RunCovers(rows, best, scope, now, norm, i);
    if HasOpen(once, scope, best[i].did) {
      var k :| 0 <= k < |once| && IsOpen(once[k], scope, best[i].did);
      OpenComesFrom(rows, best, scope, now, norm, i, k);
    } else if ActionOf(rows, scope, best[i].did) != Skip && OutcomeOf(best[i].rec, norm) == Unknown {
      var k := OpenRemains(rows, best, scope, now, norm, i);
    }
  }

  /** A smallest instance that fails: one receipt of unknown outcome, inserted, then counted as an update. */
  lemma {:induction false} UnknownIsCountedAgain(p: Pick, scope: Scope, now: string, norm: Vocabulary)
    requires OutcomeOf(p.rec, norm) == Unknown
    ensures Tally([], [p], scope) == Counts(1, 0, 0)
    ensures Tally(Applied([], [p], scope, now, norm), [p], scope) == Counts(0, 1, 0)
  {
    assert Front([p]) == [] && [p][0] == p;
    UnknownStaysOpen([], [p], scope, now, norm, 0);
  }

  // From receipts to table

  ghost predicate SomeFailure(receipts: seq<Receipt>, did: string, norm: Vocabulary) {
    exists i :: 0 <= i < |receipts| && receipts[i].did == did && OutcomeOf(receipts[i], norm) == Failure
  }

  ghost predicate AllSucceed(receipts: seq<Receipt>, did: string, norm: Vocabulary) {
    forall i :: 0 <= i < |receipts| && receipts[i].did == did ==> OutcomeOf(receipts[i], norm) == Success
  }

  /** What a fail-closed table says about a dispatch: failure if any receipt failed, success only if
      all succeeded, and otherwise nothing. */
  ghost predicate SaysFailClosed(outcome: Option<string>, receipts: seq<Receipt>, did: string, norm: Vocabulary) {
    && (outcome == Some("failure") <==> SomeFailure(receipts, did, norm))
    && (outcome == Some("success") <==> AllSucceed(receipts, did, norm))
    && (outcome.None? || outcome == Some("failure") || outcome == Some("success"))
  }

  lemma {:induction false} PickSaysFailClosed(receipts: seq<Receipt>, norm: Vocabulary, i: nat)
    requires i < |Best(receipts, norm)|
    ensures var p := Best(receipts, norm)[i];
      SaysFailClosed(Stored(OutcomeOf(p.rec, norm)), receipts, p.did, norm)
  {
    FailClosed(receipts, norm, i);
    assert "failure" != "success";
  }

  lemma {:induction false} NewRowOutcome(rows: seq<Row>, best: seq<Pick>, scope: Scope, now: string, norm: Vocabulary,
                                         k: nat)
    requires DistinctDids(best) && k < |NewRows(rows, best, scope, now, norm)|
    ensures var row := NewRows(rows, best, scope, now, norm)[k];
      var at := Find(best, DidOf, row.did);
      at < |best| && row.outcome == Stored(OutcomeOf(best[at].rec, norm))
  {
    var j := NewRowSource(rows, best, scope, now, norm, k);
    FindIs(best, j);
  }

  lemma {:induction false} RowIsPicked(rows: seq<Row>, best: seq<Pick>, scope: Scope, now: string, norm: Vocabulary,
                                       k: nat)
    requires DistinctDids(best) && k < |Applied(rows, best, scope, now, norm)|
    requires k < |rows| ==> InScope(rows[k], scope) && rows[k].outcome.None?
    ensures var row := Applied(rows, best, scope, now, norm)[k];
      var at := Find(best, DidOf, row.did);
      at < |best| ==> row.outcome == Stored(OutcomeOf(best[at].rec, norm))
  {
    if k < |rows| {
      assert Applied(rows, best, scope, now, norm)[k] == Filled(rows[k], best, scope, norm);
    } else {
      NewRowOutcome(rows, best, scope, now, norm, k - |rows|);
    }
  }

  lemma {:induction false} ReceiptIsPicked(receipts: seq<Receipt>, norm: Vocabulary, i: nat)
    requires i < |receipts|
    ensures var best, did := Best(receipts, norm), receipts[i].did;
      var at := Find(best, DidOf, did);
      at < |best| && SaysFailClosed(Stored(OutcomeOf(best[at].rec, norm)), receipts, did, norm)
  {
    BestIsOptimal(receipts, norm);
    FindCovered(Best(receipts, norm), receipts[i].did);
    PickSaysFailClosed(receipts, norm, Find(Best(receipts, norm), DidOf, receipts[i].did));
  }

  /** The receipt a dispatch is filled from: none is worse, and of the equally bad ones it is the latest,
      the first among equals. */
  ghost predicate WorstLatest(receipts: seq<Receipt>, norm: Vocabulary, did: string, c: nat) {
    && c < |receipts| && receipts[c].did == did
    && forall j :: 0 <= j < |receipts| && receipts[j].did == did ==>
         && (norm(receipts[j].status) == Failure ==> norm(receipts[c].status) == Failure)
         && (norm(receipts[c].status) == Success ==> norm(receipts[j].status) == Success)
         && (norm(receipts[j].status) == norm(receipts[c].status) ==>
               if j < c then Before(receipts[j].timestamp, receipts[c].timestamp)
               else !Before(receipts[c].timestamp, receipts[j].timestamp))
  }

  /** A missing timestamp comes before every other. */
  ghost predicate Before(t: Option<int>, u: Option<int>) {
    match (t, u)
    case (None, Some(_)) => true
    case (Some(x), Some(y)) => x < y
    case (_, None) => false
  }

  lemma {:induction false} OptimalIsWorstLatest(receipts: seq<Receipt>, norm: Vocabulary, did: string, c: nat)
    requires Optimal(receipts, norm, did, c)
    ensures WorstLatest(receipts, norm, did, c)
  {
    forall j | 0 <= j < |receipts| && receipts[j].did == did
      ensures norm(receipts[j].status) == Failure ==> norm(receipts[c].status) == Failure
      ensures norm(receipts[c].status) == Success ==> norm(receipts[j].status) == Success
      ensures norm(receipts[j].status) == norm(receipts[c].status) ==>
                if j < c then Before(receipts[j].timestamp, receipts[c].timestamp)
                else !Before(receipts[c].timestamp, receipts[j].timestamp)
    {
      assert !Beats(receipts[j], receipts[c], norm);
      assert j < c ==> Beats(receipts[c], receipts[j], norm);
    }
  }

  lemma {:induction false} PickSource(receipts: seq<Receipt>, norm: Vocabulary, at: nat) returns (c: nat)
    requires at < |Best(receipts, norm)|
    ensures WorstLatest(receipts, norm, Best(receipts, norm)[at].did, c)
    ensures Best(receipts, norm)[at].rec == receipts[c]
  {
    var p := Best(receipts, norm)[at];
    BestIsOptimal(receipts, norm);
    assert HasOptimum(receipts, norm, p);
    c :| Optimal(receipts, norm, p.did, c) && p.rec == receipts[c];
    OptimalIsWorstLatest(receipts, norm, p.did, c);
  }

  /** What the run takes from a receipt. */
  ghost predicate TakenFrom(row: Row, rec: Receipt, norm: Vocabulary) {
    && row.reportPath == rec.reportPath && row.completedAt == rec.timestamp
    && row.outcome == match norm(rec.status)
                      case Failure => Some("failure")
                      case Success => Some("success")
                      case Unknown => None
  }

  /** A row the run inserts holds this besides. */
  ghost predicate InsertedFrom(row: Row, rec: Receipt, scope: Scope, now: string) {
    && row.did == rec.did && row.dispatchedAt == now
    && row.terminal == (if rec.terminal.Some? then rec.terminal.value else "unknown")
    && row.track == (if rec.track.Some? then rec.track.value else "unknown")
    && (scope.Project? ==> row.project == scope.id)
  }

  /** Every open row of the scope whose dispatch has a receipt is filled from the worst and latest of its
      receipts. */
  lemma {:induction false} OpenRowIsFilledFrom(rows: seq<Row>, receipts: seq<Receipt>, scope: Scope, now: string,
                                               norm: Vocabulary, k: nat, i: nat) returns (c: nat)
    requires k < |rows| && i < |receipts| && rows[k].did == receipts[i].did
    requires rows[k].outcome.None? && (scope.Project? ==> rows[k].project == scope.id)
    ensures WorstLatest(receipts, norm, rows[k].did, c)
    ensures TakenFrom(Applied(rows, Best(receipts, norm), scope, now, norm)[k], receipts[c], norm)
  {
    var best := Best(receipts, norm);
    ReceiptIsPicked(receipts, norm, i);
    c := PickSource(receipts, norm, Find(best, DidOf, rows[k].did));
    assert Applied(rows, best, scope, now, norm)[k] == Filled(rows[k], best, scope, norm);
  }

  /** And so is every row the run inserts. */
  lemma {:induction false} NewRowIsFilledFrom(rows: seq<Row>, receipts: seq<Receipt>, scope: Scope, now: string,
                                              norm: Vocabulary, k: nat) returns (c: nat)
    requires |rows| <= k < |Applied(rows, Best(receipts, norm), scope, now, norm)|
    ensures var row := Applied(rows, Best(receipts, norm), scope, now, norm)[k];
      && WorstLatest(receipts, norm, row.did, c)
      && TakenFrom(row, receipts[c], norm) && InsertedFrom(row, receipts[c], scope, now)
  {
    var best := Best(receipts, norm);
    var at := NewRowSource(rows, best, scope, now, norm, k - |rows|);
    c := PickSource(receipts, norm, at);
  }

  /** End to end: after a run every row of the scope whose dispatch has a receipt and that the run filled
      or inserted says what the receipts say, fail-closed; only outcomes already there may say else. */
  lemma {:induction false} TableIsFailClosed(rows: seq<Row>, receipts: seq<Receipt>, scope: Scope, now: string,
                                             norm: Vocabulary, k: nat, i: nat)
    requires Loaded(receipts) && i < |receipts|
    requires k < |Applied(rows, Best(receipts, norm), scope, now, norm)|
    requires var row := Applied(rows, Best(receipts, norm), scope, now, norm)[k];
      row.did == receipts[i].did && (k < |rows| ==> InScope(rows[k], scope) && rows[k].outcome.None?)
    ensures SaysFailClosed(Applied(rows, Best(receipts, norm), scope, now, norm)[k].outcome, receipts, receipts[i].did,
        norm)
  {
    BestKeepsLoaded(receipts, norm);
    RowIsPicked(rows, Best(receipts, norm), scope, now, norm, k);
    ReceiptIsPicked(receipts, norm, i);
  }
}
