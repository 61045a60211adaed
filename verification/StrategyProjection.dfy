/** The wave projection of a roadmap file (scripts/build_strategy_projection.py). */
module StrategyProjection {
  import opened Common
  import opened Sorting

  datatype Status = Completed | Planned | InProgress | Deferred | Cancelled

  datatype Feature = Feature(id: string, status: string, milestone: Option<string>, dependsOn: seq<string>)

  datatype Wave = Wave(id: string, status: Status, phase: int, dependsOn: seq<string>)

  /** `_map_status`: an unknown status counts as planned. */
  function MapStatus(raw: string): Status {
    if raw == "done" || raw == "shipped-dark" || raw == "merged" then Completed
    else if raw == "in_progress" then InProgress
    else if raw == "deferred" then Deferred
    else if raw == "cancelled" then Cancelled
    else Planned
  }

  /** `_resolve_phase_id`: no or an unknown milestone means the last phase. */
  function PhaseOf(milestone: Option<string>): (p: int)
    ensures 1 <= p <= 5
  {
    if milestone == Some("1.0") then 1
    else if milestone == Some("1.0.1") then 2
    else if milestone == Some("1.1") then 3
    else if milestone == Some("1.2") then 4
    else 5
  }

  function NonEmpty(ids: seq<string>): seq<string> {
    if ids == [] then [] else NonEmpty(Front(ids)) + (if Last(ids) != "" then [Last(ids)] else [])
  }

  function ToWave(f: Feature): (w: Wave)
    ensures w.id == f.id && 1 <= w.phase <= 5
  {
    Wave(f.id, MapStatus(f.status), PhaseOf(f.milestone), NonEmpty(f.dependsOn))
  }

  /** One wave for each feature that has an id. */
  function Waves(features: seq<Feature>): (ws: seq<Wave>)
    ensures forall i :: 0 <= i < |ws| ==> 1 <= ws[i].phase <= 5
  {
    if features == [] then []
    else Waves(Front(features)) + (if Last(features).id != "" then [ToWave(Last(features))] else [])
  }

  ghost function HasId(): Feature -> bool {
    (f: Feature) => f.id != ""
  }

  ghost function IsGiven(): string -> bool {
    (id: string) => id != ""
  }

  /** What becomes of a feature: which statuses count as completed and which milestones make a phase. */
  lemma {:induction false} WaveIs(f: Feature)
    ensures var w := ToWave(f);
      && w.id == f.id && w.dependsOn == Filter(f.dependsOn, IsGiven(), Itself)
      && (w.status == Completed <==> f.status in ["done", "shipped-dark", "merged"])
      && (w.status == InProgress <==> f.status == "in_progress")
      && (w.status == Deferred <==> f.status == "deferred")
      && (w.status == Cancelled <==> f.status == "cancelled")
      && (w.phase < 5 ==> f.milestone == Some(["1.0", "1.0.1", "1.1", "1.2"][w.phase - 1]))
      && (f.milestone.Some? && f.milestone.value in ["1.0", "1.0.1", "1.1", "1.2"] ==> w.phase < 5)
  {
    NonEmptyIs(f.dependsOn);
  }

  lemma {:induction false} NonEmptyIs(ids: seq<string>)
    ensures NonEmpty(ids) == Filter(ids, IsGiven(), Itself)
  {
    if ids == [] {
    } else {
      NonEmptyIs(Front(ids));
    }
  }

  /** The waves are those of the features with an id, in order. */
  lemma {:induction false} WavesAre(features: seq<Feature>)
    ensures Waves(features) == Filter(features, HasId(), ToWave)
  {
    if features == [] {
    } else {
      WavesAre(Front(features));
    }
  }

  // ------------------------------------------------------------------------------------------
  // The sort key
  // ------------------------------------------------------------------------------------------

  /** The dict {wave_id: status}: the last wave of an id wins. */
  function StatusOf(ws: seq<Wave>, id: string): Option<Status> {
    if ws == [] then None else if Last(ws).id == id then Some(Last(ws).status) else StatusOf(Front(ws), id)
  }

  function Unmet(deps: seq<string>, ws: seq<Wave>): (n: nat)
    ensures n <= |deps|
  {
    if deps == [] then 0
    else Unmet(Front(deps), ws) + (if StatusOf(ws, Last(deps)) == Some(Completed) then 0 else 1)
  }

  /** The last wave with that id has that status. */
  ghost predicate LastHas(ws: seq<Wave>, id: string, st: Status) {
    exists i :: && 0 <= i < |ws| && ws[i].id == id && ws[i].status == st
                && forall j :: i < j < |ws| ==> ws[j].id != id
  }

  ghost function IsUnmet(ws: seq<Wave>): string -> bool {
    (id: string) => !LastHas(ws, id, Completed)
  }

  /** The last wave of an id decides its status. */
  lemma {:induction false} StatusOfIs(ws: seq<Wave>, id: string, st: Status)
    ensures StatusOf(ws, id) == Some(st) <==> LastHas(ws, id, st)
  {
    if ws == [] {
    } else {
      StatusOfIs(Front(ws), id, st);
      assert forall j :: 0 <= j < |ws| - 1 ==> Front(ws)[j] == ws[j];
      assert ws[|ws| - 1] == Last(ws);
    }
  }

  /** The number of dependencies whose last wave is missing or not completed, each counted as often as it
      is listed. */
  lemma {:induction false} UnmetIs(deps: seq<string>, ws: seq<Wave>)
    ensures Unmet(deps, ws) == |Filter(deps, IsUnmet(ws), Itself)|
  {
    if deps == [] {
    } else {
      UnmetIs(Front(deps), ws);
      StatusOfIs(ws, Last(deps), Completed);
    }
  }

  datatype Key = Key(prio: int, unmet: int, phase: int, total: int)

  predicate Less(a: Key, b: Key) {
    || a.prio < b.prio
    || (a.prio == b.prio && (|| a.unmet < b.unmet
                             || (a.unmet == b.unmet && (|| a.phase < b.phase
                                                        || (a.phase == b.phase && a.total < b.total)))))
  }

  function Prio(s: Status): int {
    if s == Completed then 0 else if s == Planned then 1 else 2
  }

  /** `_dep_sort_key`. */
  function KeyOf(w: Wave, all: seq<Wave>): Key {
    Key(Prio(w.status), Unmet(w.dependsOn, all), w.phase, |w.dependsOn|)
  }

  /** `waves.sort(key=_dep_sort_key)` compares keys. */
  function ByKey(all: seq<Wave>): (Wave, Wave) -> bool {
    (a, b) => Less(KeyOf(a, all), KeyOf(b, all))
  }

  function Sorted(ws: seq<Wave>): seq<Wave> {
    Sort(ws, ByKey(ws))
  }

  lemma {:induction false} KeysOrder(all: seq<Wave>)
    ensures WeakOrder(ByKey(all))
  {
  }

  /** The waves with one key, in order. */
  function OfKey(s: seq<Wave>, k: Key, all: seq<Wave>): seq<Wave> {
    Among(s, w => KeyOf(w, all) == k)
  }

  /** The projected wave list is a stable sorted permutation of the features' waves. */
  lemma {:induction false} SortedIsStableSort(ws: seq<Wave>)
    ensures multiset(Sorted(ws)) == multiset(ws)
    ensures Ordered(Sorted(ws), ByKey(ws))
    ensures forall k :: OfKey(Sorted(ws), k, ws) == OfKey(ws, k, ws)
  {
    KeysOrder(ws);
    SortKeeps(ws, ByKey(ws));
    SortOrders(ws, ByKey(ws));
    forall k ensures OfKey(Sorted(ws), k, ws) == OfKey(ws, k, ws) {
      SortKeepsClass(ws, w => KeyOf(w, ws) == k, ByKey(ws));
    }
  }

  /** Completed waves come first, then the planned ones, then the rest. */
  ghost predicate InBands(s: seq<Wave>) {
    forall i, j :: 0 <= i < j < |s| ==>
      && (s[j].status == Completed ==> s[i].status == Completed)
      && (s[j].status == Planned ==> s[i].status == Completed || s[i].status == Planned)
  }

  lemma {:induction false} SortedIsInBands(ws: seq<Wave>)
    ensures InBands(Sorted(ws))
  {
    SortedIsStableSort(ws);
    var s := Sorted(ws);
    forall i, j | 0 <= i < j < |s| ensures Prio(s[i].status) <= Prio(s[j].status) {
      assert !Less(KeyOf(s[j], ws), KeyOf(s[i], ws));
    }
  }

  // ------------------------------------------------------------------------------------------
  // The next actionable wave
  // ------------------------------------------------------------------------------------------

  ghost predicate DistinctIds(ws: seq<Wave>) {
    forall i, j :: 0 <= i < j < |ws| ==> ws[i].id != ws[j].id
  }

  predicate Actionable(w: Wave, ws: seq<Wave>) {
    w.status == Planned && forall k :: 0 <= k < |w.dependsOn| ==> StatusOf(ws, w.dependsOn[k]) == Some(Completed)
  }

  /** `next_actionable_wave`: the first planned wave whose dependencies are all completed. A projected
      wave is blocked on nothing else. */
  function NextActionable(ws: seq<Wave>, from: seq<Wave>): Option<Wave> {
    if from == [] then None else if Actionable(from[0], ws) then Some(from[0]) else NextActionable(ws, from[1..])
  }

  lemma {:induction false} StatusOfUnique(ws: seq<Wave>, i: nat)
    requires DistinctIds(ws) && i < |ws|
    ensures StatusOf(ws, ws[i].id) == Some(ws[i].status)
  {
    if i < |ws| - 1 {
      StatusOfUnique(Front(ws), i);
    }
  }

  lemma {:induction false} PermutedIds(a: seq<Wave>, b: seq<Wave>)
    requires multiset(a) == multiset(b) && DistinctIds(a)
    ensures DistinctIds(b)
  {
    forall i, j | 0 <= i < j < |b| ensures b[i].id != b[j].id {
      AtMostOnce(a, b[j]);
      assert b == b[..j] + [b[j]] + b[j + 1..];
      assert multiset(b[..j])[b[j]] == 0;
      assert b[i] == b[..j][i] && b[i] in b[..j];
      OneWavePerId(a, b[i], b[j]);
    }
  }

  lemma {:induction false} OneWavePerId(ws: seq<Wave>, x: Wave, y: Wave)
    requires DistinctIds(ws) && x in multiset(ws) && y in multiset(ws)
    ensures x.id == y.id ==> x == y
  {
  }

  lemma {:induction false} AtMostOnce(a: seq<Wave>, x: Wave)
    requires DistinctIds(a)
    ensures multiset(a)[x] <= 1
  {
    if a == [] {
    } else {
      AtMostOnce(Front(a), x);
      assert a == Front(a) + [Last(a)];
      assert forall i :: 0 <= i < |a| - 1 ==> Front(a)[i].id != Last(a).id;
    }
  }

  // Which ids count as completed

  /** Some wave carries the id, and only completed ones do. */
  ghost predicate Settled(ws: seq<Wave>, id: string) {
    (exists i :: 0 <= i < |ws| && ws[i].id == id) && forall i :: 0 <= i < |ws| && ws[i].id == id ==> IsCompleted(ws[i])
  }

  predicate IsCompleted(w: Wave) {
    w.status == Completed
  }

  lemma {:induction false} SettledAppend(s: seq<Wave>, w: Wave, id: string)
    ensures w.id != id ==> (Settled(s + [w], id) <==> Settled(s, id))
    ensures w.id == id ==> (Settled(s + [w], id) <==>
        IsCompleted(w) && forall i :: 0 <= i < |s| && s[i].id == id ==> IsCompleted(s[i]))
  {
    var t := s + [w];
    assert forall i :: 0 <= i < |s| ==> t[i] == s[i];
    assert t[|s|] == w;
  }

  /** In a list with the completed waves first, the last wave of an id is completed only if all are. */
  lemma {:induction false} StatusOfAscending(s: seq<Wave>, id: string)
    requires InBands(s)
    ensures StatusOf(s, id) == Some(Completed) <==> Settled(s, id)
  {
    if s == [] {
    } else {
      StatusOfAscending(Front(s), id);
      SettledAppend(Front(s), Last(s), id);
      assert s == Front(s) + [Last(s)];
      assert forall i :: 0 <= i < |s| - 1 && IsCompleted(s[|s| - 1]) ==> IsCompleted(s[i]);
    }
  }

  lemma {:induction false} SettledInAnyOrder(a: seq<Wave>, b: seq<Wave>, id: string)
    requires multiset(a) == multiset(b) && Settled(a, id)
    ensures Settled(b, id)
  {
    var i :| 0 <= i < |a| && a[i].id == id;
    assert a[i] in multiset(b);
    forall j | 0 <= j < |b| && b[j].id == id ensures IsCompleted(b[j]) {
      assert b[j] in multiset(a);
    }
  }

  /** For any ids, repeated or not: in the projection an id counts as completed if and only if some wave of
      the file carries it and all that do are completed. */
  lemma {:induction false} CompletedAfterSortIff(ws: seq<Wave>, id: string)
    ensures StatusOf(Sorted(ws), id) == Some(Completed) <==> Settled(ws, id)
  {
    SortedIsStableSort(ws);
    SortedIsInBands(ws);
    StatusOfAscending(Sorted(ws), id);
    if Settled(ws, id) {
      SettledInAnyOrder(ws, Sorted(ws), id);
    }
    if Settled(Sorted(ws), id) {
      SettledInAnyOrder(Sorted(ws), ws, id);
    }
  }

  /** A planned wave whose dependencies are all settled in the file. */
  ghost predicate Ready(w: Wave, ws: seq<Wave>) {
    w.status == Planned && forall k :: 0 <= k < |w.dependsOn| ==> Settled(ws, w.dependsOn[k])
  }

  lemma {:induction false} ActionableIffReady(w: Wave, ws: seq<Wave>)
    ensures Actionable(w, Sorted(ws)) <==> Ready(w, ws)
  {
    forall k | 0 <= k < |w.dependsOn|
      ensures StatusOf(Sorted(ws), w.dependsOn[k]) == Some(Completed) <==> Settled(ws, w.dependsOn[k])
    {
      CompletedAfterSortIff(ws, w.dependsOn[k]);
    }
  }

  /** Waves that share an id are completed together or not at all, as where ids are unique. */
  ghost predicate AgreeingIds(ws: seq<Wave>) {
    forall i, j :: 0 <= i < j < |ws| && ws[i].id == ws[j].id ==> (IsCompleted(ws[i]) <==> IsCompleted(ws[j]))
  }

  lemma {:induction false} AgreeingStatus(ws: seq<Wave>, id: string)
    requires AgreeingIds(ws)
    ensures StatusOf(ws, id) == Some(Completed) <==> Settled(ws, id)
  {
    if ws == [] {
    } else {
      AgreeingStatus(Front(ws), id);
      SettledAppend(Front(ws), Last(ws), id);
      assert ws == Front(ws) + [Last(ws)];
      assert forall i :: 0 <= i < |ws| - 1 && ws[i].id == Last(ws).id ==> (IsCompleted(ws[i]) <==>
          IsCompleted(ws[|ws| - 1]));
    }
  }

  lemma {:induction false} UnmetZero(deps: seq<string>, ws: seq<Wave>)
    ensures Unmet(deps, ws) == 0 <==> forall k :: 0 <= k < |deps| ==> StatusOf(ws, deps[k]) == Some(Completed)
  {
    if deps == [] {
    } else {
      UnmetZero(Front(deps), ws);
      assert forall k :: 0 <= k < |deps| - 1 ==> Front(deps)[k] == deps[k];
      assert deps[|deps| - 1] == Last(deps);
    }
  }

  lemma {:induction false} NextFrom(ws: seq<Wave>, from: seq<Wave>, p: nat)
    requires p < |from| && Actionable(from[p], ws) && forall i :: 0 <= i < p ==> !Actionable(from[i], ws)
    ensures NextActionable(ws, from) == Some(from[p])
  {
    if p > 0 {
      assert from[1..][p - 1] == from[p];
      NextFrom(ws, from[1..], p - 1);
    }
  }

  lemma {:induction false} NextNone(ws: seq<Wave>, from: seq<Wave>)
    requires forall i :: 0 <= i < |from| ==> !Actionable(from[i], ws)
    ensures NextActionable(ws, from) == None
  {
    if from == [] {
    } else {
      NextNone(ws, from[1..]);
    }
  }

  lemma {:induction false} ActionableAfterSort(w: Wave, ws: seq<Wave>)
    requires AgreeingIds(ws)
    ensures Actionable(w, Sorted(ws)) <==> w.status == Planned && KeyOf(w, ws).unmet == 0
  {
    ActionableIffReady(w, ws);
    UnmetZero(w.dependsOn, ws);
    forall k | 0 <= k < |w.dependsOn|
      ensures StatusOf(ws, w.dependsOn[k]) == Some(Completed) <==> Settled(ws, w.dependsOn[k])
    {
      AgreeingStatus(ws, w.dependsOn[k]);
    }
  }

  ghost predicate FirstPlanned(s: seq<Wave>, p: nat) {
    p < |s| && s[p].status == Planned && forall i :: 0 <= i < p ==> s[i].status != Planned
  }

  /** For any ids: the first planned wave of the projection is actionable exactly when some wave is, if and
      only if it is ready in the file or no wave of the file is. */
  lemma {:induction false} FirstPlannedDecidesIff(ws: seq<Wave>, p: nat)
    requires FirstPlanned(Sorted(ws), p)
    ensures var s := Sorted(ws);
      (Actionable(s[p], s) <==> exists i :: 0 <= i < |s| && Actionable(s[i], s)) <==>
      (Ready(s[p], ws) || forall i :: 0 <= i < |ws| ==> !Ready(ws[i], ws))
  {
    var s := Sorted(ws);
    SortedIsStableSort(ws);
    forall i | 0 <= i < |s| ensures Actionable(s[i], s) <==> Ready(s[i], ws) {
      ActionableIffReady(s[i], ws);
    }
    if i :| 0 <= i < |s| && Actionable(s[i], s) {
      assert s[i] in multiset(ws);
      var j :| 0 <= j < |ws| && ws[j] == s[i];
      assert Ready(ws[j], ws);
    }
    if j :| 0 <= j < |ws| && Ready(ws[j], ws) {
      assert ws[j] in multiset(s);
      var i :| 0 <= i < |s| && s[i] == ws[j];
      assert Actionable(s[i], s);
    }
  }

  /** With unique or agreeing ids: the first planned wave of the projection is actionable exactly when some
      planned wave is; it is then the one next_actionable_wave returns, and no actionable wave has a
      smaller key. */
  lemma {:induction false} FirstPlannedIsNext(ws: seq<Wave>, p: nat)
    requires AgreeingIds(ws) && FirstPlanned(Sorted(ws), p)
    ensures var s := Sorted(ws);
      && (Actionable(s[p], s) <==> exists i :: 0 <= i < |s| && Actionable(s[i], s))
      && NextActionable(s, s) == (if Actionable(s[p], s) then Some(s[p]) else None)
      && forall i :: 0 <= i < |s| && Actionable(s[i], s) ==> !Less(KeyOf(s[i], ws), KeyOf(s[p], ws))
  {
    var s := Sorted(ws);
    SortedIsStableSort(ws);
    forall i | 0 <= i < |s|
      ensures Actionable(s[i], s) ==> i >= p && Actionable(s[p], s) && !Less(KeyOf(s[i], ws), KeyOf(s[p], ws))
    {
      ActionableAfterSort(s[i], ws);
      ActionableAfterSort(s[p], ws);
      if Actionable(s[i], s) && i > p {
        assert !Less(KeyOf(s[i], ws), KeyOf(s[p], ws));
      }
    }
    if Actionable(s[p], s) {
      NextFrom(s, s, p);
    } else {
      NextNone(s, s);
    }
  }

  /** Agreeing ids are needed, though only until the projection is written, as writing it rejects repeated
      ids (validate_roadmap): when one id is used twice, the sort reads the status of its last use in the
      file and next_actionable_wave that of its last use after sorting, so the first planned wave may
      be stuck while another is not. */
  lemma {:induction false} DuplicateIdsMislead()
    ensures var b, done, a := Wave("b", Planned, 5, []), Wave("b", Completed, 5, []), Wave("a", Planned, 1, ["b"]);
      var s := Sorted([b, done, a]);
      s == [done, a, b] && !Actionable(s[1], s) && NextActionable(s, s) == Some(b)
  {
    var b, done, a := Wave("b", Planned, 5, []), Wave("b", Completed, 5, []), Wave("a", Planned, 1, ["b"]);
    var ws, s := [b, done, a], [done, a, b];
    assert a.id != "b";
    assert Front(ws) == [b, done] && Front([b, done]) == [b] && Front([b]) == [];
    assert Front(["b"]) == [];
    assert StatusOf([b, done], "b") == Some(Completed) && StatusOf(ws, "b") == Some(Completed);
    assert KeyOf(b, ws) == Key(1, 0, 5, 0) && KeyOf(done, ws) == Key(0, 0, 5, 0) && KeyOf(a, ws) == Key(1, 0, 1, 1);
    var order := ByKey(ws);
    assert Sort([b], order) == [b];
    assert Sort([b, done], order) == [done, b] by {
      assert Insert([b], done, order) == Insert([], done, order) + [b];
    }
    assert Insert([done, b], a, order) == [done, a, b] by {
      assert Front([done, b]) == [done];
      assert Insert([done], a, order) == [done, a];
    }
    assert StatusOf(s, "b") == Some(Planned);
    assert a.dependsOn[0] == "b";
    NextFrom(s, s, 2);
  }

  // ------------------------------------------------------------------------------------------
  // Which order the sort imposes
  // ------------------------------------------------------------------------------------------

  ghost predicate Precedes(x: Key, i: int, y: Key, j: int) {
    Less(x, y) || (!Less(y, x) && i < j)
  }

  /** The order of any two waves: by key, and by their place in the file when the keys are equal. */
  lemma {:induction false} SortedPlaces(ws: seq<Wave>, i: nat, j: nat)
    requires DistinctIds(ws) && i < |ws| && j < |ws| && i != j
    ensures Before(Sorted(ws), ws[i], ws[j]) <==> Precedes(KeyOf(ws[i], ws), i, KeyOf(ws[j], ws), j)
  {
    KeysOrder(ws);
    SortPlaces(ws, ByKey(ws), i, j);
  }

  ghost predicate ReadyFirst(x: Wave, i: int, y: Wave, j: int) {
    || x.phase < y.phase
    || (x.phase == y.phase && (|x.dependsOn| < |y.dependsOn| || (|x.dependsOn| == |y.dependsOn| && i < j)))
  }

  /** What the sort is for: a wave that can start precedes every planned wave that cannot, and of two
      that can the one of the earlier phase comes first, then the one with fewer dependencies. */
  lemma {:induction false} ReadyWavesSurface(ws: seq<Wave>, i: nat, j: nat)
    requires DistinctIds(ws) && i < |ws| && j < |ws| && i != j
    requires Actionable(ws[i], Sorted(ws)) && ws[j].status == Planned
    ensures Before(Sorted(ws), ws[i], ws[j]) <==> !Actionable(ws[j], Sorted(ws)) || ReadyFirst(ws[i], i, ws[j], j)
  {
    SortedPlaces(ws, i, j);
    ActionableAfterSort(ws[i], ws);
    ActionableAfterSort(ws[j], ws);
  }

  /** x is no later than y by unmet dependencies, then by phase, then by number of dependencies. */
  ghost predicate InOrder(x: Wave, y: Wave, ws: seq<Wave>) {
    var m, n := Unmet(x.dependsOn, ws), Unmet(y.dependsOn, ws);
    m < n || (m == n && (x.phase < y.phase || (x.phase == y.phase && |x.dependsOn| <= |y.dependsOn|)))
  }

  // Planned waves

  ghost predicate DependsOnPlanned(w: Wave, d: Wave) {
    w.status == Planned && d.status == Planned && d.id in w.dependsOn
  }

  /** What the sort key's description promises: planned waves follow the planned waves they depend on. */
  ghost predicate Topological(ws: seq<Wave>) {
    forall i, j :: 0 <= i < |ws| && 0 <= j < |ws| && DependsOnPlanned(ws[i], ws[j]) ==> Before(Sorted(ws), ws[j], ws[i])
  }

  /** The dependency is smaller than the wave by unmet dependencies, then phase, then number of dependencies,
      then place in the file; a wave that depends on itself never is. */
  ghost predicate DependencyFirst(ws: seq<Wave>, d: nat, w: nat)
    requires d < |ws| && w < |ws|
  {
    InOrder(ws[d], ws[w], ws) && (InOrder(ws[w], ws[d], ws) ==> d < w)
  }

  lemma {:induction false} OnceIsNotBefore(s: seq<Wave>, w: Wave)
    requires DistinctIds(s)
    ensures !Before(s, w, w)
  {
  }

  lemma {:induction false} DependencyPlaces(ws: seq<Wave>, d: nat, w: nat)
    requires DistinctIds(ws) && d < |ws| && w < |ws| && ws[d].status == Planned && ws[w].status == Planned
    ensures Before(Sorted(ws), ws[d], ws[w]) <==> DependencyFirst(ws, d, w)
  {
    if d == w {
      SortedIsStableSort(ws);
      PermutedIds(ws, Sorted(ws));
      OnceIsNotBefore(Sorted(ws), ws[d]);
    } else {
      SortedPlaces(ws, d, w);
    }
  }

  /** With unique ids the planned waves are topologically sorted if and only if, in the file, every planned
      dependency of a planned wave is smaller than the wave in this sense. */
  lemma {:induction false} TopologicalIff(ws: seq<Wave>)
    requires DistinctIds(ws)
    ensures Topological(ws) <==>
            forall i, j :: 0 <= i < |ws| && 0 <= j < |ws| && DependsOnPlanned(ws[i], ws[j]) ==>
                DependencyFirst(ws, j, i)
  {
    forall i, j | 0 <= i < |ws| && 0 <= j < |ws| && DependsOnPlanned(ws[i], ws[j])
      ensures Before(Sorted(ws), ws[j], ws[i]) <==> DependencyFirst(ws, j, i)
    {
      DependencyPlaces(ws, j, i);
    }
  }

  lemma {:induction false} PlannedIsUnmet(deps: seq<string>, ws: seq<Wave>, d: nat)
    requires DistinctIds(ws) && d < |ws| && ws[d].status == Planned && ws[d].id in deps
    ensures Unmet(deps, ws) > 0
  {
    StatusOfUnique(ws, d);
    UnmetZero(deps, ws);
  }

  /** So chains of one link come out right: if every planned dependency of a planned wave can start, the
      planned waves are topologically sorted, whatever the phases say. */
  lemma {:induction false} ReadyDependenciesAreFirst(ws: seq<Wave>)
    requires DistinctIds(ws)
    requires forall i, j :: 0 <= i < |ws| && 0 <= j < |ws| && DependsOnPlanned(ws[i], ws[j]) ==> Actionable(ws[j], ws)
    ensures Topological(ws)
  {
    forall i, j | 0 <= i < |ws| && 0 <= j < |ws| && DependsOnPlanned(ws[i], ws[j])
      ensures DependencyFirst(ws, j, i)
    {
      UnmetZero(ws[j].dependsOn, ws);
      PlannedIsUnmet(ws[i].dependsOn, ws, j);
    }
    TopologicalIff(ws);
  }

  /** A smallest instance that fails: a wave with fewer unmet dependencies precedes the very wave it waits
      for. */
  lemma {:induction false} NotTopological()
    ensures var a, b := Wave("a", Planned, 1, ["b"]), Wave("b", Planned, 1, ["c", "d"]);
      var ws := [a, b, Wave("c", InProgress, 1, []), Wave("d", InProgress, 1, [])];
      DistinctIds(ws) && Before(Sorted(ws), a, b) && !Topological(ws)
  {
    var a, b := Wave("a", Planned, 1, ["b"]), Wave("b", Planned, 1, ["c", "d"]);
    var c, d := Wave("c", InProgress, 1, []), Wave("d", InProgress, 1, []);
    var ws := [a, b, c, d];
    StatusOfUnique(ws, 1);
    StatusOfUnique(ws, 2);
    StatusOfUnique(ws, 3);
    assert ws[1].id == "b" && ws[2].id == "c" && ws[3].id == "d";
    assert Front(["b"]) == [] && Front(["c", "d"]) == ["c"] && Front(["c"]) == [];
    assert Unmet(["b"], ws) == 1 && Unmet(["c"], ws) == 1 && Unmet(["c", "d"], ws) == 2;
    SortedPlaces(ws, 0, 1);
    SortedPlaces(ws, 1, 0);
    assert a.dependsOn[0] == "b" && DependsOnPlanned(ws[0], ws[1]);
  }

  // Completed waves

  /** The completed waves, in list order. */
  function History(ws: seq<Wave>): seq<Wave> {
    Among(ws, IsCompleted)
  }

  /** Completed waves keep their historical order, as the sort key's description has it, if and only if each
      is in order with every later one: nondecreasing unmet dependencies, then phases, then numbers of
      dependencies. Ids may repeat. */
  lemma {:induction false} HistoryKeptIff(ws: seq<Wave>)
    ensures History(Sorted(ws)) == History(ws) <==>
            forall i, j :: 0 <= i < j < |ws| && ws[i].status == Completed && ws[j].status == Completed ==>
                InOrder(ws[i], ws[j], ws)
  {
    KeysOrder(ws);
    SortKeepsClassIff(ws, IsCompleted, ByKey(ws));
    assert ClassInOrder(ws, IsCompleted, ByKey(ws)) <==>
           forall i, j :: 0 <= i < j < |ws| && ws[i].status == Completed && ws[j].status == Completed ==>
               InOrder(ws[i], ws[j], ws);
  }

  /** In a file whose completed waves have only completed dependencies, that comes to their phases, and
      within a phase their numbers of dependencies, never falling. */
  lemma {:induction false} ClosedHistoryKeptIff(ws: seq<Wave>)
    requires forall i, k :: 0 <= i < |ws| && ws[i].status == Completed && 0 <= k < |ws[i].dependsOn|
               ==> StatusOf(ws, ws[i].dependsOn[k]) == Some(Completed)
    ensures History(Sorted(ws)) == History(ws) <==>
            forall i, j :: 0 <= i < j < |ws| && ws[i].status == Completed && ws[j].status == Completed
              ==> ws[i].phase < ws[j].phase || (ws[i].phase == ws[j].phase && |ws[i].dependsOn| <= |ws[j].dependsOn|)
  {
    forall i | 0 <= i < |ws| && ws[i].status == Completed ensures Unmet(ws[i].dependsOn, ws) == 0 {
      UnmetZero(ws[i].dependsOn, ws);
    }
    HistoryKeptIff(ws);
  }

  /** A smallest instance that fails: an earlier phase jumps the queue. */
  lemma {:induction false} HistoryIsReordered()
    ensures var a, b := Wave("a", Completed, 2, []), Wave("b", Completed, 1, []);
      DistinctIds([a, b]) && Before(Sorted([a, b]), b, a)
  {
    var a, b := Wave("a", Completed, 2, []), Wave("b", Completed, 1, []);
    assert a.id != b.id;
    SortedPlaces([a, b], 1, 0);
  }

  // ------------------------------------------------------------------------------------------
  // Phases and history
  // ------------------------------------------------------------------------------------------

  /** The ids of the waves of a phase, in list order. */
  function OfPhase(ws: seq<Wave>, phase: int): seq<string> {
    if ws == [] then [] else OfPhase(Front(ws), phase) + (if Last(ws).phase == phase then [Last(ws).id] else [])
  }

  function CompletedIds(ws: seq<Wave>): seq<string> {
    if ws == [] then []
    else CompletedIds(Front(ws)) + (if Last(ws).status == Completed then [Last(ws).id] else [])
  }

  ghost function InPhase(phase: int): Wave -> bool {
    (w: Wave) => w.phase == phase
  }

  function WaveId(w: Wave): string {
    w.id
  }

  lemma {:induction false} OfPhaseIs(ws: seq<Wave>, phase: int)
    ensures OfPhase(ws, phase) == Filter(ws, InPhase(phase), WaveId)
  {
    if ws == [] {
    } else {
      OfPhaseIs(Front(ws), phase);
    }
  }

  lemma {:induction false} CompletedIdsAre(ws: seq<Wave>)
    ensures CompletedIds(ws) == Filter(ws, IsCompleted, WaveId)
  {
    if ws == [] {
    } else {
      CompletedIdsAre(Front(ws));
    }
  }

  ghost predicate IsDone(f: Feature, id: string) {
    f.id == id && (f.status == "done" || f.status == "shipped-dark" || f.status == "merged")
  }

  /** The history names exactly the features with a completed status. */
  lemma {:induction false} HistoryIs(features: seq<Feature>, id: string)
    ensures var named := id in CompletedIds(Sorted(Waves(features)));
      named <==> id != "" && exists k :: 0 <= k < |features| && IsDone(features[k], id)
  {
    var ws := Waves(features);
    SortedIsStableSort(ws);
    CompletedMembers(Sorted(ws), id);
    CompletedMembers(ws, id);
    assert forall w :: w in Sorted(ws) <==> w in multiset(ws);
    assert forall w :: w in ws <==> w in multiset(ws);
    DoneFeatures(features, id);
  }

  ghost predicate HasCompleted(ws: seq<Wave>, id: string) {
    exists w :: w in ws && w.status == Completed && w.id == id
  }

  lemma {:induction false} CompletedMembers(ws: seq<Wave>, id: string)
    ensures id in CompletedIds(ws) <==> HasCompleted(ws, id)
  {
    if ws == [] {
    } else {
      CompletedMembers(Front(ws), id);
      assert ws == Front(ws) + [Last(ws)];
    }
  }

  lemma {:induction false} DoneFeatures(features: seq<Feature>, id: string)
    ensures HasCompleted(Waves(features), id) <==>
              id != "" && exists k :: 0 <= k < |features| && IsDone(features[k], id)
  {
    if features == [] {
    } else {
      var f := Last(features);
      DoneFeatures(Front(features), id);
      WaveIs(f);
      assert forall k :: 0 <= k < |features| - 1 ==> Front(features)[k] == features[k];
      assert features[|features| - 1] == f;
      assert ToWave(f) in [ToWave(f)];
    }
  }

  datatype Phase = Phase(id: int, waves: seq<string>)

  datatype Roadmap = Roadmap(phases: seq<Phase>, waves: seq<Wave>, completedHistory: seq<string>)

  ghost predicate HasPhase(ws: seq<Wave>, phase: int) {
    exists i :: 0 <= i < |ws| && ws[i].phase == phase
  }

  /** Phases ascend, are those that occur, and each lists its waves in projected order. */
  ghost predicate PhasesOf(phases: seq<Phase>, ws: seq<Wave>) {
    && (forall i, j :: 0 <= i < j < |phases| ==> phases[i].id < phases[j].id)
    && (forall i :: 0 <= i < |phases| ==> HasPhase(ws, phases[i].id))
    && (forall i :: 0 <= i < |phases| ==> phases[i].waves == Filter(ws, InPhase(phases[i].id), WaveId))
    && (forall w :: w in ws ==> exists i :: 0 <= i < |phases| && phases[i].id == w.phase)
  }

  /** `build_projection`. */
  method BuildProjection(features: seq<Feature>) returns (r: Roadmap)
    ensures r.waves == Sorted(Waves(features))
    ensures PhasesOf(r.phases, r.waves)
    ensures r.completedHistory == Filter(r.waves, IsCompleted, WaveId)
  {
    var waves, phasesSeen := BuildWaves(features);
    ghost var listed := waves;
    waves := Sort(waves, ByKey(waves));
    SortedIsStableSort(listed);
    SamePhases(listed, waves);
    var phases := BuildPhases(waves, phasesSeen);
    var history := BuildHistory(waves);
    CompletedIdsAre(waves);
    r := Roadmap(phases, waves, history);
  }

  method BuildWaves(features: seq<Feature>) returns (waves: seq<Wave>, phasesSeen: set<int>)
    ensures waves == Waves(features)
    ensures forall p :: p in phasesSeen <==> HasPhase(waves, p)
  {
    waves, phasesSeen := [], {};
    var k := 0;
    while k < |features|
      invariant k <= |features|
      invariant waves == Waves(features[..k])
      invariant forall p :: p in phasesSeen <==> HasPhase(waves, p)
    {
      PrefixStep(features, k);
      if features[k].id != "" {
        var wave := ToWave(features[k]);
        HasPhaseAppend(waves, wave);
        waves := waves + [wave];
        phasesSeen := phasesSeen + {wave.phase};
      }
      k := k + 1;
    }
    assert features[..k] == features;
  }

  lemma {:induction false} HasPhaseAppend(ws: seq<Wave>, w: Wave)
    ensures forall p :: HasPhase(ws + [w], p) <==> HasPhase(ws, p) || p == w.phase
  {
    var t := ws + [w];
    assert t[|ws|] == w;
    forall p | HasPhase(ws, p) ensures HasPhase(t, p) {
      var i :| 0 <= i < |ws| && ws[i].phase == p;
      assert t[i].phase == p;
    }
  }

  method BuildHistory(waves: seq<Wave>) returns (history: seq<string>)
    ensures history == CompletedIds(waves)
  {
    history := [];
    var k := 0;
    while k < |waves|
      invariant k <= |waves|
      invariant history == CompletedIds(waves[..k])
    {
      PrefixStep(waves, k);
      if waves[k].status == Completed {
        history := history + [waves[k].id];
      }
      k := k + 1;
    }
    assert waves[..k] == waves;
  }

  lemma {:induction false} SamePhases(a: seq<Wave>, b: seq<Wave>)
    requires multiset(a) == multiset(b)
    ensures forall p :: HasPhase(a, p) <==> HasPhase(b, p)
    ensures (forall i :: 0 <= i < |a| ==> 1 <= a[i].phase <= 5) ==> (forall i :: 0 <= i < |b| ==> 1 <= b[i].phase <= 5)
  {
    forall p | HasPhase(a, p) ensures HasPhase(b, p) {
      var i :| 0 <= i < |a| && a[i].phase == p;
      assert a[i] in multiset(b);
    }
    forall p | HasPhase(b, p) ensures HasPhase(a, p) {
      var i :| 0 <= i < |b| && b[i].phase == p;
      assert b[i] in multiset(a);
    }
    forall i | 0 <= i < |b| ensures b[i] in multiset(a) {
    }
  }

  /** `for pid in sorted(phase_ids_seen)`: every phase id lies between 1 and 5. */
  method BuildPhases(waves: seq<Wave>, seen: set<int>) returns (phases: seq<Phase>)
    requires forall p :: p in seen <==> HasPhase(waves, p)
    requires forall i :: 0 <= i < |waves| ==> 1 <= waves[i].phase <= 5
    ensures PhasesOf(phases, waves)
  {
    phases := [];
    var pid := 1;
    while pid <= 5
      invariant 1 <= pid <= 6
      invariant forall i, j :: 0 <= i < j < |phases| ==> phases[i].id < phases[j].id
      invariant forall i :: 0 <= i < |phases| ==> phases[i].id < pid && HasPhase(waves, phases[i].id)
                                                  && phases[i].waves == OfPhase(waves, phases[i].id)
      invariant forall p :: 1 <= p < pid && HasPhase(waves, p) ==> exists i :: 0 <= i < |phases| && phases[i].id == p
    {
      if pid in seen {
        ghost var before := phases;
        phases := phases + [Phase(pid, OfPhase(waves, pid))];
        assert forall i :: 0 <= i < |before| ==> phases[i] == before[i];
        assert phases[|before|].id == pid;
      }
      pid := pid + 1;
    }
    forall i | 0 <= i < |phases| ensures phases[i].waves == Filter(waves, InPhase(phases[i].id), WaveId) {
      OfPhaseIs(waves, phases[i].id);
    }
    forall w | w in waves ensures exists i :: 0 <= i < |phases| && phases[i].id == w.phase {
      assert HasPhase(waves, w.phase);
    }
  }

  lemma {:induction false} OfPhaseMembers(ws: seq<Wave>, phase: int)
    ensures forall id :: id in OfPhase(ws, phase) <==>
        exists i :: 0 <= i < |ws| && ws[i].id == id && ws[i].phase == phase
  {
    if ws == [] {
    } else {
      OfPhaseMembers(Front(ws), phase);
      assert forall i :: 0 <= i < |ws| - 1 ==> Front(ws)[i] == ws[i];
      assert ws[|ws| - 1] == Last(ws);
    }
  }

  /** The phase lists partition the waves: with unique ids each wave id is in the list of its phase
      and in no other. */
  lemma {:induction false} PhasesPartition(phases: seq<Phase>, ws: seq<Wave>, w: Wave)
    requires PhasesOf(phases, ws) && DistinctIds(ws) && w in ws
    ensures exists i :: && 0 <= i < |phases| && phases[i].id == w.phase && w.id in phases[i].waves
                        && forall j :: 0 <= j < |phases| && j != i ==> w.id !in phases[j].waves
  {
    var n :| 0 <= n < |ws| && ws[n] == w;
    var i :| 0 <= i < |phases| && phases[i].id == w.phase;
    OfPhaseMembers(ws, w.phase);
    OfPhaseIs(ws, w.phase);
    forall j | 0 <= j < |phases| && j != i ensures w.id !in phases[j].waves {
      OfPhaseMembers(ws, phases[j].id);
      OfPhaseIs(ws, phases[j].id);
    }
  }

  /** The completed history is a prefix of the projected wave list. */
  lemma {:induction false} HistoryIsPrefix(s: seq<Wave>) returns (n: nat)
    requires InBands(s)
    ensures n <= |s| && |CompletedIds(s)| == n
    ensures forall i :: 0 <= i < |s| ==> (s[i].status == Completed <==> i < n)
    ensures forall i :: 0 <= i < n ==> CompletedIds(s)[i] == s[i].id
  {
    if s == [] {
      n := 0;
    } else {
      n := HistoryIsPrefix(Front(s));
      assert forall i :: 0 <= i < |s| - 1 ==> Front(s)[i] == s[i];
      if Last(s).status == Completed {
        assert forall i :: 0 <= i < |s| - 1 ==> s[i].status == Completed;
        n := n + 1;
      }
    }
  }
}
