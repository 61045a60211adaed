/** Filling tracks.decision_ref from plan-gate reports (scripts/backfill_track_decision_ref.py). */
module DecisionRefBackfill {
  import opened Common
  import opened Text
  import opened Sorting

  datatype ReportFile = ReportFile(filename: string, track: string, seat: string, hash: string, mtime: int)

  datatype TiebreakFile = TiebreakFile(filename: string, track: string, hash: string, mtime: int)

  /** What building a tiebreak payload can come to. Only Unparseable is caught per track: another
      exception ends the run. */
  datatype Built = Payload(text: string) | Unparseable | Crash

  /** The payload builders and the clock are taken as given. `panel` and `supersede` answer None
      where the original raises; epochOf reads a payload's set_at, clock a set_at argument. */
  datatype Builders = Builders(
    panel: (string, seq<ReportFile>, string) -> Option<string>,
    tiebreak: (string, TiebreakFile, seq<ReportFile>, string) -> Built,
    supersede: (TiebreakFile, string, string) -> Option<string>,
    epochOf: string -> Option<int>,
    clock: string -> int)

  /** A payload is never empty, and whether one can be built does not depend on set_at. */
  ghost predicate FillLaw(b: Builders) {
    && (forall t, fs, at, at' {:trigger b.panel(t, fs, at), b.panel(t, fs, at')} ::
          b.panel(t, fs, at).Some? ==> b.panel(t, fs, at').Some?)
    && (forall t, fs, at {:trigger b.panel(t, fs, at)} :: b.panel(t, fs, at).Some? ==> b.panel(t, fs, at).value != "")
    && (forall t, f, fs, at, at' {:trigger b.tiebreak(t, f, fs, at), b.tiebreak(t, f, fs, at')} ::
          && (b.tiebreak(t, f, fs, at).Payload? ==> b.tiebreak(t, f, fs, at').Payload?)
          && (b.tiebreak(t, f, fs, at).Crash? ==> b.tiebreak(t, f, fs, at').Crash?))
    && (forall t, f, fs, at {:trigger b.tiebreak(t, f, fs, at)} ::
          b.tiebreak(t, f, fs, at).Payload? ==> b.tiebreak(t, f, fs, at).text != "")
  }

  // ------------------------------------------------------------------------------------------
  // One report per seat
  // ------------------------------------------------------------------------------------------

  /** The order of `sorted(..., key=lambda r: r.label)`. */
  predicate SeatLess(a: ReportFile, b: ReportFile) {
    StrLess(a.seat, b.seat)
  }

  lemma {:induction false} StringOrder(a: string, b: string, c: string)
    ensures StrLess(a, b) ==> !StrLess(b, a)
    ensures !StrLess(b, a) && !StrLess(c, b) ==> !StrLess(c, a)
  {
    StrLessTotal(a, b);
    StrLessTotal(b, c);
    StrLessTotal(a, c);
    if StrLess(c, a) && StrLess(a, b) {
      StrLessTransitive(c, a, b);
    }
  }

  lemma {:induction false} StringsOrder()
    ensures WeakOrder(StrLess) && WeakOrder(SeatLess)
  {
    forall a, b, c ensures (StrLess(a, b) ==> !StrLess(b, a)) && (!StrLess(b, a) && !StrLess(c, b) ==> !StrLess(c, a)) {
      StringOrder(a, b, c);
    }
  }

  function SeatOf(r: ReportFile): string {
    r.seat
  }

  function Keep(best: seq<ReportFile>, r: ReportFile): seq<ReportFile> {
    var i := Find(best, SeatOf, r.seat);
    if i == |best| then best + [r] else if r.mtime > best[i].mtime then best[i := r] else best
  }

  /** The dict `best` after all reports, in insertion order. */
  function BestPerSeat(reports: seq<ReportFile>): seq<ReportFile> {
    if reports == [] then [] else Keep(BestPerSeat(Front(reports)), Last(reports))
  }

  function LatestPerSeat(reports: seq<ReportFile>): seq<ReportFile> {
    Sort(BestPerSeat(reports), SeatLess)
  }

  /** `_latest_per_label`. */
  method LatestPerLabel(reports: seq<ReportFile>) returns (latest: seq<ReportFile>)
    ensures latest == LatestPerSeat(reports)
  {
    var best: seq<ReportFile> := [];
    var k := 0;
    while k < |reports|
      invariant k <= |reports|
      invariant best == BestPerSeat(reports[..k])
    {
      PrefixStep(reports, k);
      var r := reports[k];
      var i := Find(best, SeatOf, r.seat);
      if i == |best| {
        best := best + [r];
      } else if r.mtime > best[i].mtime {
        best := best[i := r];
      }
      k := k + 1;
    }
    assert reports[..k] == reports;
    latest := Sort(best, SeatLess);
  }

  /** r is the first of the youngest reports of its seat. */
  ghost predicate FirstYoungest(reports: seq<ReportFile>, r: ReportFile) {
    exists i :: && 0 <= i < |reports| && reports[i] == r
                && (forall j :: 0 <= j < |reports| && reports[j].seat == r.seat ==> reports[j].mtime <= r.mtime)
                && (forall j :: 0 <= j < i && reports[j].seat == r.seat ==> reports[j].mtime < r.mtime)
  }

  ghost predicate OnePerSeat(best: seq<ReportFile>) {
    forall i, j :: 0 <= i < j < |best| ==> best[i].seat != best[j].seat
  }

  ghost predicate SeatIn(best: seq<ReportFile>, seat: string) {
    exists i :: 0 <= i < |best| && best[i].seat == seat
  }

  lemma {:induction false} YoungestExtends(reports: seq<ReportFile>, r: ReportFile)
    requires reports != [] && FirstYoungest(Front(reports), r)
    ensures var n := Last(reports);
      FirstYoungest(reports, if n.seat == r.seat && n.mtime > r.mtime then n else r)
  {
  }

  ghost predicate Represents(best: seq<ReportFile>, reports: seq<ReportFile>) {
    && OnePerSeat(best)
    && (forall k :: 0 <= k < |best| ==> FirstYoungest(reports, best[k]))
    && (forall i :: 0 <= i < |reports| ==> SeatIn(best, reports[i].seat))
  }

  lemma {:induction false} BestIsYoungest(reports: seq<ReportFile>)
    ensures Represents(BestPerSeat(reports), reports)
  {
    if reports == [] {
    } else {
      BestIsYoungest(Front(reports));
      KeepOnePerSeat(BestPerSeat(Front(reports)), Last(reports));
      KeepYoungest(BestPerSeat(Front(reports)), reports);
      KeepSeats(BestPerSeat(Front(reports)), reports);
    }
  }

  lemma {:induction false} KeepYoungest(before: seq<ReportFile>, reports: seq<ReportFile>)
    requires reports != [] && Represents(before, Front(reports))
    ensures var best := Keep(before, Last(reports));
      forall k :: 0 <= k < |best| ==> FirstYoungest(reports, best[k])
  {
    var r := Last(reports);
    var best := Keep(before, r);
    forall k | 0 <= k < |best| ensures FirstYoungest(reports, best[k]) {
      if k < |before| {
        YoungestExtends(reports, before[k]);
      } else {
        forall j | 0 <= j < |reports| - 1 ensures reports[j].seat != r.seat {
          assert SeatIn(before, Front(reports)[j].seat);
        }
      }
    }
  }

  lemma {:induction false} KeepOnePerSeat(before: seq<ReportFile>, r: ReportFile)
    requires OnePerSeat(before)
    ensures OnePerSeat(Keep(before, r))
  {
  }

  lemma {:induction false} KeepSeat(before: seq<ReportFile>, r: ReportFile, seat: string)
    requires SeatIn(before, seat) || seat == r.seat
    ensures SeatIn(Keep(before, r), seat)
  {
    var best := Keep(before, r);
    if seat == r.seat {
      assert best[Find(before, SeatOf, seat)].seat == seat;
    } else {
      var k :| 0 <= k < |before| && before[k].seat == seat;
      assert best[k].seat == seat;
    }
  }

  lemma {:induction false} KeepSeats(before: seq<ReportFile>, reports: seq<ReportFile>)
    requires reports != [] && Represents(before, Front(reports))
    ensures forall i :: 0 <= i < |reports| ==> SeatIn(Keep(before, Last(reports)), reports[i].seat)
  {
    forall i | 0 <= i < |reports| ensures SeatIn(Keep(before, Last(reports)), reports[i].seat) {
      assert i < |reports| - 1 ==> Front(reports)[i] == reports[i];
      KeepSeat(before, Last(reports), reports[i].seat);
    }
  }

  lemma {:induction false} SameMembers<T>(a: seq<T>, b: seq<T>)
    requires multiset(a) == multiset(b)
    ensures forall x :: x in a <==> x in b
  {
    forall x ensures x in a <==> x in b {
      assert x in multiset(a) <==> x in multiset(b);
    }
  }

  ghost predicate SeatKept(latest: seq<ReportFile>, seat: string) {
    exists r :: r in latest && r.seat == seat
  }

  /** The members are the youngest of their seats, one for every seat of the reports. */
  ghost predicate YoungestOfEach(latest: seq<ReportFile>, reports: seq<ReportFile>) {
    && (forall r :: r in latest ==> FirstYoungest(reports, r))
    && (forall i :: 0 <= i < |reports| ==> SeatKept(latest, reports[i].seat))
    && (forall r, q :: r in latest && q in latest && r.seat == q.seat ==> r == q)
  }

  lemma {:induction false} RepresentsMembers(best: seq<ReportFile>, reports: seq<ReportFile>)
    requires Represents(best, reports)
    ensures YoungestOfEach(best, reports)
  {
  }

  lemma {:induction false} SameMembersSameSeats(a: seq<ReportFile>, b: seq<ReportFile>, reports: seq<ReportFile>)
    requires YoungestOfEach(a, reports) && multiset(a) == multiset(b)
    ensures YoungestOfEach(b, reports)
  {
    SameMembers(a, b);
    forall i | 0 <= i < |reports| ensures SeatKept(b, reports[i].seat) {
      assert SeatKept(a, reports[i].seat);
      var r :| r in a && r.seat == reports[i].seat;
      assert r in b;
    }
  }

  ghost predicate SeatsAscend(latest: seq<ReportFile>) {
    forall i, j :: 0 <= i < j < |latest| ==> StrLess(latest[i].seat, latest[j].seat)
  }

  /** One latest report per seat label, every label kept, in label order. */
  lemma {:induction false} LatestPerSeatIs(reports: seq<ReportFile>)
    ensures SeatsAscend(LatestPerSeat(reports)) && YoungestOfEach(LatestPerSeat(reports), reports)
  {
    var best := BestPerSeat(reports);
    BestIsYoungest(reports);
    StringsOrder();
    SortOrders(best, SeatLess);
    SortKeeps(best, SeatLess);
    RepresentsMembers(best, reports);
    SameMembersSameSeats(best, Sort(best, SeatLess), reports);
    PermutationKeepsDistinct(best, Sort(best, SeatLess));
    OrderedSeatsAscend(Sort(best, SeatLess), reports);
  }

  lemma {:induction false} OrderedSeatsAscend(latest: seq<ReportFile>, reports: seq<ReportFile>)
    requires Ordered(latest, SeatLess) && Distinct(latest) && YoungestOfEach(latest, reports)
    ensures SeatsAscend(latest)
  {
    forall i, j | 0 <= i < j < |latest| ensures StrLess(latest[i].seat, latest[j].seat) {
      StrLessTotal(latest[i].seat, latest[j].seat);
      assert latest[i] in latest && latest[j] in latest && latest[i] != latest[j];
      assert !SeatLess(latest[j], latest[i]);
    }
  }

  // ------------------------------------------------------------------------------------------
  // Panel or tiebreak
  // ------------------------------------------------------------------------------------------

  /** max(mtimes, default=-1). */
  function PanelMtime(panel: seq<ReportFile>): (m: int)
    ensures panel == [] ==> m == -1
    ensures panel != [] ==> exists i :: 0 <= i < |panel| && panel[i].mtime == m
    ensures forall i :: 0 <= i < |panel| ==> panel[i].mtime <= m
  {
    if panel == [] then -1
    else if |panel| == 1 then assert panel[0].mtime == Last(panel).mtime; Last(panel).mtime
    else
      var m := PanelMtime(Front(panel));
      assert forall i :: 0 <= i < |panel| - 1 ==> panel[i] == Front(panel)[i];
      assert panel[|panel| - 1] == Last(panel);
      Max(m, Last(panel).mtime)
  }

  /** The first of the youngest tiebreak reports. */
  function Youngest(tbs: seq<TiebreakFile>): (y: TiebreakFile)
    requires tbs != []
    ensures y in tbs && forall i :: 0 <= i < |tbs| ==> tbs[i].mtime <= y.mtime
  {
    if |tbs| == 1 then tbs[0]
    else
      var y := Youngest(Front(tbs));
      if Last(tbs).mtime > y.mtime then Last(tbs) else y
  }

  predicate TiebreakWins(panel: seq<ReportFile>, tbs: seq<TiebreakFile>) {
    tbs != [] && Youngest(tbs).mtime > PanelMtime(panel)
  }

  /** The documented rule: some tiebreak report is strictly younger than every panel report. */
  ghost predicate TiebreakIsYoungest(panel: seq<ReportFile>, tbs: seq<TiebreakFile>) {
    exists k :: 0 <= k < |tbs| && forall i :: 0 <= i < |panel| ==> tbs[k].mtime > panel[i].mtime
  }

  /** The code decides by the documented rule except for a track with tiebreak reports only, all
      dated before the epoch: the default of -1 then sends it down the panel path. */
  lemma {:induction false} TiebreakRule(panel: seq<ReportFile>, tbs: seq<TiebreakFile>)
    ensures (TiebreakWins(panel, tbs) <==> TiebreakIsYoungest(panel, tbs)) <==>
            !(panel == [] && tbs != [] && forall k :: 0 <= k < |tbs| ==> tbs[k].mtime <= -1)
  {
  }

  /** A smallest instance that fails: the track's only report is a tiebreak dated before the epoch. */
  lemma {:induction false} PreEpochTiebreakLoses(tb: TiebreakFile)
    requires tb.mtime <= -1
    ensures TiebreakIsYoungest([], [tb]) && !TiebreakWins([], [tb])
  {
    assert [tb][0] == tb;
  }

  // ------------------------------------------------------------------------------------------
  // The generic backfill
  // ------------------------------------------------------------------------------------------

  function PanelOf(reports: seq<ReportFile>, track: string): seq<ReportFile> {
    if reports == [] then []
    else PanelOf(Front(reports), track) + (if Last(reports).track == track then [Last(reports)] else [])
  }

  function TiebreaksOf(tbs: seq<TiebreakFile>, track: string): seq<TiebreakFile> {
    if tbs == [] then []
    else TiebreaksOf(Front(tbs), track) + (if Last(tbs).track == track then [Last(tbs)] else [])
  }

  ghost function OfTrack(track: string): ReportFile -> bool {
    (f: ReportFile) => f.track == track
  }

  ghost function TiebreakOfTrack(track: string): TiebreakFile -> bool {
    (f: TiebreakFile) => f.track == track
  }

  /** A track's group: exactly its reports, each as often and in the order of the file list. */
  lemma {:induction false} PanelOfIs(reports: seq<ReportFile>, track: string)
    ensures PanelOf(reports, track) == Filter(reports, OfTrack(track), Itself)
  {
    if reports == [] {
    } else {
      PanelOfIs(Front(reports), track);
    }
  }

  lemma {:induction false} TiebreaksOfIs(tbs: seq<TiebreakFile>, track: string)
    ensures TiebreaksOf(tbs, track) == Filter(tbs, TiebreakOfTrack(track), Itself)
  {
    if tbs == [] {
    } else {
      TiebreaksOfIs(Front(tbs), track);
    }
  }

  // What the track's own reports say, read off the whole file lists.

  /** f is the first of the youngest tiebreak reports of the track. */
  ghost predicate YoungestOfTrack(f: TiebreakFile, tbs: seq<TiebreakFile>, track: string) {
    exists i :: && 0 <= i < |tbs| && tbs[i] == f && f.track == track
                && (forall j :: 0 <= j < |tbs| && tbs[j].track == track ==> tbs[j].mtime <= f.mtime)
                && (forall j :: 0 <= j < i && tbs[j].track == track ==> tbs[j].mtime < f.mtime)
  }

  /** f is the first of the youngest panel reports of its seat and track. */
  ghost predicate LatestOfSeat(f: ReportFile, reports: seq<ReportFile>, track: string) {
    exists i :: && 0 <= i < |reports| && reports[i] == f && f.track == track
                && (forall j :: 0 <= j < |reports| && reports[j].track == track && reports[j].seat == f.seat ==>
                      reports[j].mtime <= f.mtime)
                && (forall j :: 0 <= j < i && reports[j].track == track && reports[j].seat == f.seat ==>
                      reports[j].mtime < f.mtime)
  }

  /** One latest report for every seat of the track, in the order of the seats. */
  ghost predicate LatestOfTrack(latest: seq<ReportFile>, reports: seq<ReportFile>, track: string) {
    && SeatsAscend(latest)
    && (forall f :: f in latest ==> LatestOfSeat(f, reports, track))
    && (forall i :: 0 <= i < |reports| && reports[i].track == track ==> SeatKept(latest, reports[i].seat))
  }

  /** Some tiebreak report of the track is younger than each of its panel reports, or than -1 if it
      has none. */
  ghost predicate TiebreakDecides(r: Reports, track: string) {
    exists k :: && 0 <= k < |r.tiebreak| && r.tiebreak[k].track == track
                && (forall i :: 0 <= i < |r.panel| && r.panel[i].track == track ==>
                      r.panel[i].mtime < r.tiebreak[k].mtime)
                && ((exists i :: 0 <= i < |r.panel| && r.panel[i].track == track) || r.tiebreak[k].mtime > -1)
  }

  lemma {:induction false} YoungestIs(tbs: seq<TiebreakFile>, track: string)
    requires TiebreaksOf(tbs, track) != []
    ensures YoungestOfTrack(Youngest(TiebreaksOf(tbs, track)), tbs, track)
  {
    var front, f := TiebreaksOf(Front(tbs), track), Last(tbs);
    if front == [] {
      TiebreaksOfIs(Front(tbs), track);
      FilterNone(Front(tbs), TiebreakOfTrack(track), Itself);
      FirstOfTrack(tbs, track);
    } else {
      YoungestIs(Front(tbs), track);
      YoungestGrows(Youngest(front), tbs, track);
      if f.track == track {
        YoungestSnoc(front, f);
      } else {
        assert TiebreaksOf(tbs, track) == front;
      }
    }
  }

  lemma {:induction false} YoungestSnoc(front: seq<TiebreakFile>, f: TiebreakFile)
    requires front != []
    ensures Youngest(front + [f]) == if f.mtime > Youngest(front).mtime then f else Youngest(front)
  {
    assert Front(front + [f]) == front && Last(front + [f]) == f;
  }

  lemma {:induction false} FirstOfTrack(tbs: seq<TiebreakFile>, track: string)
    requires tbs != [] && Last(tbs).track == track
    requires forall j :: 0 <= j < |Front(tbs)| ==> Front(tbs)[j].track != track
    ensures YoungestOfTrack(Last(tbs), tbs, track)
  {
    assert forall j :: 0 <= j < |tbs| - 1 ==> tbs[j] == Front(tbs)[j];
    assert tbs[|tbs| - 1] == Last(tbs);
  }

  lemma {:induction false} YoungestGrows(y: TiebreakFile, tbs: seq<TiebreakFile>, track: string)
    requires tbs != [] && YoungestOfTrack(y, Front(tbs), track)
    ensures var f := Last(tbs);
      YoungestOfTrack(if f.track == track && f.mtime > y.mtime then f else y, tbs, track)
  {
    assert forall j :: 0 <= j < |tbs| - 1 ==> tbs[j] == Front(tbs)[j];
    assert tbs[|tbs| - 1] == Last(tbs);
  }

  lemma {:induction false} OneYoungest(f: TiebreakFile, g: TiebreakFile, tbs: seq<TiebreakFile>, track: string)
    requires YoungestOfTrack(f, tbs, track) && YoungestOfTrack(g, tbs, track)
    ensures f == g
  {
  }

  lemma {:induction false} LatestIs(reports: seq<ReportFile>, track: string)
    ensures LatestOfTrack(LatestPerSeat(PanelOf(reports, track)), reports, track)
  {
    var own := PanelOf(reports, track);
    var latest := LatestPerSeat(own);
    LatestPerSeatIs(own);
    PanelOfIs(reports, track);
    FilterMembers(reports, OfTrack(track), Itself);
    forall f | f in latest ensures LatestOfSeat(f, reports, track) {
      YoungestOfOwn(f, reports, track);
    }
  }

  /** There is only one such list. */
  lemma {:induction false} OneLatest(a: seq<ReportFile>, b: seq<ReportFile>, reports: seq<ReportFile>, track: string)
    requires LatestOfTrack(a, reports, track) && LatestOfTrack(b, reports, track)
    ensures a == b
  {
    LatestIncludes(a, b, reports, track);
    LatestIncludes(b, a, reports, track);
    AscendingSame(a, b);
  }

  lemma {:induction false} LatestIncludes(a: seq<ReportFile>, b: seq<ReportFile>, reports: seq<ReportFile>,
                                          track: string)
    requires LatestOfTrack(a, reports, track) && LatestOfTrack(b, reports, track)
    ensures forall f :: f in a ==> f in b
  {
    forall f | f in a ensures f in b {
      assert LatestOfSeat(f, reports, track) && SeatKept(b, f.seat);
      var g :| g in b && g.seat == f.seat;
      assert LatestOfSeat(g, reports, track);
      OneLatestOfSeat(f, g, reports, track);
    }
  }

  lemma {:induction false} OneLatestOfSeat(f: ReportFile, g: ReportFile, reports: seq<ReportFile>, track: string)
    requires LatestOfSeat(f, reports, track) && LatestOfSeat(g, reports, track) && f.seat == g.seat
    ensures f == g
  {
  }

  lemma {:induction false} AscendingSame(a: seq<ReportFile>, b: seq<ReportFile>)
    requires SeatsAscend(a) && SeatsAscend(b) && forall f :: f in a <==> f in b
    ensures a == b
  {
    HasMember(a, b);
    HasMember(b, a);
    if a != [] {
      SameLast(a, b);
      FrontMembers(a);
      FrontMembers(b);
      AscendingSame(Front(a), Front(b));
      assert a == Front(a) + [Last(a)] && b == Front(b) + [Last(b)];
    }
  }

  lemma {:induction false} HasMember(a: seq<ReportFile>, b: seq<ReportFile>)
    requires forall f :: f in a ==> f in b
    ensures a != [] ==> b != [] && Last(a) in b
  {
    if a != [] {
      assert Last(a) in a;
    }
  }

  lemma {:induction false} SameLast(a: seq<ReportFile>, b: seq<ReportFile>)
    requires SeatsAscend(a) && SeatsAscend(b) && a != [] && b != [] && forall f :: f in a <==> f in b
    ensures Last(a) == Last(b)
  {
    HasMember(a, b);
    HasMember(b, a);
    LastIsGreatest(a, Last(b));
    LastIsGreatest(b, Last(a));
    StrLessTotal(Last(a).seat, Last(b).seat);
  }

  lemma {:induction false} LastIsGreatest(a: seq<ReportFile>, f: ReportFile)
    requires SeatsAscend(a) && f in a
    ensures f == Last(a) || StrLess(f.seat, Last(a).seat)
  {
    var i :| 0 <= i < |a| && a[i] == f;
  }

  lemma {:induction false} FrontMembers(a: seq<ReportFile>)
    requires SeatsAscend(a) && a != []
    ensures forall f :: f in Front(a) <==> f in a && f != Last(a)
  {
    StrLessTotal(Last(a).seat, Last(a).seat);
    assert forall i :: 0 <= i < |a| - 1 ==> Front(a)[i] == a[i];
  }

  lemma {:induction false} YoungestOfOwn(f: ReportFile, reports: seq<ReportFile>, track: string)
    requires FirstYoungest(PanelOf(reports, track), f)
    ensures LatestOfSeat(f, reports, track)
  {
    var own := PanelOf(reports, track);
    var i :| && 0 <= i < |own| && own[i] == f
             && (forall j :: 0 <= j < |own| && own[j].seat == f.seat ==> own[j].mtime <= f.mtime)
             && (forall j :: 0 <= j < i && own[j].seat == f.seat ==> own[j].mtime < f.mtime);
    var keep := OfTrack(track);
    var at := KeptAt(reports, keep);
    PanelOfIs(reports, track);
    FilterIs(reports, keep, Itself);
    KeptAtIncreases(reports, keep);
    EveryKeptIsListed(reports, keep);
    assert at[i] in at && reports[at[i]] == f;
    forall j | 0 <= j < |reports| && reports[j].track == track && reports[j].seat == f.seat
      ensures reports[j].mtime <= f.mtime && (j < at[i] ==> reports[j].mtime < f.mtime)
    {
      assert j in at;
      var k :| 0 <= k < |at| && at[k] == j;
      assert own[k] == reports[j];
      assert k > i ==> at[i] < at[k];
    }
  }

  lemma {:induction false} OwnPanel(reports: seq<ReportFile>, track: string)
    ensures forall i :: 0 <= i < |reports| && reports[i].track == track ==> reports[i] in PanelOf(reports, track)
    ensures forall f :: f in PanelOf(reports, track) ==> f in reports && f.track == track
  {
    PanelOfIs(reports, track);
    FilterMembers(reports, OfTrack(track), Itself);
  }

  lemma {:induction false} OwnTiebreaks(tbs: seq<TiebreakFile>, track: string)
    ensures forall i :: 0 <= i < |tbs| && tbs[i].track == track ==> tbs[i] in TiebreaksOf(tbs, track)
  {
    TiebreaksOfIs(tbs, track);
    FilterMembers(tbs, TiebreakOfTrack(track), Itself);
  }

  lemma {:induction false} WinsIff(r: Reports, track: string)
    ensures TiebreakWins(PanelOf(r.panel, track), TiebreaksOf(r.tiebreak, track)) <==> TiebreakDecides(r, track)
  {
    OwnPanel(r.panel, track);
    OwnTiebreaks(r.tiebreak, track);
    if TiebreakWins(PanelOf(r.panel, track), TiebreaksOf(r.tiebreak, track)) {
      YoungestIs(r.tiebreak, track);
      WinnerDecides(Youngest(TiebreaksOf(r.tiebreak, track)), r, track);
    } else if TiebreakDecides(r, track) {
      DeciderWins(r, track);
    }
  }

  lemma {:induction false} WinnerDecides(y: TiebreakFile, r: Reports, track: string)
    requires YoungestOfTrack(y, r.tiebreak, track) && y.mtime > PanelMtime(PanelOf(r.panel, track))
    ensures TiebreakDecides(r, track)
  {
    var panel := PanelOf(r.panel, track);
    OwnPanel(r.panel, track);
    assert panel != [] ==> panel[0] in r.panel;
    forall i | 0 <= i < |r.panel| && r.panel[i].track == track ensures r.panel[i].mtime < y.mtime {
      assert r.panel[i] in panel;
    }
  }

  lemma {:induction false} DeciderWins(r: Reports, track: string)
    requires TiebreakDecides(r, track)
    ensures TiebreakWins(PanelOf(r.panel, track), TiebreaksOf(r.tiebreak, track))
  {
    var panel, tbs := PanelOf(r.panel, track), TiebreaksOf(r.tiebreak, track);
    OwnPanel(r.panel, track);
    OwnTiebreaks(r.tiebreak, track);
    var k :| && 0 <= k < |r.tiebreak| && r.tiebreak[k].track == track
             && (forall i :: 0 <= i < |r.panel| && r.panel[i].track == track ==>
                   r.panel[i].mtime < r.tiebreak[k].mtime)
             && ((exists i :: 0 <= i < |r.panel| && r.panel[i].track == track) || r.tiebreak[k].mtime > -1);
    assert r.tiebreak[k] in tbs;
    forall i | 0 <= i < |panel| ensures panel[i].mtime < r.tiebreak[k].mtime {
      assert panel[i] in panel;
    }
  }

  /** A project's tracks and their decision_ref; a store without the column reads as all empty. */
  datatype Store = Store(refs: map<string, Option<string>>, hasColumn: bool)

  predicate IsFilled(s: Store, track: string)
    requires track in s.refs
  {
    s.hasColumn && s.refs[track].Some? && s.refs[track].value != ""
  }

  datatype Reports = Reports(panel: seq<ReportFile>, tiebreak: seq<TiebreakFile>)

  /** The distinct tracks of the reports, in order of first appearance. */
  function PanelTracks(reports: seq<ReportFile>): seq<string> {
    if reports == [] then []
    else
      var before := PanelTracks(Front(reports));
      if Last(reports).track in before then before else before + [Last(reports).track]
  }

  function AddTiebreakTracks(before: seq<string>, tbs: seq<TiebreakFile>): seq<string> {
    if tbs == [] then before
    else
      var rest := AddTiebreakTracks(before, Front(tbs));
      if Last(tbs).track in rest then rest else rest + [Last(tbs).track]
  }

  /** `sorted(set(by_track) | set(tiebreak_by_track))`. */
  function TrackIds(r: Reports): seq<string> {
    Sort(AddTiebreakTracks(PanelTracks(r.panel), r.tiebreak), StrLess)
  }

  ghost predicate HasReport(r: Reports, track: string) {
    || (exists i :: 0 <= i < |r.panel| && r.panel[i].track == track)
    || (exists i :: 0 <= i < |r.tiebreak| && r.tiebreak[i].track == track)
  }

  lemma {:induction false} PanelTracksAre(reports: seq<ReportFile>)
    ensures Distinct(PanelTracks(reports))
    ensures forall t :: t in PanelTracks(reports) <==> exists i :: 0 <= i < |reports| && reports[i].track == t
  {
    if reports == [] {
    } else {
      PanelTracksAre(Front(reports));
      assert forall i :: 0 <= i < |reports| - 1 ==> Front(reports)[i] == reports[i];
      assert Last(reports) == reports[|reports| - 1];
    }
  }

  lemma {:induction false} TiebreakTracksAre(before: seq<string>, tbs: seq<TiebreakFile>)
    requires Distinct(before)
    ensures Distinct(AddTiebreakTracks(before, tbs))
    ensures forall t :: t in AddTiebreakTracks(before, tbs) <==>
              t in before || exists i :: 0 <= i < |tbs| && tbs[i].track == t
  {
    if tbs == [] {
    } else {
      TiebreakTracksAre(before, Front(tbs));
      assert forall i :: 0 <= i < |tbs| - 1 ==> Front(tbs)[i] == tbs[i];
      assert Last(tbs) == tbs[|tbs| - 1];
    }
  }

  /** Each track with a report once, in order. */
  lemma {:induction false} TrackIdsAre(r: Reports)
    ensures Distinct(TrackIds(r))
    ensures forall i, j :: 0 <= i < j < |TrackIds(r)| ==> StrLess(TrackIds(r)[i], TrackIds(r)[j])
    ensures forall t :: t in TrackIds(r) <==> HasReport(r, t)
  {
    var ids := AddTiebreakTracks(PanelTracks(r.panel), r.tiebreak);
    PanelTracksAre(r.panel);
    TiebreakTracksAre(PanelTracks(r.panel), r.tiebreak);
    StringsOrder();
    SortKeeps(ids, StrLess);
    SortOrders(ids, StrLess);
    SameMembers(TrackIds(r), ids);
    PermutationKeepsDistinct(ids, TrackIds(r));
    forall i, j | 0 <= i < j < |TrackIds(r)| ensures StrLess(TrackIds(r)[i], TrackIds(r)[j]) {
      StrLessTotal(TrackIds(r)[i], TrackIds(r)[j]);
      assert TrackIds(r)[i] != TrackIds(r)[j];
    }
  }

  lemma {:induction false} DistinctMeansOnce<T>(s: seq<T>)
    requires Distinct(s)
    ensures forall x :: multiset(s)[x] <= 1
  {
    if s == [] {
    } else {
      DistinctMeansOnce(Front(s));
      assert s == Front(s) + [Last(s)];
      assert Last(s) !in Front(s);
    }
  }

  lemma {:induction false} PermutationKeepsDistinct<T>(a: seq<T>, b: seq<T>)
    requires Distinct(a) && multiset(a) == multiset(b)
    ensures Distinct(b)
  {
    DistinctMeansOnce(a);
    forall i, j | 0 <= i < j < |b| ensures b[i] != b[j] {
      assert b == b[..j] + [b[j]] + b[j + 1..];
      assert multiset(b)[b[j]] <= 1;
      assert multiset(b[..j])[b[j]] == 0;
      assert b[i] == b[..j][i] && b[i] in b[..j];
    }
  }

  datatype Decision = Orphan | AlreadyFilled | Write(payload: string) | Failed | ColumnMissing | Crashed

  /** What the loop body does for one track, read off the store. */
  function Decide(s: Store, track: string, r: Reports, b: Builders, setAt: string): Decision {
    var panel, tbs := PanelOf(r.panel, track), TiebreaksOf(r.tiebreak, track);
    if track !in s.refs then Orphan
    else if IsFilled(s, track) then AlreadyFilled
    else if TiebreakWins(panel, tbs) then
      match b.tiebreak(track, Youngest(tbs), panel, setAt)
      case Payload(text) => if s.hasColumn then Write(text) else ColumnMissing
      case Unparseable => Failed
      case Crash => Crashed
    else
      match b.panel(track, LatestPerSeat(panel), setAt)
      case Some(text) => if s.hasColumn then Write(text) else ColumnMissing
      case None => Failed
  }

  /** What the builder that the track's reports call for yields: the tiebreak builder is given the
      track's youngest tiebreak report and all its panel reports, the panel builder the track's latest
      report of each seat. */
  ghost predicate Yields(built: Built, r: Reports, track: string, b: Builders, setAt: string) {
    if TiebreakDecides(r, track) then
      exists f :: YoungestOfTrack(f, r.tiebreak, track) &&
                  b.tiebreak(track, f, Filter(r.panel, OfTrack(track), Itself), setAt) == built
    else
      exists latest :: LatestOfTrack(latest, r.panel, track) &&
                       OfPanel(b.panel(track, latest, setAt)) == built
  }

  function OfPanel(text: Option<string>): Built {
    if text.Some? then Payload(text.value) else Unparseable
  }

  lemma {:induction false} YieldsOne(x: Built, y: Built, r: Reports, track: string, b: Builders, setAt: string)
    requires Yields(x, r, track, b, setAt) && Yields(y, r, track, b, setAt)
    ensures x == y
  {
    if TiebreakDecides(r, track) {
      var f :| YoungestOfTrack(f, r.tiebreak, track) &&
               b.tiebreak(track, f, Filter(r.panel, OfTrack(track), Itself), setAt) == x;
      var g :| YoungestOfTrack(g, r.tiebreak, track) &&
               b.tiebreak(track, g, Filter(r.panel, OfTrack(track), Itself), setAt) == y;
      OneYoungest(f, g, r.tiebreak, track);
    } else {
      var m :| LatestOfTrack(m, r.panel, track) && OfPanel(b.panel(track, m, setAt)) == x;
      var n :| LatestOfTrack(n, r.panel, track) && OfPanel(b.panel(track, n, setAt)) == y;
      OneLatest(m, n, r.panel, track);
    }
  }

  /** What is decided about a track, read off the store and the track's own reports. */
  ghost predicate Decided(d: Decision, s: Store, track: string, r: Reports, b: Builders, setAt: string) {
    match d
    case Orphan => track !in s.refs
    case AlreadyFilled => track in s.refs && s.hasColumn && s.refs[track].Some? && s.refs[track].value != ""
    case Write(text) => IsOpen(s, track) && s.hasColumn && Yields(Payload(text), r, track, b, setAt)
    case ColumnMissing => IsOpen(s, track) && !s.hasColumn && exists text :: Yields(Payload(text), r, track, b, setAt)
    case Failed => IsOpen(s, track) && Yields(Unparseable, r, track, b, setAt)
    case Crashed => IsOpen(s, track) && Yields(Crash, r, track, b, setAt)
  }

  /** A track of the project without a reference. */
  ghost predicate IsOpen(s: Store, track: string) {
    track in s.refs && (s.hasColumn ==> s.refs[track].None? || s.refs[track].value == "")
  }

  /** A track is decided by its own reports and nothing else. */
  lemma {:induction false} DecideIs(s: Store, track: string, r: Reports, b: Builders, setAt: string)
    ensures Decided(Decide(s, track, r, b, setAt), s, track, r, b, setAt)
  {
    if track in s.refs && !IsFilled(s, track) {
      var panel, tbs := PanelOf(r.panel, track), TiebreaksOf(r.tiebreak, track);
      WinsIff(r, track);
      PanelOfIs(r.panel, track);
      if TiebreakWins(panel, tbs) {
        YoungestIs(r.tiebreak, track);
        assert Yields(b.tiebreak(track, Youngest(tbs), panel, setAt), r, track, b, setAt);
      } else {
        LatestIs(r.panel, track);
        assert Yields(OfPanel(b.panel(track, LatestPerSeat(panel), setAt)), r, track, b, setAt);
      }
    }
  }

  /** A reference is as it was, or was empty and took what the track's reports yield. */
  ghost predicate FilledByReports(ref: Option<string>, was: Option<string>, hasColumn: bool, r: Reports, track: string,
                                  b: Builders, setAt: string) {
    || ref == was
    || (&& hasColumn && (was.None? || was.value == "") && HasReport(r, track)
        && ref.Some? && Yields(Payload(ref.value), r, track, b, setAt))
  }

  predicate Stops(d: Decision) {
    d.ColumnMissing? || d.Crashed?
  }

  /** How many of the tracks are completed before the run stops. */
  function StopAt(s: Store, tracks: seq<string>, r: Reports, b: Builders, setAt: string): (n: nat)
    ensures n <= |tracks|
    ensures forall k :: 0 <= k < n ==> !Stops(Decide(s, tracks[k], r, b, setAt))
    ensures n < |tracks| ==> Stops(Decide(s, tracks[n], r, b, setAt))
  {
    if tracks == [] || Stops(Decide(s, tracks[0], r, b, setAt)) then 0
    else 1 + StopAt(s, tracks[1..], r, b, setAt)
  }

  /** The store after the tracks in done have been handled. */
  function Handled(s: Store, done: seq<string>, r: Reports, b: Builders, setAt: string): Store {
    s.(refs := map t | t in s.refs ::
      if t in done && Decide(s, t, r, b, setAt).Write? then Some(Decide(s, t, r, b, setAt).payload) else s.refs[t])
  }

  function Backfilled(s: Store, tracks: seq<string>, r: Reports, b: Builders, setAt: string): Store {
    Handled(s, tracks[..StopAt(s, tracks, r, b, setAt)], r, b, setAt)
  }

  /** The completed tracks with a given outcome, in order. */
  function With(s: Store, done: seq<string>, r: Reports, b: Builders, setAt: string,
                want: Decision -> bool): seq<string> {
    if done == [] then []
    else With(s, Front(done), r, b, setAt, want) +
         (if want(Decide(s, Last(done), r, b, setAt)) then [Last(done)] else [])
  }

  predicate WasWritten(d: Decision) { d.Write? }
  predicate WasFilled(d: Decision) { d.AlreadyFilled? }
  predicate HasFailed(d: Decision) { d.Failed? || d.ColumnMissing? }
  predicate IsOrphan(d: Decision) { d.Orphan? }

  /** failed lists the tracks with an error: no payload, or a missing column. */
  datatype RunReport = RunReport(
    withReports: nat, filled: seq<string>, already: seq<string>, orphans: seq<string>, failed: seq<string>)

  function ReportOf(s: Store, done: seq<string>, r: Reports, b: Builders, setAt: string): RunReport {
    var written, already := With(s, done, r, b, setAt, WasWritten), With(s, done, r, b, setAt, WasFilled);
    var failed := With(s, done, r, b, setAt, HasFailed);
    RunReport(|written| + |already| + |failed|, written, already, With(s, done, r, b, setAt, IsOrphan), failed)
  }

  /** The store after one track's decision. */
  function After(s: Store, track: string, d: Decision): Store {
    if d.Write? then s.(refs := s.refs[track := Some(d.payload)]) else s
  }

  lemma {:induction false} StopStep(s: Store, tracks: seq<string>, k: nat, r: Reports, b: Builders, setAt: string)
    requires k < |tracks| && k <= StopAt(s, tracks, r, b, setAt)
    ensures var n := StopAt(s, tracks, r, b, setAt);
      if Stops(Decide(s, tracks[k], r, b, setAt)) then n == k else k + 1 <= n
  {
  }

  /** The tracks the report of a run covers: a missing column is reported before the loop is left. */
  function Covered(s: Store, tracks: seq<string>, r: Reports, b: Builders, setAt: string): (n: nat)
    ensures n <= |tracks|
  {
    var n := StopAt(s, tracks, r, b, setAt);
    if n < |tracks| && Decide(s, tracks[n], r, b, setAt).ColumnMissing? then n + 1 else n
  }

  predicate EndsInCrash(s: Store, tracks: seq<string>, r: Reports, b: Builders, setAt: string) {
    var n := StopAt(s, tracks, r, b, setAt);
    n < |tracks| && Decide(s, tracks[n], r, b, setAt).Crashed?
  }

  class TrackStore {
    var refs: map<string, Option<string>>
    const hasColumn: bool

    constructor (s: Store)
      ensures View() == s
    {
      refs, hasColumn := s.refs, s.hasColumn;
    }

    function View(): Store
      reads this
    {
      Store(refs, hasColumn)
    }

    /** `apply_backfill`: every track that has a report, in sorted order. */
    method ApplyBackfill(r: Reports, b: Builders, setAt: string) returns (report: RunReport, crashed: bool)
      modifies this
      ensures View() == Backfilled(old(View()), TrackIds(r), r, b, setAt)
      ensures crashed == EndsInCrash(old(View()), TrackIds(r), r, b, setAt)
      ensures report == ReportOf(old(View()), TrackIds(r)[..Covered(old(View()), TrackIds(r), r, b, setAt)], r, b,
          setAt)
      ensures refs.Keys == old(refs).Keys
      ensures forall t :: t in refs ==> FilledByReports(refs[t], old(refs)[t], hasColumn, r, t, b, setAt)
    {
      forall t | t in refs
        ensures FilledByReports(Backfilled(View(), TrackIds(r), r, b, setAt).refs[t], refs[t], hasColumn, r, t, b,
                    setAt)
      {
        FillsOnlyEmpty(View(), r, b, setAt, t);
      }
      TrackIdsAre(r);
      report, crashed := HandleTracks(TrackIds(r), r, b, setAt);
    }

    /** The loop; crashed tells that an exception ended it. */
    method HandleTracks(tracks: seq<string>, r: Reports, b: Builders, setAt: string)
      returns (report: RunReport, crashed: bool)
      requires Distinct(tracks)
      modifies this
      ensures View() == Backfilled(old(View()), tracks, r, b, setAt)
      ensures crashed == EndsInCrash(old(View()), tracks, r, b, setAt)
      ensures report == ReportOf(old(View()), tracks[..Covered(old(View()), tracks, r, b, setAt)], r, b, setAt)
    {
      ghost var s := View();
      report, crashed := RunReport(0, [], [], [], []), false;
      assert Handled(s, tracks[..0], r, b, setAt) == s;
      var k := 0;
      while k < |tracks|
        invariant k <= StopAt(s, tracks, r, b, setAt)
        invariant View() == Handled(s, tracks[..k], r, b, setAt)
        invariant report == ReportOf(s, tracks[..k], r, b, setAt)
      {
        StoreStep(s, tracks, k, r, b, setAt);
        StopStep(s, tracks, k, r, b, setAt);
        var decision := HandleTrack(tracks[k], r, b, setAt);
        if decision.Crashed? {
          return report, true;
        }
        ReportStep(s, tracks, k, r, b, setAt);
        report := Record(report, tracks[k], decision);
        if decision.ColumnMissing? {
          return;
        }
        k := k + 1;
      }
      assert tracks[..k] == tracks;
    }

    /** The loop body, up to the report. */
    method HandleTrack(track: string, r: Reports, b: Builders, setAt: string) returns (d: Decision)
      modifies this
      ensures d == Decide(old(View()), track, r, b, setAt)
      ensures Decided(d, old(View()), track, r, b, setAt)
      ensures View() == After(old(View()), track, d)
    {
      DecideIs(View(), track, r, b, setAt);
      var panelFiles, tbFiles := PanelOf(r.panel, track), TiebreaksOf(r.tiebreak, track);
      if track !in refs {
        return Orphan;
      }
      if hasColumn && refs[track].Some? && refs[track].value != "" {
        return AlreadyFilled;
      }
      var payload: string;
      if tbFiles != [] && Youngest(tbFiles).mtime > PanelMtime(panelFiles) {
        var built := b.tiebreak(track, Youngest(tbFiles), panelFiles, setAt);
        match built {
          case Unparseable => return Failed;
          case Crash => return Crashed;
          case Payload(text) => payload := text;
        }
      } else {
        var latest := LatestPerLabel(panelFiles);
        var built := b.panel(track, latest, setAt);
        match built {
          case None => return Failed;
          case Some(text) => payload := text;
        }
      }
      if !hasColumn {
        return ColumnMissing;
      }
      refs := refs[track := Some(payload)];
      return Write(payload);
    }

    /** `apply_supersede_live`: writes the one named track, or nothing. */
    method ApplySupersede(track: string, r: Reports, b: Builders, setAt: string) returns (result: Supersede)
      modifies this
      ensures result == Compute(old(View()), track, r, b, setAt)
      ensures View() == Superseded(old(View()), track, r, b, setAt)
      ensures refs == if result.WouldSupersede? then old(refs)[track := Some(result.payload)] else old(refs)
      ensures result.WouldSupersede? <==> SupersedesNow(old(View()), track, r, b, setAt)
      ensures result.WouldSupersede? ==> Replaces(result.payload, old(refs)[track].value, r, track, b, setAt)
    {
      result := ComputeSupersede(track, r, b, setAt);
      if result.WouldSupersede? {
        refs := refs[track := Some(result.payload)];
      }
    }

    /** `compute_supersede_panel_with_tiebreak`: its early returns in order. */
    method ComputeSupersede(track: string, r: Reports, b: Builders, setAt: string) returns (result: Supersede)
      ensures result == Compute(View(), track, r, b, setAt)
      ensures result.WouldSupersede? <==> SupersedesNow(View(), track, r, b, setAt)
      ensures result.WouldSupersede? ==> Replaces(result.payload, refs[track].value, r, track, b, setAt)
    {
      SupersedesOrNot(View(), track, r, b, setAt);
      if track !in refs {
        return Skipped(TrackNotFound);
      }
      if !hasColumn || refs[track].None? || refs[track].value == "" {
        return Skipped(NothingToSupersede);
      }
      var current := refs[track].value;
      var panelFiles, tbFiles := PanelOf(r.panel, track), TiebreaksOf(r.tiebreak, track);
      if tbFiles == [] || Youngest(tbFiles).mtime <= PanelMtime(panelFiles) {
        return Skipped(TiebreakNotYoungest);
      }
      var youngest := Youngest(tbFiles);
      var existing := b.epochOf(current);
      if existing.None? {
        return Skipped(NoParseableSetAt);
      }
      if youngest.mtime <= existing.value {
        return Skipped(NotNewer);
      }
      var payload := b.supersede(youngest, current, setAt);
      if payload.None? {
        return Skipped(ReportUnparseable);
      }
      return WouldSupersede(payload.value);
    }
  }

  function Record(report: RunReport, track: string, d: Decision): RunReport {
    match d
    case Orphan => report.(orphans := report.orphans + [track])
    case AlreadyFilled => report.(withReports := report.withReports + 1, already := report.already + [track])
    case Write(_) => report.(withReports := report.withReports + 1, filled := report.filled + [track])
    case Failed => report.(withReports := report.withReports + 1, failed := report.failed + [track])
    case ColumnMissing => report.(withReports := report.withReports + 1, failed := report.failed + [track])
    case Crashed => report
  }

  /** What a decision reads of the store: the track's own reference and the column. */
  lemma {:induction false} DecideIsLocal(s: Store, u: Store, track: string, r: Reports, b: Builders, setAt: string)
    requires s.hasColumn == u.hasColumn && (track in s.refs <==> track in u.refs)
    requires track in s.refs ==> s.refs[track] == u.refs[track]
    ensures Decide(s, track, r, b, setAt) == Decide(u, track, r, b, setAt)
  {
  }

  lemma {:induction false} StoreStep(s: Store, tracks: seq<string>, k: nat, r: Reports, b: Builders, setAt: string)
    requires Distinct(tracks) && k < |tracks|
    ensures var now, track := Handled(s, tracks[..k], r, b, setAt), tracks[k];
      var d := Decide(s, track, r, b, setAt);
      Decide(now, track, r, b, setAt) == d && Handled(s, tracks[..k + 1], r, b, setAt) == After(now, track, d)
  {
    var now, track := Handled(s, tracks[..k], r, b, setAt), tracks[k];
    assert track !in tracks[..k];
    DecideIsLocal(s, now, track, r, b, setAt);
    assert tracks[..k + 1] == tracks[..k] + [track];
  }

  lemma {:induction false} ReportStep(s: Store, tracks: seq<string>, k: nat, r: Reports, b: Builders, setAt: string)
    requires k < |tracks| && !Decide(s, tracks[k], r, b, setAt).Crashed?
    ensures ReportOf(s, tracks[..k + 1], r, b, setAt) ==
            Record(ReportOf(s, tracks[..k], r, b, setAt), tracks[k], Decide(s, tracks[k], r, b, setAt))
  {
    PrefixStep(tracks, k);
  }

  // ------------------------------------------------------------------------------------------
  // What a run guarantees
  // ------------------------------------------------------------------------------------------

  /** Only empty references are written, and only for a track that has reports: each keeps its old
      reference or takes the payload its own reports yield. */
  lemma {:induction false} FillsOnlyEmpty(s: Store, r: Reports, b: Builders, setAt: string, track: string)
    requires track in s.refs
    ensures var u := Backfilled(s, TrackIds(r), r, b, setAt);
      u.refs.Keys == s.refs.Keys && FilledByReports(u.refs[track], s.refs[track], s.hasColumn, r, track, b, setAt)
  {
    var done := TrackIds(r)[..StopAt(s, TrackIds(r), r, b, setAt)];
    DecideIs(s, track, r, b, setAt);
    if track in done {
      TrackIdsAre(r);
      assert track in TrackIds(r);
    }
  }

  /** A run that is not cut short misses no empty track with reports: it takes the payload its reports
      yield, or is unchanged because they yield none. */
  lemma {:induction false} FillsEveryEmpty(s: Store, r: Reports, b: Builders, setAt: string, track: string)
    requires IsOpen(s, track) && HasReport(r, track)
    requires StopAt(s, TrackIds(r), r, b, setAt) == |TrackIds(r)|
    ensures var ref := Backfilled(s, TrackIds(r), r, b, setAt).refs[track];
      if Yields(Unparseable, r, track, b, setAt) then ref == s.refs[track]
      else ref.Some? && Yields(Payload(ref.value), r, track, b, setAt)
  {
    var tracks := TrackIds(r);
    TrackIdsAre(r);
    assert tracks[..|tracks|] == tracks;
    var k :| 0 <= k < |tracks| && tracks[k] == track;
    var d := Decide(s, tracks[k], r, b, setAt);
    assert !Stops(d);
    DecideIs(s, track, r, b, setAt);
    if d.Write? && Yields(Unparseable, r, track, b, setAt) {
      YieldsOne(Unparseable, Payload(d.payload), r, track, b, setAt);
    }
  }

  /** A second run, at any later set_at, writes nothing: it meets the filled tracks as filled, fails
      where the first failed and stops where the first stopped. */
  lemma {:induction false} SecondRunWritesNothing(s: Store, tracks: seq<string>, r: Reports, b: Builders,
                                                  setAt: string, later: string)
    requires FillLaw(b) && Distinct(tracks)
    ensures var once := Backfilled(s, tracks, r, b, setAt);
      Backfilled(once, tracks, r, b, later) == once
  {
    var once := Backfilled(s, tracks, r, b, setAt);
    var n, m := StopAt(s, tracks, r, b, setAt), StopAt(once, tracks, r, b, later);
    StopsAgain(s, tracks, r, b, setAt, later);
    forall k | 0 <= k < m ensures !Decide(once, tracks[k], r, b, later).Write? {
      DecidedTwice(s, tracks, k, r, b, setAt, later);
    }
    forall t | t in once.refs && t in tracks[..m] ensures !Decide(once, t, r, b, later).Write? {
      var k :| 0 <= k < m && tracks[..m][k] == t;
    }
    assert Handled(once, tracks[..m], r, b, later).refs == once.refs;
  }

  // Its steps, kept apart so that no single proof reasons about two whole runs at once.

  /** A track the first run completed is not written by the second. */
  lemma {:induction false} DecidedTwice(s: Store, tracks: seq<string>, k: nat, r: Reports, b: Builders, setAt: string,
                                        later: string)
    requires FillLaw(b) && k < StopAt(s, tracks, r, b, setAt)
    ensures !Decide(Backfilled(s, tracks, r, b, setAt), tracks[k], r, b, later).Write?
  {
    var n := StopAt(s, tracks, r, b, setAt);
    var once, track := Backfilled(s, tracks, r, b, setAt), tracks[k];
    assert tracks[..n][k] == track;
    var d := Decide(s, track, r, b, setAt);
    if d.Write? {
      WrittenIsNotEmpty(s, track, r, b, setAt);
      assert IsFilled(once, track);
    } else {
      DecideIsLocal(s, once, track, r, b, later);
      FailsAgain(s, track, r, b, setAt, later);
    }
  }

  lemma {:induction false} WrittenIsNotEmpty(s: Store, track: string, r: Reports, b: Builders, setAt: string)
    requires FillLaw(b) && Decide(s, track, r, b, setAt).Write?
    ensures Decide(s, track, r, b, setAt).payload != "" && s.hasColumn
  {
  }

  lemma {:induction false} FailsAgain(s: Store, track: string, r: Reports, b: Builders, setAt: string, later: string)
    requires FillLaw(b)
    ensures !Decide(s, track, r, b, setAt).Write? ==> !Decide(s, track, r, b, later).Write?
    ensures Stops(Decide(s, track, r, b, setAt)) ==> Stops(Decide(s, track, r, b, later))
  {
    var panel, tbs := PanelOf(r.panel, track), TiebreaksOf(r.tiebreak, track);
    var latest := LatestPerSeat(panel);
    var _ := b.panel(track, latest, setAt);
    assert b.panel(track, latest, later).Some? ==> b.panel(track, latest, setAt).Some?;
    if tbs != [] {
      var y := Youngest(tbs);
      assert b.tiebreak(track, y, panel, later).Payload? ==> b.tiebreak(track, y, panel, setAt).Payload?;
      assert b.tiebreak(track, y, panel, setAt).Crash? ==> b.tiebreak(track, y, panel, later).Crash?;
    }
  }

  lemma {:induction false} StopsAgain(s: Store, tracks: seq<string>, r: Reports, b: Builders, setAt: string,
                                      later: string)
    requires FillLaw(b) && Distinct(tracks)
    ensures StopAt(Backfilled(s, tracks, r, b, setAt), tracks, r, b, later) <= StopAt(s, tracks, r, b, setAt)
  {
    var n := StopAt(s, tracks, r, b, setAt);
    var once := Backfilled(s, tracks, r, b, setAt);
    if n < |tracks| {
      assert tracks[n] !in tracks[..n];
      DecideIsLocal(s, once, tracks[n], r, b, later);
      FailsAgain(s, tracks[n], r, b, setAt, later);
    }
  }

  /** Every track a report covers is counted once: orphaned, filled before, filled now, or failed. */
  lemma {:induction false} ReportPartitions(s: Store, done: seq<string>, r: Reports, b: Builders, setAt: string)
    requires forall k :: 0 <= k < |done| ==> !Decide(s, done[k], r, b, setAt).Crashed?
    ensures var report := ReportOf(s, done, r, b, setAt);
      && report.withReports + |report.orphans| == |done|
      && report.withReports == |report.filled| + |report.already| + |report.failed|
  {
    if done == [] {
    } else {
      ReportPartitions(s, Front(done), r, b, setAt);
      assert done[|done| - 1] == Last(done);
    }
  }

  /** In particular the report of any run, cut short or not, partitions the tracks it covers. */
  lemma {:induction false} CoveredTracksPartition(s: Store, tracks: seq<string>, r: Reports, b: Builders, setAt: string)
    ensures var n := Covered(s, tracks, r, b, setAt);
      var report := ReportOf(s, tracks[..n], r, b, setAt);
      && report.withReports + |report.orphans| == n
      && report.withReports == |report.filled| + |report.already| + |report.failed|
  {
    ReportPartitions(s, tracks[..Covered(s, tracks, r, b, setAt)], r, b, setAt);
  }

  // ------------------------------------------------------------------------------------------
  // Superseding one track
  // ------------------------------------------------------------------------------------------

  datatype Reason =
    | TrackNotFound
    | NothingToSupersede
    | TiebreakNotYoungest
    | NoParseableSetAt
    | NotNewer
    | ReportUnparseable

  datatype Supersede = WouldSupersede(payload: string) | Skipped(reason: Reason)

  function Compute(s: Store, track: string, r: Reports, b: Builders, setAt: string): Supersede {
    var panel, tbs := PanelOf(r.panel, track), TiebreaksOf(r.tiebreak, track);
    if track !in s.refs then Skipped(TrackNotFound)
    else if !IsFilled(s, track) then Skipped(NothingToSupersede)
    else if !TiebreakWins(panel, tbs) then Skipped(TiebreakNotYoungest)
    else
      var current := s.refs[track].value;
      if b.epochOf(current).None? then Skipped(NoParseableSetAt)
      else if Youngest(tbs).mtime <= b.epochOf(current).value then Skipped(NotNewer)
      else
        match b.supersede(Youngest(tbs), current, setAt)
        case Some(text) => WouldSupersede(text)
        case None => Skipped(ReportUnparseable)
  }

  /** text replaces cur: the tiebreak builder's payload for the track's youngest tiebreak report, which is
      younger than its panel reports and than the set_at of cur. */
  ghost predicate Replaces(text: string, cur: string, r: Reports, track: string, b: Builders, setAt: string) {
    && TiebreakDecides(r, track) && b.epochOf(cur).Some?
    && exists f :: YoungestOfTrack(f, r.tiebreak, track) && f.mtime > b.epochOf(cur).value &&
                   b.supersede(f, cur, setAt) == Some(text)
  }

  /** Exactly then is a filled reference superseded, and only by that payload. */
  lemma {:induction false} SupersedesIff(s: Store, track: string, r: Reports, b: Builders, setAt: string, text: string)
    ensures Compute(s, track, r, b, setAt) == WouldSupersede(text) <==>
            && track in s.refs && s.hasColumn && s.refs[track].Some? && s.refs[track].value != ""
            && Replaces(text, s.refs[track].value, r, track, b, setAt)
  {
    WinsIff(r, track);
    if track in s.refs && IsFilled(s, track) && TiebreakDecides(r, track) {
      var cur, y := s.refs[track].value, Youngest(TiebreaksOf(r.tiebreak, track));
      YoungestIs(r.tiebreak, track);
      if Replaces(text, cur, r, track, b, setAt) {
        var f :| YoungestOfTrack(f, r.tiebreak, track) && f.mtime > b.epochOf(cur).value &&
                 b.supersede(f, cur, setAt) == Some(text);
        OneYoungest(f, y, r.tiebreak, track);
      }
    }
  }

  /** The track carries a reference that some payload replaces. */
  ghost predicate SupersedesNow(s: Store, track: string, r: Reports, b: Builders, setAt: string) {
    && track in s.refs && s.hasColumn && s.refs[track].Some? && s.refs[track].value != ""
    && exists text :: Replaces(text, s.refs[track].value, r, track, b, setAt)
  }

  lemma {:induction false} SupersedesOrNot(s: Store, track: string, r: Reports, b: Builders, setAt: string)
    ensures var c := Compute(s, track, r, b, setAt);
      && (c.WouldSupersede? <==> SupersedesNow(s, track, r, b, setAt))
      && (c.WouldSupersede? ==> Replaces(c.payload, s.refs[track].value, r, track, b, setAt))
  {
    var c := Compute(s, track, r, b, setAt);
    if c.WouldSupersede? {
      SupersedesIff(s, track, r, b, setAt, c.payload);
    } else if SupersedesNow(s, track, r, b, setAt) {
      var text :| Replaces(text, s.refs[track].value, r, track, b, setAt);
      SupersedesIff(s, track, r, b, setAt, text);
    }
  }

  function Superseded(s: Store, track: string, r: Reports, b: Builders, setAt: string): Store {
    match Compute(s, track, r, b, setAt)
    case WouldSupersede(text) => s.(refs := s.refs[track := Some(text)])
    case Skipped(_) => s
  }

  /** A superseding payload carries the set_at it was built with, and whether the tiebreak report
      parses depends on neither the superseded payload nor set_at. */
  ghost predicate SupersedeLaw(b: Builders) {
    && (forall f, cur, at :: b.supersede(f, cur, at).Some? ==>
          b.supersede(f, cur, at).value != "" && b.epochOf(b.supersede(f, cur, at).value) == Some(b.clock(at)))
    && (forall f, cur, at, cur', at' {:trigger b.supersede(f, cur, at), b.supersede(f, cur', at')} ::
          b.supersede(f, cur, at).Some? ==> b.supersede(f, cur', at').Some?)
  }

  /** A run of the scoped tool on one track, one call for each set_at. */
  function SupersedeRun(s: Store, track: string, r: Reports, b: Builders, setAts: seq<string>): Store {
    if setAts == [] then s else Superseded(SupersedeRun(s, track, r, b, Front(setAts)), track, r, b, Last(setAts))
  }

  /** Only the named track ever changes, and only if it carried a reference. */
  lemma {:induction false} SupersedeTouchesOne(s: Store, track: string, r: Reports, b: Builders, setAts: seq<string>)
    ensures var u := SupersedeRun(s, track, r, b, setAts);
      && u.hasColumn == s.hasColumn && u.refs.Keys == s.refs.Keys
      && (forall t :: t in s.refs && t != track ==> u.refs[t] == s.refs[t])
      && (track in s.refs && !IsFilled(s, track) ==> u == s)
  {
    if setAts == [] {
    } else {
      SupersedeTouchesOne(s, track, r, b, Front(setAts));
    }
  }

  /** After one supersede the next call, whatever its clock, supersedes again exactly when the tiebreak
      report is younger than the set_at just written. */
  lemma {:induction false} SupersededAgainIff(s: Store, track: string, r: Reports, b: Builders, setAt: string,
                                              later: string, f: TiebreakFile)
    requires SupersedeLaw(b) && Compute(s, track, r, b, setAt).WouldSupersede?
    requires YoungestOfTrack(f, r.tiebreak, track)
    ensures Compute(Superseded(s, track, r, b, setAt), track, r, b, later).WouldSupersede? <==>
            f.mtime > b.clock(setAt)
  {
    YoungestIs(r.tiebreak, track);
    OneYoungest(f, Youngest(TiebreaksOf(r.tiebreak, track)), r.tiebreak, track);
  }

  /** So once applied with a set_at no earlier than the report, the track is left alone from then on. */
  lemma {:induction false} SupersededIsFinal(s: Store, track: string, r: Reports, b: Builders, setAt: string,
                                             setAts: seq<string>, f: TiebreakFile)
    requires SupersedeLaw(b) && Compute(s, track, r, b, setAt).WouldSupersede?
    requires YoungestOfTrack(f, r.tiebreak, track) && f.mtime <= b.clock(setAt)
    ensures var once := Superseded(s, track, r, b, setAt);
      SupersedeRun(once, track, r, b, setAts) == once
  {
    if setAts == [] {
    } else {
      SupersededIsFinal(s, track, r, b, setAt, Front(setAts), f);
      SupersededAgainIff(s, track, r, b, setAt, Last(setAts), f);
    }
  }
}
