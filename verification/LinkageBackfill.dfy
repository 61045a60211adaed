/** Linking merged-PR evidence to feature tracks (scripts/backfill_dispatch_track_linkage.py). */
module LinkageBackfill {
  import opened Common
  import opened Text

  // ------------------------------------------------------------------------------------------
  // The roadmap's feature -> merged PRs map
  // ------------------------------------------------------------------------------------------

  datatype PrItem = NotAnItem | PrItem(status: Option<string>, prId: Option<string>)

  /** A feature after YAML loading; a queue that is not a list is None, a missing one is empty. */
  datatype Feature = NotAFeature | Feature(featureId: string, queue: Option<seq<PrItem>>)

  /** One entry of the insertion-ordered dict pr_map. */
  datatype FeaturePrs = FeaturePrs(featureId: string, merged: seq<string>)

  ghost predicate ValidMap(m: seq<FeaturePrs>) {
    && (forall i :: 0 <= i < |m| ==> m[i].merged != [])
    && (forall i, j :: 0 <= i < j < |m| ==> m[i].featureId != m[j].featureId)
  }

  /** The PR ids of the items marked merged, in queue order. */
  function MergedIds(items: seq<PrItem>): seq<string> {
    if items == [] then []
    else
      var item := Last(items);
      MergedIds(Front(items)) +
      (if item.PrItem? && item.status.Some? && Lower(item.status.value) == "merged"
          && item.prId.Some? && item.prId.value != "" then [Strip(item.prId.value)] else [])
  }

  function FeatureMerged(f: Feature): seq<string> {
    if f.Feature? && f.featureId != "" && f.queue.Some? then MergedIds(f.queue.value) else []
  }

  // What the map must hold, said about queue items

  /** Marked merged, in any case, with a PR id that is not empty. */
  ghost function MergedItem(): PrItem -> bool {
    (item: PrItem) => item.PrItem? && item.status.Some? && Lower(item.status.value) == "merged"
                      && item.prId.Some? && item.prId.value != ""
  }

  function PrOfItem(item: PrItem): string {
    if item.PrItem? && item.prId.Some? then Strip(item.prId.value) else ""
  }

  lemma {:induction false} MergedIdsAre(items: seq<PrItem>)
    ensures MergedIds(items) == Filter(items, MergedItem(), PrOfItem)
  {
    if items == [] {
    } else {
      MergedIdsAre(Front(items));
    }
  }

  /** The feature has this id and some item marked merged. */
  ghost predicate HasMergedPr(f: Feature, id: string) {
    && f.Feature? && f.featureId == id && id != "" && f.queue.Some?
    && exists i :: 0 <= i < |f.queue.value| && MergedItem()(f.queue.value[i])
  }

  lemma {:induction false} FeatureMergedIs(f: Feature, id: string)
    ensures FeatureMerged(f) != [] && f.Feature? && f.featureId == id <==> HasMergedPr(f, id)
    ensures HasMergedPr(f, id) ==> FeatureMerged(f) == Filter(f.queue.value, MergedItem(), PrOfItem)
  {
    if f.Feature? && f.queue.Some? {
      MergedIdsAre(f.queue.value);
      FilterNone(f.queue.value, MergedItem(), PrOfItem);
    }
  }

  /** Feature j is the last of the id that has an item marked merged. */
  ghost predicate LastWithMerged(features: seq<Feature>, id: string, j: nat) {
    j < |features| && HasMergedPr(features[j], id) && forall k :: j < k < |features| ==> !HasMergedPr(features[k], id)
  }

  /** The entry of an id: the trimmed PR ids of the merged items of the last such feature, in queue order. */
  ghost predicate LoadedEntry(features: seq<Feature>, id: string, entry: Option<FeaturePrs>) {
    match entry
    case None => forall j :: 0 <= j < |features| ==> !HasMergedPr(features[j], id)
    case Some(e) => exists j: nat :: LastWithMerged(features, id, j)
                      && e == FeaturePrs(id, Filter(features[j].queue.value, MergedItem(), PrOfItem))
  }

  lemma {:induction false} LastMergedIs(features: seq<Feature>, id: string)
    ensures LoadedEntry(features, id, LastMerged(features, id))
  {
    if features == [] {
    } else {
      var rest, f := Front(features), Last(features);
      assert forall k :: 0 <= k < |rest| ==> rest[k] == features[k];
      assert features[|features| - 1] == f;
      FeatureMergedIs(f, id);
      LastMergedIs(rest, id);
      if HasMergedPr(f, id) {
        assert LastWithMerged(features, id, |features| - 1);
      } else if LastMerged(rest, id).Some? {
        var j: nat :| LastWithMerged(rest, id, j)
          && LastMerged(rest, id).value == FeaturePrs(id, Filter(rest[j].queue.value, MergedItem(), PrOfItem));
        assert LastWithMerged(features, id, j);
      }
    }
  }

  /** Some feature has the first merged item of id a before any feature has one of id b. */
  ghost predicate SeenBefore(features: seq<Feature>, a: string, b: string) {
    exists j :: 0 <= j < |features| && HasMergedPr(features[j], a)
                && forall k :: 0 <= k <= j ==> !HasMergedPr(features[k], b)
  }

  ghost predicate SomeMergedPr(features: seq<Feature>, id: string) {
    exists j :: 0 <= j < |features| && HasMergedPr(features[j], id)
  }

  lemma {:induction false} SomeMergedStep(features: seq<Feature>, id: string)
    requires features != []
    ensures SomeMergedPr(features, id) <==> SomeMergedPr(Front(features), id) || HasMergedPr(Last(features), id)
  {
    assert forall k :: 0 <= k < |features| - 1 ==> Front(features)[k] == features[k];
    assert features[|features| - 1] == Last(features);
  }

  /** The ids with a merged item, each once. */
  lemma {:induction false} FirstSeenIs(features: seq<Feature>)
    ensures Distinct(FirstSeen(features))
    ensures forall id :: id in FirstSeen(features) <==> SomeMergedPr(features, id)
  {
    if features == [] {
    } else {
      FirstSeenIs(Front(features));
      forall id ensures id in FirstSeen(features) <==> SomeMergedPr(features, id) {
        FeatureMergedIs(Last(features), id);
        SomeMergedStep(features, id);
      }
    }
  }

  lemma {:induction false} SeenStepwise(features: seq<Feature>, a: string, b: string)
    requires features != []
    ensures SeenBefore(Front(features), a, b) ==> SeenBefore(features, a, b)
    ensures a in FirstSeen(Front(features)) && b !in FirstSeen(Front(features)) ==> SeenBefore(features, a, b)
  {
    var rest := Front(features);
    assert forall k :: 0 <= k < |rest| ==> rest[k] == features[k];
    FirstSeenIs(rest);
    if a in FirstSeen(rest) && b !in FirstSeen(rest) {
      assert SomeMergedPr(rest, a) && !SomeMergedPr(rest, b);
      var j :| 0 <= j < |rest| && HasMergedPr(rest[j], a);
      assert HasMergedPr(features[j], a);
    }
  }

  /** They stand in the order in which they first have one. */
  lemma {:induction false} FirstSeenOrder(features: seq<Feature>, i: nat, j: nat)
    requires i < j < |FirstSeen(features)|
    ensures SeenBefore(features, FirstSeen(features)[i], FirstSeen(features)[j])
  {
    var before := FirstSeen(Front(features));
    SeenStepwise(features, FirstSeen(features)[i], FirstSeen(features)[j]);
    if j < |before| {
      FirstSeenOrder(Front(features), i, j);
    }
  }

  function Lookup(m: seq<FeaturePrs>, id: string): (r: Option<FeaturePrs>)
    ensures r.Some? ==> r.value in m && r.value.featureId == id
    ensures r.None? ==> forall i :: 0 <= i < |m| ==> m[i].featureId != id
  {
    if m == [] then None
    else if Last(m).featureId == id then Some(Last(m))
    else Lookup(Front(m), id)
  }

  /** `pr_map[entry.featureId] = entry`: replaces in place, or appends a new key. */
  method PutEntry(m: seq<FeaturePrs>, entry: FeaturePrs) returns (put: seq<FeaturePrs>)
    requires ValidMap(m) && entry.merged != []
    ensures ValidMap(put)
    ensures forall id :: Lookup(put, id) == if id == entry.featureId then Some(entry) else Lookup(m, id)
    ensures IdsOf(put) == if entry.featureId in IdsOf(m) then IdsOf(m) else IdsOf(m) + [entry.featureId]
  {
    var i := 0;
    while i < |m| && m[i].featureId != entry.featureId
      invariant i <= |m|
      invariant forall j :: 0 <= j < i ==> m[j].featureId != entry.featureId
    {
      i := i + 1;
    }
    put := if i < |m| then m[i := entry] else m + [entry];
    assert i < |m| ==> IdsOf(m)[i] == entry.featureId;
    forall id ensures Lookup(put, id) == if id == entry.featureId then Some(entry) else Lookup(m, id) {
      LookupPut(m, i, entry, id);
    }
    LookupPut(m, i, entry, entry.featureId);
  }

  /** `load_roadmap_pr_map` after YAML: dict assignment replaces in place or appends. */
  method LoadPrMap(features: seq<Feature>) returns (m: seq<FeaturePrs>)
    ensures ValidMap(m)
    ensures forall id :: Lookup(m, id) == LastMerged(features, id)
    ensures IdsOf(m) == FirstSeen(features)
    ensures forall id :: LoadedEntry(features, id, Lookup(m, id))
  {
    m := [];
    var k := 0;
    while k < |features|
      invariant k <= |features|
      invariant ValidMap(m)
      invariant forall id :: Lookup(m, id) == LastMerged(features[..k], id)
      invariant IdsOf(m) == FirstSeen(features[..k])
    {
      PrefixStep(features, k);
      var merged := FeatureMerged(features[k]);
      if merged != [] {
        var entry := FeaturePrs(features[k].featureId, merged);
        m := PutEntry(m, entry);
      }
      k := k + 1;
    }
    assert features[..k] == features;
    forall id ensures LoadedEntry(features, id, Lookup(m, id)) {
      LastMergedIs(features, id);
    }
  }

  /** What the map must hold for an id: the merged PRs of the last feature that has any. */
  function LastMerged(features: seq<Feature>, id: string): Option<FeaturePrs> {
    if features == [] then None
    else if FeatureMerged(Last(features)) != [] && Last(features).featureId == id
    then Some(FeaturePrs(id, FeatureMerged(Last(features))))
    else LastMerged(Front(features), id)
  }

  /** The ids with merged PRs, in order of their first such feature: the dict's insertion order. */
  function FirstSeen(features: seq<Feature>): seq<string> {
    if features == [] then []
    else
      var before := FirstSeen(Front(features));
      if FeatureMerged(Last(features)) != [] && Last(features).featureId !in before
      then before + [Last(features).featureId] else before
  }

  function IdsOf(m: seq<FeaturePrs>): (ids: seq<string>)
    ensures |ids| == |m| && forall i :: 0 <= i < |m| ==> ids[i] == m[i].featureId
  {
    seq(|m|, i requires 0 <= i < |m| => m[i].featureId)
  }

  lemma {:induction false} PutIsValid(m: seq<FeaturePrs>, i: nat, entry: FeaturePrs)
    requires ValidMap(m) && entry.merged != []
    requires i <= |m| && (i < |m| ==> m[i].featureId == entry.featureId)
    requires i == |m| ==> forall j :: 0 <= j < |m| ==> m[j].featureId != entry.featureId
    ensures ValidMap(if i < |m| then m[i := entry] else m + [entry])
  {
  }

  lemma {:induction false} LookupPut(m: seq<FeaturePrs>, i: nat, entry: FeaturePrs, id: string)
    requires ValidMap(m) && entry.merged != []
    requires i <= |m| && (i < |m| ==> m[i].featureId == entry.featureId)
    requires i == |m| ==> forall j :: 0 <= j < |m| ==> m[j].featureId != entry.featureId
    ensures var put := if i < |m| then m[i := entry] else m + [entry];
      ValidMap(put) && Lookup(put, id) == if id == entry.featureId then Some(entry) else Lookup(m, id)
  {
    var put := if i < |m| then m[i := entry] else m + [entry];
    PutIsValid(m, i, entry);
    assert put[i] == entry && forall j :: 0 <= j < |m| && j != i ==> put[j] == m[j];
    LookupIs(put, i);
    if id != entry.featureId && Lookup(m, id).Some? {
      var j :| 0 <= j < |m| && m[j] == Lookup(m, id).value;
      LookupIs(put, j);
    }
  }

  // ------------------------------------------------------------------------------------------
  // PR -> feature
  // ------------------------------------------------------------------------------------------

  /** The first feature of the map that merged the PR. */
  function Owner(m: seq<FeaturePrs>, pr: string): (r: Option<string>) {
    if m == [] then None
    else if pr in m[0].merged then Some(m[0].featureId)
    else Owner(m[1..], pr)
  }

  lemma {:induction false} OwnerAppend(m: seq<FeaturePrs>, f: FeaturePrs, pr: string)
    ensures Owner(m + [f], pr) ==
            if Owner(m, pr).Some? then Owner(m, pr) else if pr in f.merged then Some(f.featureId) else None
  {
    if m == [] {
    } else {
      OwnerAppend(m[1..], f, pr);
      assert (m + [f])[1..] == m[1..] + [f];
    }
  }

  /** The inverted dict: distinct PRs, each with the feature that owns it. */
  ghost predicate Inverts(out: seq<(string, string)>, m: seq<FeaturePrs>) {
    && (forall i, j :: 0 <= i < j < |out| ==> out[i].0 != out[j].0)
    && (forall i :: 0 <= i < |out| ==> Owner(m, out[i].0) == Some(out[i].1))
    && (forall pr :: Owner(m, pr).Some? ==> exists i :: 0 <= i < |out| && out[i].0 == pr)
  }

  function PrOf(entry: (string, string)): string {
    entry.0
  }

  /** `_pr_to_feature`: setdefault over every feature's merged PRs. */
  method PrToFeature(m: seq<FeaturePrs>) returns (out: seq<(string, string)>)
    ensures Inverts(out, m)
  {
    out := [];
    var k := 0;
    while k < |m|
      invariant k <= |m|
      invariant Inverts(out, m[..k])
    {
      var f := m[k];
      ghost var done := m[..k];
      assert m[..k + 1] == done + [f];
      var i := 0;
      forall pr ensures Owner(done + [FeaturePrs(f.featureId, [])], pr) == Owner(done, pr) {
        OwnerAppend(done, FeaturePrs(f.featureId, []), pr);
      }
      while i < |f.merged|
        invariant i <= |f.merged|
        invariant Inverts(out, done + [FeaturePrs(f.featureId, f.merged[..i])])
      {
        ghost var g, h := FeaturePrs(f.featureId, f.merged[..i]), FeaturePrs(f.featureId, f.merged[..i + 1]);
        forall pr ensures Owner(done + [h], pr) == if pr == f.merged[i] && Owner(done + [g], pr).None?
                          then Some(f.featureId) else Owner(done + [g], pr) {
          OwnerAppend(done, g, pr);
          OwnerAppend(done, h, pr);
          assert h.merged == g.merged + [f.merged[i]];
        }
        ghost var before := out;
        if Find(out, PrOf, f.merged[i]) == |out| {
          out := out + [(f.merged[i], f.featureId)];
          assert out[|before|].0 == f.merged[i];
        }
        assert forall j :: 0 <= j < |before| ==> out[j] == before[j];
        i := i + 1;
      }
      assert f.merged[..i] == f.merged;
      k := k + 1;
    }
    assert m[..k] == m;
  }

  // ------------------------------------------------------------------------------------------
  // The coordination database
  // ------------------------------------------------------------------------------------------

  datatype Dispatch = Dispatch(id: string, project: string, track: Option<string>, prRef: Option<string>)

  datatype Track = Track(id: string, project: string, prRef: Option<string>)

  datatype CoordEvent = CoordEvent(
    eventId: string, eventType: string, entityType: string, entityId: string,
    prRef: string, trackId: string, occurredAt: string, project: string)

  datatype Db = Db(dispatches: seq<Dispatch>, tracks: seq<Track>, events: seq<CoordEvent>)

  /** The declared keys: (dispatch_id, project_id), (track_id, project_id) and event_id. */
  ghost predicate ValidDb(db: Db) {
    && (forall i, j :: 0 <= i < j < |db.dispatches| ==>
          (db.dispatches[i].id, db.dispatches[i].project) != (db.dispatches[j].id, db.dispatches[j].project))
    && (forall i, j :: 0 <= i < j < |db.tracks| ==>
          (db.tracks[i].id, db.tracks[i].project) != (db.tracks[j].id, db.tracks[j].project))
    && (forall i, j :: 0 <= i < j < |db.events| ==> db.events[i].eventId != db.events[j].eventId)
  }

  // Step 1: relinking dispatches

  /** A dispatch of the project without a track takes the owner of its PR; nothing else changes. */
  function Relink(d: Dispatch, m: seq<FeaturePrs>, project: string): Dispatch {
    if d.project == project && d.track.None? && d.prRef.Some? && Owner(m, d.prRef.value).Some?
    then d.(track := Owner(m, d.prRef.value)) else d
  }

  function RelinkAll(ds: seq<Dispatch>, m: seq<FeaturePrs>, project: string): (r: seq<Dispatch>)
    ensures |r| == |ds| && forall k :: 0 <= k < |ds| ==> r[k] == Relink(ds[k], m, project)
  {
    seq(|ds|, k requires 0 <= k < |ds| => Relink(ds[k], m, project))
  }

  /** The rows gained by a feature between two states of the table. */
  function Gained(before: seq<Dispatch>, after: seq<Dispatch>, feature: string): (n: nat)
    requires |before| == |after|
  {
    if before == [] then 0
    else Gained(Front(before), Front(after), feature) +
         (if Last(before) != Last(after) && Last(after).track == Some(feature) then 1 else 0)
  }

  function Changed(before: seq<Dispatch>, after: seq<Dispatch>): (n: nat)
    requires |before| == |after|
  {
    if before == [] then 0
    else Changed(Front(before), Front(after)) + (if Last(before) != Last(after) then 1 else 0)
  }

  predicate Selected(d: Dispatch, pr: string, project: string) {
    d.prRef == Some(pr) && d.track.None? && d.project == project
  }

  /** UPDATE dispatches SET track = feature WHERE pr_ref = pr AND track IS NULL AND project_id = project. */
  function SetTrack(ds: seq<Dispatch>, feature: string, pr: string, project: string): (r: seq<Dispatch>)
    ensures |r| == |ds|
    ensures forall k :: 0 <= k < |ds| ==>
              r[k] == if Selected(ds[k], pr, project) then ds[k].(track := Some(feature)) else ds[k]
  {
    seq(|ds|, k requires 0 <= k < |ds| =>
      if Selected(ds[k], pr, project) then ds[k].(track := Some(feature)) else ds[k])
  }

  function RowCount(ds: seq<Dispatch>, pr: string, project: string): nat {
    if ds == [] then 0
    else RowCount(Front(ds), pr, project) + (if Selected(Last(ds), pr, project) then 1 else 0)
  }

  /** An UPDATE touches rows that were still unchanged, so its rowcount is what it adds to each count. */
  lemma {:induction false} RowCountIsGain(was: seq<Dispatch>, ds: seq<Dispatch>, feature: string, pr: string,
                                          project: string)
    requires |was| == |ds|
    requires forall k :: 0 <= k < |ds| && Selected(ds[k], pr, project) ==> ds[k] == was[k]
    ensures var r := SetTrack(ds, feature, pr, project);
      && Changed(was, r) == Changed(was, ds) + RowCount(ds, pr, project)
      && forall f :: Gained(was, r, f) == Gained(was, ds, f) + if f == feature then RowCount(ds, pr, project) else 0
  {
    if ds == [] {
    } else {
      var r := SetTrack(ds, feature, pr, project);
      RowCountIsGain(Front(was), Front(ds), feature, pr, project);
      assert Front(r) == SetTrack(Front(ds), feature, pr, project);
    }
  }

  // Steps 2 and 3: track-level evidence

  predicate HasTrack(ts: seq<Track>, id: string, project: string) {
    exists k :: 0 <= k < |ts| && ts[k].id == id && ts[k].project == project
  }

  predicate IsLinked(d: Dispatch, feature: string, project: string) {
    d.track == Some(feature) && d.project == project
  }

  /** SELECT dispatch_id FROM dispatches WHERE track = feature AND project_id = project. */
  function Linked(ds: seq<Dispatch>, feature: string, project: string): (ids: seq<string>)
    ensures forall x :: x in ids <==> exists k :: 0 <= k < |ds| && ds[k].id == x && IsLinked(ds[k], feature, project)
  {
    if ds == [] then []
    else
      var rest := Linked(Front(ds), feature, project);
      assert forall k :: 0 <= k < |ds| - 1 ==> Front(ds)[k] == ds[k];
      if IsLinked(Last(ds), feature, project) then rest + [Last(ds).id] else rest
  }

  ghost function OnTrack(feature: string, project: string): Dispatch -> bool {
    (d: Dispatch) => d.track == Some(feature) && d.project == project
  }

  function IdOf(d: Dispatch): string {
    d.id
  }

  /** The ids of the project's dispatches on that track, in scan order. */
  lemma {:induction false} LinkedIs(ds: seq<Dispatch>, feature: string, project: string)
    ensures Linked(ds, feature, project) == Filter(ds, OnTrack(feature, project), IdOf)
  {
    if ds == [] {
    } else {
      LinkedIs(Front(ds), feature, project);
    }
  }

  /** NULL or the empty string: what the UPDATE of tracks.pr_ref selects. */
  predicate Unset(prRef: Option<string>) {
    prRef.None? || prRef.value == ""
  }

  /** What the Python guard in front of that UPDATE takes for empty: blanks count too. */
  predicate LooksEmpty(prRef: Option<string>) {
    prRef.None? || Strip(prRef.value) == ""
  }

  function Representative(f: FeaturePrs): string
    requires f.merged != []
  {
    Last(f.merged)
  }

  function FillTrack(t: Track, m: seq<FeaturePrs>, ds: seq<Dispatch>, project: string): Track
    requires ValidMap(m)
  {
    if t.project == project && Unset(t.prRef) && Lookup(m, t.id).Some? && Linked(ds, t.id, project) != []
    then t.(prRef := Some(Representative(Lookup(m, t.id).value))) else t
  }

  function FillAll(ts: seq<Track>, m: seq<FeaturePrs>, ds: seq<Dispatch>, project: string): (r: seq<Track>)
    requires ValidMap(m)
    ensures |r| == |ts| && forall k :: 0 <= k < |ts| ==> r[k] == FillTrack(ts[k], m, ds, project)
  {
    seq(|ts|, k requires 0 <= k < |ts| => FillTrack(ts[k], m, ds, project))
  }

  predicate IsMerged(e: CoordEvent, ids: seq<string>, project: string) {
    e.eventType == "pr_merged" && e.project == project && e.entityId in ids
  }

  predicate HasMerged(events: seq<CoordEvent>, ids: seq<string>, project: string) {
    exists k :: 0 <= k < |events| && IsMerged(events[k], ids, project)
  }

  /** The feature has a track row and a linked dispatch: the two `continue` guards let it through. */
  predicate Eligible(f: FeaturePrs, db: Db, project: string) {
    HasTrack(db.tracks, f.featureId, project) && Linked(db.dispatches, f.featureId, project) != []
  }

  predicate Needs(f: FeaturePrs, db: Db, project: string) {
    Eligible(f, db, project) && !HasMerged(db.events, Linked(db.dispatches, f.featureId, project), project)
  }

  function EventId(project: string, dispatch: string): string {
    "bf-prmerged-" + project + "-" + dispatch
  }

  function EventFor(f: FeaturePrs, ds: seq<Dispatch>, project: string, at: string): CoordEvent
    requires f.merged != [] && Linked(ds, f.featureId, project) != []
  {
    var entity := Linked(ds, f.featureId, project)[0];
    CoordEvent(EventId(project, entity), "pr_merged", "dispatch", entity,
               Representative(f), f.featureId, at, project)
  }

  /** The events the run adds, one for each feature that needs one, in map order. */
  function AddedEvents(m: seq<FeaturePrs>, db: Db, project: string, at: string): (r: seq<CoordEvent>)
    requires forall i :: 0 <= i < |m| ==> m[i].merged != []
    ensures |r| <= |m|
  {
    if m == [] then []
    else AddedEvents(Front(m), db, project, at) +
         (if Needs(Last(m), db, project) then [EventFor(Last(m), db.dispatches, project, at)] else [])
  }

  /** Every added event belongs to a feature of the map that needs one. */
  lemma {:induction false} AddedSource(m: seq<FeaturePrs>, db: Db, project: string, at: string, k: nat) returns (i: nat)
    requires forall i :: 0 <= i < |m| ==> m[i].merged != []
    requires k < |AddedEvents(m, db, project, at)|
    ensures i < |m| && Needs(m[i], db, project)
    ensures AddedEvents(m, db, project, at)[k] == EventFor(m[i], db.dispatches, project, at)
  {
    if k < |AddedEvents(Front(m), db, project, at)| {
      i := AddedSource(Front(m), db, project, at, k);
    } else {
      i := |m| - 1;
    }
  }

  lemma {:induction false} AddedTarget(m: seq<FeaturePrs>, db: Db, project: string, at: string, i: nat)
    requires forall i :: 0 <= i < |m| ==> m[i].merged != []
    requires i < |m| && Needs(m[i], db, project)
    ensures EventFor(m[i], db.dispatches, project, at) in AddedEvents(m, db, project, at)
  {
    if i < |m| - 1 {
      AddedTarget(Front(m), db, project, at, i);
    }
  }

  /** Dispatch ids are unique in a project, so no dispatch is linked to two features. */
  lemma {:induction false} LinkedToOne(db: Db, f: string, g: string, project: string, id: string)
    requires ValidDb(db)
    requires id in Linked(db.dispatches, f, project) && id in Linked(db.dispatches, g, project)
    ensures f == g
  {
  }

  lemma {:induction false} EventIdInjective(project: string, a: string, b: string)
    requires EventId(project, a) == EventId(project, b)
    ensures a == b
  {
    var head := "bf-prmerged-" + project + "-";
    assert EventId(project, a) == head + a && EventId(project, b) == head + b;
    assert a == (head + a)[|head|..] && b == (head + b)[|head|..];
  }

  /** One feature further in the map, the earlier additions are invisible: they neither satisfy this
      feature's check nor take its event id. */
  lemma {:induction false} EarlierAddsDontMatter(m: seq<FeaturePrs>, k: nat, db: Db, project: string, at: string)
    requires ValidMap(m) && ValidDb(db) && k < |m| && Linked(db.dispatches, m[k].featureId, project) != []
    ensures var added := AddedEvents(m[..k], db, project, at);
      var ids := Linked(db.dispatches, m[k].featureId, project);
      && (HasMerged(db.events + added, ids, project) <==> HasMerged(db.events, ids, project))
      && forall j :: 0 <= j < |added| ==> added[j].eventId != EventId(project, ids[0])
  {
    var added := AddedEvents(m[..k], db, project, at);
    var ids := Linked(db.dispatches, m[k].featureId, project);
    forall j | 0 <= j < |added|
      ensures added[j].entityId !in ids && added[j].eventId != EventId(project, ids[0])
    {
      var i := AddedSource(m[..k], db, project, at, j);
      assert added[j].entityId in Linked(db.dispatches, m[i].featureId, project);
      if added[j].entityId in ids {
        LinkedToOne(db, m[i].featureId, m[k].featureId, project, added[j].entityId);
      }
      if added[j].eventId == EventId(project, ids[0]) {
        EventIdInjective(project, added[j].entityId, ids[0]);
      }
    }
    var all := db.events + added;
    assert forall j :: 0 <= j < |db.events| ==> all[j] == db.events[j];
    assert forall j :: |db.events| <= j < |all| ==> all[j] == added[j - |db.events|];
  }

  // ------------------------------------------------------------------------------------------
  // apply_backfill
  // ------------------------------------------------------------------------------------------

  function Relinked(db: Db, m: seq<FeaturePrs>, project: string): Db {
    db.(dispatches := RelinkAll(db.dispatches, m, project))
  }

  /** The tables after a completed run. */
  function Backfilled(db: Db, m: seq<FeaturePrs>, project: string, at: string): Db
    requires ValidMap(m)
  {
    var mid := Relinked(db, m, project);
    Db(mid.dispatches, FillAll(mid.tracks, m, mid.dispatches, project),
       mid.events + AddedEvents(m, mid, project, at))
  }

  predicate IdTaken(events: seq<CoordEvent>, id: string) {
    exists k :: 0 <= k < |events| && events[k].eventId == id
  }

  /** The feature needs an event whose id another row already holds: the INSERT violates UNIQUE. */
  predicate Blocked(f: FeaturePrs, db: Db, project: string) {
    Needs(f, db, project) && IdTaken(db.events, EventId(project, Linked(db.dispatches, f.featureId, project)[0]))
  }

  ghost predicate Clash(db: Db, m: seq<FeaturePrs>, project: string) {
    exists i :: 0 <= i < |m| && Blocked(m[i], Relinked(db, m, project), project)
  }

  /** The feature's track row is taken for one whose reference is empty. */
  predicate Reported(f: FeaturePrs, db: Db, project: string) {
    Eligible(f, db, project) && LooksEmpty(PrRefOf(db.tracks, f.featureId, project))
  }

  /** The features reported under track_pr_ref_set. */
  function ReportedSet(m: seq<FeaturePrs>, db: Db, project: string): seq<string> {
    if m == [] then []
    else ReportedSet(Front(m), db, project) + (if Reported(Last(m), db, project) then [Last(m).featureId] else [])
  }

  /** The tables after one feature's evidence has been added. */
  function AfterFeature(db: Db, f: FeaturePrs, project: string, at: string): Db
    requires f.merged != []
  {
    Db(db.dispatches,
       if Reported(f, db, project) then SetPrRef(db.tracks, f.featureId, project, Representative(f)) else db.tracks,
       if Needs(f, db, project) then db.events + [EventFor(f, db.dispatches, project, at)] else db.events)
  }

  /** SELECT pr_ref FROM tracks WHERE track_id = id AND project_id = project, first row. */
  function PrRefOf(ts: seq<Track>, id: string, project: string): Option<string>
    requires HasTrack(ts, id, project)
  {
    if ts[0].id == id && ts[0].project == project then ts[0].prRef else PrRefOf(ts[1..], id, project)
  }

  datatype Report = Report(
    relinked: nat, byTrack: map<string, nat>, prRefSet: seq<string>, added: seq<CoordEvent>)

  datatype SqlError = UniqueViolation

  function CountFor(byTrack: map<string, nat>, feature: string): nat {
    if feature in byTrack then byTrack[feature] else 0
  }

  /** What a report of a completed run must say about the tables before it. */
  ghost predicate Reports(r: Report, db: Db, m: seq<FeaturePrs>, project: string, at: string)
    requires ValidMap(m)
  {
    var mid := Relinked(db, m, project);
    && r.relinked == Changed(db.dispatches, mid.dispatches)
    && (forall f :: CountFor(r.byTrack, f) == Gained(db.dispatches, mid.dispatches, f))
    && (forall f :: f in r.byTrack ==> r.byTrack[f] > 0)
    && r.prRefSet == ReportedSet(m, mid, project)
    && r.added == AddedEvents(m, mid, project, at)
  }

  datatype Outcome =
    | Committed(report: Report)
    | Raised(error: SqlError)
    | LostTrack
    | RowcountChanged
    | IntegrityFailed

  class Connection {
    var dispatches: seq<Dispatch>
    var tracks: seq<Track>
    var events: seq<CoordEvent>

    function View(): Db
      reads this
    {
      Db(dispatches, tracks, events)
    }

    constructor (db: Db)
      ensures View() == db
    {
      dispatches, tracks, events := db.dispatches, db.tracks, db.events;
    }

    /** Step 1: one UPDATE for each PR of the inverted map. */
    method RelinkDispatches(m: seq<FeaturePrs>, project: string) returns (relinked: nat, byTrack: map<string, nat>)
      requires ValidMap(m)
      modifies this`dispatches
      ensures View() == Relinked(old(View()), m, project)
      ensures relinked == Changed(old(dispatches), dispatches)
      ensures forall f :: CountFor(byTrack, f) == Gained(old(dispatches), dispatches, f)
      ensures forall f :: f in byTrack ==> byTrack[f] > 0
    {
      var owners := PrToFeature(m);
      ghost var was := dispatches;
      relinked, byTrack := 0, map[];
      SameTable(was);
      var i := 0;
      while i < |owners|
        invariant i <= |owners|
        invariant RelinkedBy(was, dispatches, owners[..i], m, project)
        invariant Counts(relinked, byTrack, was, dispatches)
      {
        var (pr, feature) := owners[i];
        RelinkStep(was, dispatches, owners, i, m, project);
        CountsStep(relinked, byTrack, was, dispatches, feature, pr, project);
        var n := RowCount(dispatches, pr, project);
        dispatches := SetTrack(dispatches, feature, pr, project);
        if n > 0 {
          relinked := relinked + n;
          byTrack := byTrack[feature := CountFor(byTrack, feature) + n];
        }
        i := i + 1;
      }
      assert owners[..i] == owners;
      RelinkDone(was, dispatches, owners, m, project);
    }

    /** Steps 2 and 3 for one feature of the map. */
    method AddEvidence(f: FeaturePrs, project: string, at: string) returns (ok: bool, reported: bool)
      requires f.merged != []
      modifies this`tracks, this`events
      ensures reported == Reported(f, old(View()), project)
      ensures ok == !Blocked(f, old(View()), project)
      ensures ok ==> View() == AfterFeature(old(View()), f, project, at)
      ensures !ok ==> View() == AfterFeature(old(View()), f, project, at).(events := old(events))
    {
      ok, reported := true, false;
      if !HasTrack(tracks, f.featureId, project) {
        return;
      }
      var existing := PrRefOf(tracks, f.featureId, project);
      var linked := Linked(dispatches, f.featureId, project);
      if linked == [] {
        return;
      }
      if LooksEmpty(existing) {
        tracks := SetPrRef(tracks, f.featureId, project, Representative(f));
        reported := true;
      }
      if !HasMerged(events, linked, project) {
        var e := EventFor(f, dispatches, project, at);
        if IdTaken(events, e.eventId) {
          return false, reported;
        }
        events := events + [e];
      }
    }

    /** Steps 2 and 3 for every feature, up to the first UNIQUE violation. */
    method AddAllEvidence(m: seq<FeaturePrs>, project: string, at: string) returns (ok: bool, prRefSet: seq<string>)
      requires ValidMap(m) && ValidDb(View())
      modifies this`tracks, this`events
      ensures ok <==> forall i :: 0 <= i < |m| ==> !Blocked(m[i], old(View()), project)
      ensures ok ==>
          View() == Upto(old(View()), m, |m|, project, at) && prRefSet == ReportedSet(m, old(View()), project)
    {
      ghost var mid := View();
      UptoNone(mid, m, project, at);
      ok, prRefSet := true, [];
      var k := 0;
      while k < |m|
        invariant k <= |m| && ok
        invariant View() == Upto(mid, m, k, project, at)
        invariant prRefSet == ReportedSet(m[..k], mid, project)
        invariant forall i :: 0 <= i < k ==> !Blocked(m[i], mid, project)
      {
        var reported: bool;
        PrefixStep(m, k);
        FeatureStep(mid, m, k, project, at);
        ok, reported := AddEvidence(m[k], project, at);
        if !ok {
          return;
        }
        if reported {
          prRefSet := prRefSet + [m[k].featureId];
        }
        k := k + 1;
      }
      assert m[..k] == m;
    }

    /** `apply_backfill`. On a UNIQUE violation the transaction is left half done. */
    method ApplyBackfill(m: seq<FeaturePrs>, project: string, at: string) returns (r: Result<Report, SqlError>)
      requires ValidMap(m) && ValidDb(View())
      modifies this
      ensures r.Err? <==> Clash(old(View()), m, project)
      ensures r.Ok? ==> View() == Backfilled(old(View()), m, project, at)
      ensures r.Ok? ==> Reports(r.value, old(View()), m, project, at)
    {
      var relinked, byTrack := RelinkDispatches(m, project);
      RelinkKeepsValid(old(View()), m, project);
      var start := |events|;
      var ok, prRefSet := AddAllEvidence(m, project, at);
      if !ok {
        return Err(UniqueViolation);
      }
      assert m[..|m|] == m;
      r := Ok(Report(relinked, byTrack, prRefSet, events[start..]));
    }

    /** `apply_to_live`: one transaction with the sanity checks before commit. Whatever does not
        commit is rolled back, and the lost-track and rowcount branches are never the reason. */
    method ApplyToLive(features: seq<Feature>, project: string, at: string, integrityOk: bool)
      returns (outcome: Outcome)
      requires ValidDb(View())
      modifies this
      ensures exists m ::
          ValidMap(m) && LiveOutcome(outcome, old(View()), View(), features, m, project, at, integrityOk)
      ensures outcome.Committed? ==> WritesMergedOnly(old(View()), View(), features, project, at)
    {
      var m := LoadPrMap(features);
      var saved := View();
      var nonNull := NonNullTracks(dispatches, project);
      var r := ApplyBackfill(m, project, at);
      if r.Err? {
        dispatches, tracks, events := saved.dispatches, saved.tracks, saved.events;
        outcome := Raised(r.error);
      } else {
        var preserved, i := true, 0;
        while i < |nonNull| && preserved
          invariant i <= |nonNull|
          invariant View() == Backfilled(saved, m, project, at)
          invariant preserved
          decreases |nonNull| - i
        {
          TrackKept(saved, m, project, nonNull, i);
          preserved := TrackOf(dispatches, nonNull[i].0, project) == Some(nonNull[i].1);
          i := i + 1;
        }
        if !preserved {
          outcome := LostTrack;
        } else if |dispatches| != |saved.dispatches| || |tracks| != |saved.tracks| {
          outcome := RowcountChanged;
        } else if !integrityOk {
          outcome := IntegrityFailed;
        } else {
          outcome := Committed(r.value);
        }
        if !outcome.Committed? {
          dispatches, tracks, events := saved.dispatches, saved.tracks, saved.events;
        }
      }
      if outcome.Committed? {
        BackfillWritesMergedOnly(saved, m, project, at, features);
      }
      assert LiveOutcome(outcome, saved, View(), features, m, project, at, integrityOk);
    }
  }

  /** The relink counters agree with the rows changed so far. */
  ghost predicate Counts(relinked: nat, byTrack: map<string, nat>, was: seq<Dispatch>, now: seq<Dispatch>)
    requires |was| == |now|
  {
    && relinked == Changed(was, now)
    && (forall f :: CountFor(byTrack, f) == Gained(was, now, f))
    && (forall f :: f in byTrack ==> byTrack[f] > 0)
  }

  lemma {:induction false} CountsStep(relinked: nat, byTrack: map<string, nat>, was: seq<Dispatch>, ds: seq<Dispatch>,
                   feature: string, pr: string, project: string)
    requires |was| == |ds| && Counts(relinked, byTrack, was, ds)
    requires forall k :: 0 <= k < |ds| && Selected(ds[k], pr, project) ==> ds[k] == was[k]
    ensures var n := RowCount(ds, pr, project);
      Counts(relinked + n, if n > 0 then byTrack[feature := CountFor(byTrack, feature) + n] else byTrack,
             was, SetTrack(ds, feature, pr, project))
  {
    RowCountIsGain(was, ds, feature, pr, project);
  }

  ghost predicate Covers(owners: seq<(string, string)>, pr: string) {
    exists i :: 0 <= i < |owners| && owners[i].0 == pr
  }

  /** Part of step 1 done: the dispatches whose PR is among owners have taken its owner. */
  ghost predicate RelinkedBy(was: seq<Dispatch>, now: seq<Dispatch>, owners: seq<(string, string)>,
                             m: seq<FeaturePrs>, project: string) {
    && |now| == |was|
    && forall k :: 0 <= k < |was| ==>
         now[k] == if was[k].prRef.Some? && Covers(owners, was[k].prRef.value)
                   then Relink(was[k], m, project) else was[k]
  }

  lemma {:induction false} RelinkStep(was: seq<Dispatch>, now: seq<Dispatch>, owners: seq<(string, string)>, i: nat,
                   m: seq<FeaturePrs>, project: string)
    requires Inverts(owners, m) && i < |owners|
    requires RelinkedBy(was, now, owners[..i], m, project)
    ensures forall k :: 0 <= k < |now| && Selected(now[k], owners[i].0, project) ==> now[k] == was[k]
    ensures RelinkedBy(was, SetTrack(now, owners[i].1, owners[i].0, project), owners[..i + 1], m, project)
  {
  }

  lemma {:induction false} RelinkDone(was: seq<Dispatch>, now: seq<Dispatch>, owners: seq<(string, string)>,
                                      m: seq<FeaturePrs>, project: string)
    requires Inverts(owners, m) && RelinkedBy(was, now, owners, m, project)
    ensures now == RelinkAll(was, m, project)
  {
  }

  lemma {:induction false} SameTable(ds: seq<Dispatch>)
    ensures Changed(ds, ds) == 0 && forall f :: Gained(ds, ds, f) == 0
  {
    if ds == [] {
    } else {
      SameTable(Front(ds));
    }
  }

  /** UPDATE tracks SET pr_ref = rep WHERE track_id = id AND project_id = project
      AND (pr_ref IS NULL OR pr_ref = ''). */
  function SetPrRef(ts: seq<Track>, id: string, project: string, rep: string): (r: seq<Track>)
    ensures |r| == |ts|
    ensures forall k :: 0 <= k < |ts| ==>
              r[k] == if ts[k].id == id && ts[k].project == project && Unset(ts[k].prRef)
                      then ts[k].(prRef := Some(rep)) else ts[k]
  {
    seq(|ts|, k requires 0 <= k < |ts| =>
      if ts[k].id == id && ts[k].project == project && Unset(ts[k].prRef)
      then ts[k].(prRef := Some(rep)) else ts[k])
  }

  lemma {:induction false} RelinkKeepsValid(db: Db, m: seq<FeaturePrs>, project: string)
    requires ValidDb(db)
    ensures ValidDb(Relinked(db, m, project))
  {
  }

  /** The tables after the first k features, relative to the tables mid left by step 1. */
  function Upto(mid: Db, m: seq<FeaturePrs>, k: nat, project: string, at: string): Db
    requires ValidMap(m) && k <= |m|
  {
    assert ValidMap(m[..k]);
    Db(mid.dispatches, FillAll(mid.tracks, m[..k], mid.dispatches, project),
       mid.events + AddedEvents(m[..k], mid, project, at))
  }

  lemma {:induction false} UptoNone(mid: Db, m: seq<FeaturePrs>, project: string, at: string)
    requires ValidMap(m)
    ensures Upto(mid, m, 0, project, at) == mid
  {
  }

  lemma {:induction false} PrRefUnchanged(ts: seq<Track>, us: seq<Track>, id: string, project: string)
    requires |ts| == |us| && HasTrack(ts, id, project)
    requires forall k :: 0 <= k < |ts| ==> us[k].id == ts[k].id && us[k].project == ts[k].project
    requires forall k :: 0 <= k < |ts| && ts[k].id == id && ts[k].project == project ==> us[k].prRef == ts[k].prRef
    ensures HasTrack(us, id, project) && PrRefOf(us, id, project) == PrRefOf(ts, id, project)
  {
    var k :| 0 <= k < |ts| && ts[k].id == id && ts[k].project == project;
    assert us[k].id == id;
    if k > 0 && !(ts[0].id == id && ts[0].project == project) {
      assert ts[1..][k - 1] == ts[k];
      PrRefUnchanged(ts[1..], us[1..], id, project);
    }
  }

  /** Seen from feature k, the additions of the earlier features are invisible: the same track row, the
      same linked dispatches, the same need for an event and the same obstacle as before the loop. */
  lemma {:induction false} FeatureSeesOriginal(mid: Db, m: seq<FeaturePrs>, k: nat, project: string, at: string)
    requires ValidMap(m) && ValidDb(mid) && k < |m|
    ensures var now := Upto(mid, m, k, project, at);
      && Reported(m[k], now, project) == Reported(m[k], mid, project)
      && Needs(m[k], now, project) == Needs(m[k], mid, project)
      && Blocked(m[k], now, project) == Blocked(m[k], mid, project)
  {
    var now, id := Upto(mid, m, k, project, at), m[k].featureId;
    FillStep(mid, m, k, project);
    TracksKeepIds(mid, m[..k], project, id);
    if Eligible(m[k], mid, project) {
      EarlierAddsDontMatter(m, k, mid, project, at);
      PrRefUnchanged(mid.tracks, now.tracks, id, project);
      IdTakenAppend(mid.events, AddedEvents(m[..k], mid, project, at),
                    EventId(project, Linked(mid.dispatches, id, project)[0]));
    }
  }

  lemma {:induction false} EventsGrow(mid: Db, m: seq<FeaturePrs>, k: nat, project: string, at: string)
    requires ValidMap(m) && k < |m|
    ensures Upto(mid, m, k + 1, project, at).events ==
            Upto(mid, m, k, project, at).events +
            (if Needs(m[k], mid, project) then [EventFor(m[k], mid.dispatches, project, at)] else [])
  {
    PrefixStep(m, k);
  }

  /** One feature's step from the tables after k features gives those after k + 1. */
  lemma {:induction false} FeatureStep(mid: Db, m: seq<FeaturePrs>, k: nat, project: string, at: string)
    requires ValidMap(m) && ValidDb(mid) && k < |m|
    ensures var now := Upto(mid, m, k, project, at);
      && Reported(m[k], now, project) == Reported(m[k], mid, project)
      && Blocked(m[k], now, project) == Blocked(m[k], mid, project)
      && AfterFeature(now, m[k], project, at) == Upto(mid, m, k + 1, project, at)
  {
    FeatureSeesOriginal(mid, m, k, project, at);
    FillStep(mid, m, k, project);
    EventsGrow(mid, m, k, project, at);
  }

  lemma {:induction false} TracksKeepIds(db: Db, m: seq<FeaturePrs>, project: string, id: string)
    requires ValidMap(m)
    ensures var filled := FillAll(db.tracks, m, db.dispatches, project);
      HasTrack(filled, id, project) == HasTrack(db.tracks, id, project)
  {
  }

  lemma {:induction false} IdTakenAppend(a: seq<CoordEvent>, b: seq<CoordEvent>, id: string)
    requires forall j :: 0 <= j < |b| ==> b[j].eventId != id
    ensures IdTaken(a + b, id) == IdTaken(a, id)
  {
    var all := a + b;
    assert forall j :: 0 <= j < |a| ==> all[j] == a[j];
    assert forall j :: |a| <= j < |all| ==> all[j] == b[j - |a|];
  }

  lemma {:induction false} FillStep(mid: Db, m: seq<FeaturePrs>, k: nat, project: string)
    requires ValidMap(m) && ValidDb(mid) && k < |m|
    ensures ValidMap(m[..k]) && ValidMap(m[..k + 1])
    ensures var now := FillAll(mid.tracks, m[..k], mid.dispatches, project);
      && (forall j :: 0 <= j < |now| && now[j].id == m[k].featureId ==> now[j] == mid.tracks[j])
      && FillAll(mid.tracks, m[..k + 1], mid.dispatches, project) ==
         if Reported(m[k], mid, project)
         then SetPrRef(now, m[k].featureId, project, Representative(m[k])) else now
  {
    var id := m[k].featureId;
    PrefixStep(m, k);
    var now, next := FillAll(mid.tracks, m[..k], mid.dispatches, project), FillAll(mid.tracks, m[..k
        + 1], mid.dispatches, project);
    var filled := SetPrRef(now, id, project, Representative(m[k]));
    forall j | 0 <= j < |now|
      ensures now[j].id == id ==> now[j] == mid.tracks[j]
      ensures next[j] == if Reported(m[k], mid, project) then filled[j] else now[j]
    {
      var t := mid.tracks[j];
      if t.id == id && t.project == project {
        PrRefIsRow(mid.tracks, j);
        StripEmpty();
      }
    }
  }

  lemma {:induction false} StripEmpty()
    ensures Strip("") == ""
  {
  }

  /** Track keys are unique, so the row the SELECT returns is any row with that key. */
  lemma {:induction false} PrRefIsRow(ts: seq<Track>, j: nat)
    requires j < |ts|
    requires forall i :: 0 <= i < |ts| && i != j ==> (ts[i].id, ts[i].project) != (ts[j].id, ts[j].project)
    ensures HasTrack(ts, ts[j].id, ts[j].project) && PrRefOf(ts, ts[j].id, ts[j].project) == ts[j].prRef
  {
    if j > 0 {
      assert (ts[0].id, ts[0].project) != (ts[j].id, ts[j].project);
      assert forall i :: 0 <= i < |ts[1..]| ==> ts[1..][i] == ts[i + 1];
      PrRefIsRow(ts[1..], j - 1);
    }
  }

  /** The (dispatch_id, track) pairs of the project that already carry a track. */
  function NonNullTracks(ds: seq<Dispatch>, project: string): (r: seq<(string, string)>)
    ensures forall i :: 0 <= i < |r| ==>
        exists k :: 0 <= k < |ds| && ds[k].id == r[i].0 && IsLinked(ds[k], r[i].1, project)
    ensures forall k :: 0 <= k < |ds| && ds[k].track.Some? && ds[k].project == project ==>
              (ds[k].id, ds[k].track.value) in r
  {
    if ds == [] then []
    else
      var rest := NonNullTracks(Front(ds), project);
      var d := Last(ds);
      assert forall k :: 0 <= k < |ds| - 1 ==> Front(ds)[k] == ds[k];
      if d.track.Some? && d.project == project then
        assert IsLinked(ds[|ds| - 1], d.track.value, project);
        rest + [(d.id, d.track.value)]
      else rest
  }

  /** SELECT track FROM dispatches WHERE dispatch_id = id AND project_id = project, first row. */
  function TrackOf(ds: seq<Dispatch>, id: string, project: string): Option<string> {
    if ds == [] then None
    else if ds[0].id == id && ds[0].project == project then ds[0].track
    else TrackOf(ds[1..], id, project)
  }

  lemma {:induction false} TrackOfRow(ds: seq<Dispatch>, k: nat)
    requires k < |ds|
    requires forall i :: 0 <= i < |ds| && i != k ==> (ds[i].id, ds[i].project) != (ds[k].id, ds[k].project)
    ensures TrackOf(ds, ds[k].id, ds[k].project) == ds[k].track
  {
    if k > 0 {
      assert (ds[0].id, ds[0].project) != (ds[k].id, ds[k].project);
      assert forall i :: 0 <= i < |ds[1..]| ==> ds[1..][i] == ds[i + 1];
      TrackOfRow(ds[1..], k - 1);
    }
  }

  lemma {:induction false} TrackKept(db: Db, m: seq<FeaturePrs>, project: string, nonNull: seq<(string, string)>,
                                     i: nat)
    requires ValidDb(db) && nonNull == NonNullTracks(db.dispatches, project) && i < |nonNull|
    ensures TrackOf(RelinkAll(db.dispatches, m, project), nonNull[i].0, project) == Some(nonNull[i].1)
  {
    RelinkKeepsValid(db, m, project);
    var ds := RelinkAll(db.dispatches, m, project);
    var k :| 0 <= k < |db.dispatches| && db.dispatches[k].id == nonNull[i].0
             && IsLinked(db.dispatches[k], nonNull[i].1, project);
    forall j | 0 <= j < |ds| && j != k ensures (ds[j].id, ds[j].project) != (ds[k].id, ds[k].project) {
      if j < k {
        assert (db.dispatches[j].id, db.dispatches[j].project) != (db.dispatches[k].id, db.dispatches[k].project);
      } else {
        assert (db.dispatches[k].id, db.dispatches[k].project) != (db.dispatches[j].id, db.dispatches[j].project);
      }
    }
    TrackOfRow(ds, k);
  }

  /** What a live run may end as: committed exactly when no id clashes and the integrity check
      passes, with the backfilled tables; in every other case the tables are as before. */
  ghost predicate LiveOutcome(outcome: Outcome, before: Db, after: Db, features: seq<Feature>, m: seq<FeaturePrs>,
                              project: string, at: string, integrityOk: bool)
    requires ValidMap(m)
  {
    && (forall id :: Lookup(m, id) == LastMerged(features, id))
    && IdsOf(m) == FirstSeen(features)
    && (outcome.Raised? <==> Clash(before, m, project))
    && (outcome.Committed? <==> !Clash(before, m, project) && integrityOk)
    && !outcome.LostTrack? && !outcome.RowcountChanged?
    && after == (if outcome.Committed? then Backfilled(before, m, project, at) else before)
    && (outcome.Committed? ==> Reports(outcome.report, before, m, project, at))
  }

  // Back to the roadmap

  /** pr belongs to a merged item of the last feature of the id that has one. */
  ghost predicate IsMergedPr(features: seq<Feature>, id: string, pr: string) {
    exists j: nat, q :: LastWithMerged(features, id, j) && 0 <= q < |features[j].queue.value|
                        && MergedItem()(features[j].queue.value[q]) && pr == PrOfItem(features[j].queue.value[q])
  }

  /** pr belongs to the last merged item of that feature. */
  ghost predicate IsRepresentative(features: seq<Feature>, id: string, pr: string) {
    exists j: nat, q: nat :: LastWithMerged(features, id, j) && LastKept(q, features[j].queue.value, MergedItem())
                             && pr == PrOfItem(features[j].queue.value[q])
  }

  lemma {:induction false} EntryIsMerged(features: seq<Feature>, f: FeaturePrs)
    requires f.merged != [] && LoadedEntry(features, f.featureId, Some(f))
    ensures IsRepresentative(features, f.featureId, Representative(f))
    ensures forall pr :: pr in f.merged ==> IsMergedPr(features, f.featureId, pr)
  {
    var j: nat :| LastWithMerged(features, f.featureId, j)
      && f == FeaturePrs(f.featureId, Filter(features[j].queue.value, MergedItem(), PrOfItem));
    var q := FilterLast(features[j].queue.value, MergedItem(), PrOfItem);
    FilterMembers(features[j].queue.value, MergedItem(), PrOfItem);
  }

  /** Entry i is the first of the map that holds the PR. */
  ghost predicate FirstHolding(m: seq<FeaturePrs>, pr: string, i: nat) {
    i < |m| && pr in m[i].merged && forall j :: 0 <= j < i ==> pr !in m[j].merged
  }

  /** The owner of a PR is the feature of the first entry of the map that holds it. */
  lemma {:induction false} OwnerIs(m: seq<FeaturePrs>, pr: string) returns (i: nat)
    ensures Owner(m, pr).None? ==> forall j :: 0 <= j < |m| ==> pr !in m[j].merged
    ensures Owner(m, pr).Some? ==> FirstHolding(m, pr, i) && m[i].featureId == Owner(m, pr).value
  {
    i := 0;
    if m != [] && pr !in m[0].merged {
      i := OwnerIs(m[1..], pr);
      assert forall j :: 1 <= j < |m| ==> m[j] == m[1..][j - 1];
      i := i + 1;
    }
  }

  /** The map is the one loaded from the roadmap. */
  ghost predicate LoadedFrom(m: seq<FeaturePrs>, features: seq<Feature>) {
    forall id :: LoadedEntry(features, id, Lookup(m, id))
  }

  /** A dispatch gained a track only for a merged PR of that feature. */
  ghost predicate LinkedForMerged(d: Dispatch, e: Dispatch, features: seq<Feature>) {
    e != d ==> d.prRef.Some? && e.track.Some? && IsMergedPr(features, e.track.value, d.prRef.value)
  }

  /** A track reference was filled only with the last merged PR of its feature. */
  ghost predicate FilledWithMerged(t: Track, u: Track, features: seq<Feature>) {
    u != t ==> u.prRef.Some? && IsRepresentative(features, t.id, u.prRef.value)
  }

  /** An added event is evidence of the last merged PR of the feature, on a dispatch that carries its track. */
  ghost predicate EvidenceOfMerged(e: CoordEvent, ds: seq<Dispatch>, features: seq<Feature>, project: string,
                                   at: string) {
    && e.eventType == "pr_merged" && e.entityType == "dispatch" && e.occurredAt == at && e.project == project
    && e.eventId == "bf-prmerged-" + project + "-" + e.entityId
    && IsRepresentative(features, e.trackId, e.prRef)
    && exists k :: 0 <= k < |ds| && ds[k].id == e.entityId && ds[k].project == project && ds[k].track == Some(e.trackId)
  }

  /** Everything a live run writes comes from items of the roadmap marked merged. */
  ghost predicate WritesMergedOnly(before: Db, after: Db, features: seq<Feature>, project: string, at: string) {
    && |after.dispatches| == |before.dispatches| && |after.tracks| == |before.tracks| && before.events <= after.events
    && (forall k :: 0 <= k < |before.dispatches| ==>
          LinkedForMerged(before.dispatches[k], after.dispatches[k], features))
    && (forall k :: 0 <= k < |before.tracks| ==> FilledWithMerged(before.tracks[k], after.tracks[k], features))
    && forall k :: |before.events| <= k < |after.events| ==>
         EvidenceOfMerged(after.events[k], after.dispatches, features, project, at)
  }

  lemma {:induction false} RelinkUsesMerged(d: Dispatch, m: seq<FeaturePrs>, project: string, features: seq<Feature>)
    requires ValidMap(m) && LoadedFrom(m, features)
    ensures LinkedForMerged(d, Relink(d, m, project), features)
  {
    if Relink(d, m, project) != d {
      var i := OwnerIs(m, d.prRef.value);
      LookupIs(m, i);
      EntryIsMerged(features, m[i]);
    }
  }

  lemma {:induction false} FillUsesMerged(t: Track, m: seq<FeaturePrs>, ds: seq<Dispatch>, project: string,
                                          features: seq<Feature>)
    requires ValidMap(m) && LoadedFrom(m, features)
    ensures FilledWithMerged(t, FillTrack(t, m, ds, project), features)
  {
    if FillTrack(t, m, ds, project) != t {
      EntryIsMerged(features, Lookup(m, t.id).value);
    }
  }

  lemma {:induction false} EventUsesMerged(f: FeaturePrs, m: seq<FeaturePrs>, ds: seq<Dispatch>, project: string,
                                           at: string, features: seq<Feature>, i: nat)
    requires ValidMap(m) && LoadedFrom(m, features) && i < |m| && f == m[i] && Linked(ds, f.featureId, project) != []
    ensures EvidenceOfMerged(EventFor(f, ds, project, at), ds, features, project, at)
  {
    LookupIs(m, i);
    EntryIsMerged(features, f);
    var ids := Linked(ds, f.featureId, project);
    assert ids[0] in ids;
    assert EventId(project, ids[0]) == "bf-prmerged-" + project + "-" + ids[0];
  }

  lemma {:induction false} LookupIs(m: seq<FeaturePrs>, i: nat)
    requires ValidMap(m) && i < |m|
    ensures Lookup(m, m[i].featureId) == Some(m[i])
  {
    if i < |m| - 1 {
      LookupIs(Front(m), i);
    }
  }

  lemma {:induction false} BackfillWritesMergedOnly(db: Db, m: seq<FeaturePrs>, project: string, at: string,
                                                    features: seq<Feature>)
    requires ValidMap(m) && LoadedFrom(m, features)
    ensures WritesMergedOnly(db, Backfilled(db, m, project, at), features, project, at)
  {
    var mid := Relinked(db, m, project);
    var added := AddedEvents(m, mid, project, at);
    forall k | 0 <= k < |db.dispatches| ensures LinkedForMerged(db.dispatches[k], mid.dispatches[k], features) {
      RelinkUsesMerged(db.dispatches[k], m, project, features);
    }
    forall k | 0 <= k < |db.tracks|
      ensures FilledWithMerged(db.tracks[k], FillTrack(db.tracks[k], m, mid.dispatches, project), features)
    {
      FillUsesMerged(db.tracks[k], m, mid.dispatches, project, features);
    }
    forall k | 0 <= k < |added| ensures EvidenceOfMerged(added[k], mid.dispatches, features, project, at) {
      var i := AddedSource(m, mid, project, at, k);
      EventUsesMerged(m[i], m, mid.dispatches, project, at, features, i);
    }
    var events := db.events + added;
    assert forall k :: |db.events| <= k < |events| ==> events[k] == added[k - |db.events|];
  }

  // ------------------------------------------------------------------------------------------
  // What a completed run guarantees
  // ------------------------------------------------------------------------------------------

  /** Additive only: every row and every event stays where it was; a dispatch that had a track, a
      track that had a PR reference and any row of another project is untouched; a dispatch that
      gains a track gains the first feature that merged its PR. */
  lemma {:induction false} BackfillIsAdditive(db: Db, m: seq<FeaturePrs>, project: string, at: string)
    requires ValidMap(m)
    ensures var r := Backfilled(db, m, project, at);
      && |r.dispatches| == |db.dispatches| && |r.tracks| == |db.tracks| && db.events <= r.events
      && (forall k :: 0 <= k < |db.dispatches| ==>
            var d, e := db.dispatches[k], r.dispatches[k];
            && e.(track := None) == d.(track := None)
            && (d.track.Some? || d.project != project ==> e == d)
            && (e != d ==> d.prRef.Some? && e.track.Some? && Owner(m, d.prRef.value) == e.track))
      && (forall k :: 0 <= k < |db.tracks| ==>
            var t, u := db.tracks[k], r.tracks[k];
            && u.(prRef := None) == t.(prRef := None)
            && (!Unset(t.prRef) || t.project != project ==> u == t))
      && (forall k :: |db.events| <= k < |r.events| ==>
          r.events[k].project == project && r.events[k].eventType == "pr_merged")
  {
    var mid := Relinked(db, m, project);
    var added := AddedEvents(m, mid, project, at);
    forall k | 0 <= k < |added| ensures added[k].project == project && added[k].eventType == "pr_merged" {
      var i := AddedSource(m, mid, project, at, k);
    }
    assert forall k :: |db.events| <= k < |db.events + added| ==> (db.events + added)[k] == added[k - |db.events|];
  }

  /** Evidence completeness: a merged feature with a track row and a linked dispatch ends with a
      pr_merged event on one of its dispatches, and with its PR reference filled if it was NULL or empty. */
  lemma {:induction false} EvidenceIsComplete(db: Db, m: seq<FeaturePrs>, project: string, at: string,
                                              i: nat, t: nat, d: nat)
    requires ValidMap(m) && i < |m| && t < |db.tracks| && d < |db.dispatches|
    requires db.tracks[t].id == m[i].featureId && db.tracks[t].project == project
    requires var e := Backfilled(db, m, project, at).dispatches[d];
      e.track == Some(m[i].featureId) && e.project == project
    ensures var r := Backfilled(db, m, project, at);
      && (exists k, n :: && 0 <= k < |r.events| && 0 <= n < |r.dispatches| && IsEvidence(r.events[k], r.dispatches[n])
                         && r.dispatches[n].track == Some(m[i].featureId) && r.dispatches[n].project == project)
      && r.tracks[t].prRef == if db.tracks[t].prRef == None || db.tracks[t].prRef == Some("")
                              then Some(Last(m[i].merged)) else db.tracks[t].prRef
  {
    var r := Backfilled(db, m, project, at);
    LinkedHolds(r.dispatches, d, m[i].featureId, project);
    LinkedHasEvidence(db, m, project, at, i, t);
    MergedIsEvidence(r.events, r.dispatches, m[i].featureId, project);
  }

  lemma {:induction false} LinkedHolds(ds: seq<Dispatch>, d: nat, feature: string, project: string)
    requires d < |ds| && ds[d].track == Some(feature) && ds[d].project == project
    ensures ds[d].id in Linked(ds, feature, project) && Linked(ds, feature, project) != []
  {
    assert IsLinked(ds[d], feature, project);
  }

  lemma {:induction false} MergedIsEvidence(events: seq<CoordEvent>, ds: seq<Dispatch>, feature: string,
                                            project: string)
    requires HasMerged(events, Linked(ds, feature, project), project)
    ensures exists k, n :: && 0 <= k < |events| && 0 <= n < |ds| && IsEvidence(events[k], ds[n])
                           && ds[n].track == Some(feature) && ds[n].project == project
  {
    var ids := Linked(ds, feature, project);
    var k :| 0 <= k < |events| && IsMerged(events[k], ids, project);
    var n :| 0 <= n < |ds| && ds[n].id == events[k].entityId && IsLinked(ds[n], feature, project);
    assert IsEvidence(events[k], ds[n]);
  }

  /** The event says that a PR of the dispatch was merged. */
  ghost predicate IsEvidence(e: CoordEvent, d: Dispatch) {
    e.eventType == "pr_merged" && e.entityId == d.id && e.project == d.project
  }

  lemma {:induction false} LinkedHasEvidence(db: Db, m: seq<FeaturePrs>, project: string, at: string, i: nat, t: nat)
    requires ValidMap(m) && i < |m| && t < |db.tracks|
    requires db.tracks[t].id == m[i].featureId && db.tracks[t].project == project
    requires Linked(Backfilled(db, m, project, at).dispatches, m[i].featureId, project) != []
    ensures var r := Backfilled(db, m, project, at);
      && HasMerged(r.events, Linked(r.dispatches, m[i].featureId, project), project)
      && r.tracks[t].prRef == if Unset(db.tracks[t].prRef) then Some(Last(m[i].merged)) else db.tracks[t].prRef
  {
    var mid := Relinked(db, m, project);
    var r := Backfilled(db, m, project, at);
    var added := AddedEvents(m, mid, project, at);
    var ids := Linked(r.dispatches, m[i].featureId, project);
    assert Eligible(m[i], mid, project);
    if Needs(m[i], mid, project) {
      AddedTarget(m, mid, project, at, i);
      var k :| 0 <= k < |added| && added[k] == EventFor(m[i], mid.dispatches, project, at);
      assert r.events[|db.events| + k] == added[k];
    } else {
      var k :| 0 <= k < |mid.events| && IsMerged(mid.events[k], ids, project);
      assert r.events[k] == mid.events[k];
    }
  }

  /** At most one event per feature, and the ids a run adds are pairwise distinct. */
  lemma {:induction false} AddedIdsDistinct(m: seq<FeaturePrs>, db: Db, project: string, at: string)
    requires ValidMap(m) && ValidDb(db)
    ensures var added := AddedEvents(m, db, project, at);
      && |added| <= |m|
      && forall i, j :: 0 <= i < j < |added| ==>
          added[i].eventId != added[j].eventId && added[i].trackId != added[j].trackId
  {
    if m == [] {
    } else {
      var k := |m| - 1;
      assert m[..k] == Front(m);
      AddedIdsDistinct(Front(m), db, project, at);
      var before := AddedEvents(Front(m), db, project, at);
      if Needs(Last(m), db, project) {
        EarlierAddsDontMatter(m, k, db, project, at);
        forall i | 0 <= i < |before| ensures before[i].trackId != m[k].featureId {
          var s := AddedSource(Front(m), db, project, at, i);
        }
      }
    }
  }

  /** So a completed run leaves the keys of all three tables unique. */
  lemma {:induction false} BackfillKeepsValid(db: Db, m: seq<FeaturePrs>, project: string, at: string)
    requires ValidMap(m) && ValidDb(db) && !Clash(db, m, project)
    ensures ValidDb(Backfilled(db, m, project, at))
  {
    var mid := Relinked(db, m, project);
    var added := AddedEvents(m, mid, project, at);
    var r := Backfilled(db, m, project, at);
    RelinkKeepsValid(db, m, project);
    AddedIdsDistinct(m, mid, project, at);
    forall i, j | 0 <= i < j < |r.events| ensures r.events[i].eventId != r.events[j].eventId {
      if i < |db.events| <= j {
        var s := AddedSource(m, mid, project, at, j - |db.events|);
        assert !Blocked(m[s], mid, project);
      }
    }
    forall i, j | 0 <= i < j < |r.tracks|
      ensures (r.tracks[i].id, r.tracks[i].project) != (r.tracks[j].id, r.tracks[j].project) {
      assert (db.tracks[i].id, db.tracks[i].project) != (db.tracks[j].id, db.tracks[j].project);
    }
  }

  /** Idempotence: a second run, at any later time, adds no event, cannot clash and leaves every
      table as the first run left it. */
  lemma {:induction false} BackfillIsIdempotent(db: Db, m: seq<FeaturePrs>, project: string, at: string, later: string)
    requires ValidMap(m)
    ensures var once := Backfilled(db, m, project, at);
      Backfilled(once, m, project, later) == once && !Clash(once, m, project)
  {
    var once := Backfilled(db, m, project, at);
    assert RelinkAll(once.dispatches, m, project) == once.dispatches;
    assert Relinked(once, m, project) == once;
    assert FillAll(once.tracks, m, once.dispatches, project) == once.tracks;
    forall i | 0 <= i < |m| ensures !Needs(m[i], once, project) {
      if Eligible(m[i], once, project) {
        TracksKeepIds(Relinked(db, m, project), m, project, m[i].featureId);
        var t :| 0 <= t < |db.tracks| && db.tracks[t].id == m[i].featureId && db.tracks[t].project == project;
        LinkedHasEvidence(db, m, project, at, i, t);
      }
    }
    NoneNeeded(m, once, project, later);
    assert once.events + [] == once.events;
  }

  lemma {:induction false} NoneNeeded(m: seq<FeaturePrs>, db: Db, project: string, at: string)
    requires ValidMap(m) && forall i :: 0 <= i < |m| ==> !Needs(m[i], db, project)
    ensures AddedEvents(m, db, project, at) == []
  {
    if m == [] {
    } else {
      NoneNeeded(Front(m), db, project, at);
    }
  }

  // ------------------------------------------------------------------------------------------
  // Where the promises stop
  // ------------------------------------------------------------------------------------------

  const EVENT_PREFIX := "bf-prmerged-"

  /** p is q, a dash, and more. */
  predicate Extends(p: string, q: string) {
    StartsWith(p, q + "-")
  }

  lemma {:induction false} EventIdTail(p: string, a: string, q: string, b: string)
    ensures EventId(p, a) == EventId(q, b) <==> p + ("-" + a) == q + ("-" + b)
  {
    assert EventId(p, a) == EVENT_PREFIX + (p + ("-" + a)) && EventId(q, b) == EVENT_PREFIX + (q + ("-" + b));
    assert (EVENT_PREFIX + (p + ("-" + a)))[|EVENT_PREFIX|..] == p + ("-" + a);
    assert (EVENT_PREFIX + (q + ("-" + b)))[|EVENT_PREFIX|..] == q + ("-" + b);
  }

  lemma {:induction false} LongerExtends(p: string, a: string, q: string, b: string)
    requires p + ("-" + a) == q + ("-" + b) && |p| > |q|
    ensures Extends(p, q)
  {
    var s := p + ("-" + a);
    assert forall i :: 0 <= i < |p| ==> s[i] == p[i];
    assert s[|q|] == '-' && s[..|q|] == q;
    assert p[..|q| + 1] == q + "-";
  }

  lemma {:induction false} CollidingProjects(p: string, a: string, q: string, b: string)
    requires EventId(p, a) == EventId(q, b)
    ensures p == q || Extends(p, q) || Extends(q, p)
  {
    EventIdTail(p, a, q, b);
    if |p| > |q| {
      LongerExtends(p, a, q, b);
    } else if |q| > |p| {
      LongerExtends(q, b, p, a);
    } else {
      assert (p + ("-" + a))[..|p|] == p && (q + ("-" + b))[..|q|] == q;
    }
  }

  lemma {:induction false} ExtendingCollides(p: string, q: string) returns (a: string, b: string)
    requires Extends(p, q)
    ensures EventId(p, a) == EventId(q, b)
  {
    a, b := "d", p[|q| + 1..] + "-d";
    assert p == q + "-" + p[|q| + 1..];
    assert p + ("-" + a) == q + ("-" + b);
    EventIdTail(p, a, q, b);
  }

  /** Event ids join project and dispatch with a dash: two projects can form the same one if and only if they
      are the same or one extends the other by a dash. */
  lemma {:induction false} EventIdsCollideIff(p: string, q: string)
    ensures (exists a, b :: EventId(p, a) == EventId(q, b)) <==> p == q || Extends(p, q) || Extends(q, p)
  {
    if a, b :| EventId(p, a) == EventId(q, b) {
      CollidingProjects(p, a, q, b);
    }
    if p == q {
      assert EventId(p, "d") == EventId(q, "d");
    } else if Extends(p, q) {
      var a, b := ExtendingCollides(p, q);
    } else if Extends(q, p) {
      var b, a := ExtendingCollides(q, p);
    }
  }

  /** A literal instance. */
  lemma {:induction false} EventIdsCollide()
    ensures EventId("acme", "eu-d1") == EventId("acme-eu", "d1")
  {
  }

  /** Every event under a backfill id is one this tool writes. */
  ghost predicate ToolWritten(events: seq<CoordEvent>) {
    forall k :: 0 <= k < |events| && StartsWith(events[k].eventId, EVENT_PREFIX) ==>
      events[k].eventType == "pr_merged" && events[k].eventId == EventId(events[k].project, events[k].entityId)
  }

  lemma {:induction false} EventIdPrefix(project: string, dispatch: string)
    ensures StartsWith(EventId(project, dispatch), EVENT_PREFIX)
  {
    assert EventId(project, dispatch) == EVENT_PREFIX + (project + "-" + dispatch);
  }

  lemma {:induction false} BlockerIsForeign(f: FeaturePrs, db: Db, project: string) returns (k: nat)
    requires ToolWritten(db.events) && Blocked(f, db, project)
    ensures k < |db.events| && db.events[k].project != project
    ensures Extends(project, db.events[k].project) || Extends(db.events[k].project, project)
  {
    var ids := Linked(db.dispatches, f.featureId, project);
    k :| 0 <= k < |db.events| && db.events[k].eventId == EventId(project, ids[0]);
    EventIdPrefix(project, ids[0]);
    var e := db.events[k];
    CollidingProjects(e.project, e.entityId, project, ids[0]);
    if e.project == project {
      EventIdInjective(project, e.entityId, ids[0]);
    }
  }

  /** What a caller can look for before a run: where backfill ids are written by this tool alone, a run is
      blocked only if some event belongs to another project whose name extends this one's by a dash, or
      is so extended. In particular no run is ever blocked in a database of one project. */
  lemma {:induction false} ClashIsForeign(db: Db, m: seq<FeaturePrs>, project: string)
    requires ToolWritten(db.events) && Clash(db, m, project)
    ensures exists k :: && 0 <= k < |db.events| && db.events[k].project != project
                        && (Extends(project, db.events[k].project) || Extends(db.events[k].project, project))
  {
    var i :| 0 <= i < |m| && Blocked(m[i], Relinked(db, m, project), project);
    var k := BlockerIsForeign(m[i], Relinked(db, m, project), project);
  }

  // Runs of several projects

  datatype BackfillRun = BackfillRun(m: seq<FeaturePrs>, project: string, at: string)

  ghost predicate ValidRuns(runs: seq<BackfillRun>) {
    forall k :: 0 <= k < |runs| ==> ValidMap(runs[k].m)
  }

  /** The tables after a sequence of live runs; one that clashes is rolled back. */
  ghost function RunAll(db: Db, runs: seq<BackfillRun>): Db
    requires ValidRuns(runs)
  {
    if runs == [] then db
    else
      var p, r := RunAll(db, Front(runs)), Last(runs);
      if Clash(p, r.m, r.project) then p else Backfilled(p, r.m, r.project, r.at)
  }

  ghost predicate EventsOf(events: seq<CoordEvent>, projects: set<string>) {
    forall k :: 0 <= k < |events| ==> events[k].project in projects
  }

  lemma {:induction false} BackfillIsToolWritten(db: Db, m: seq<FeaturePrs>, project: string, at: string,
                                                 projects: set<string>)
    requires ValidMap(m) && ToolWritten(db.events) && EventsOf(db.events, projects) && project in projects
    ensures var events := Backfilled(db, m, project, at).events;
      ToolWritten(events) && EventsOf(events, projects)
  {
    var mid := Relinked(db, m, project);
    var added := AddedEvents(m, mid, project, at);
    forall k | 0 <= k < |added|
      ensures added[k].eventType == "pr_merged" && added[k].project == project
      ensures added[k].eventId == EventId(project, added[k].entityId)
    {
      var i := AddedSource(m, mid, project, at, k);
    }
    var events := db.events + added;
    assert forall k :: |db.events| <= k < |events| ==> events[k] == added[k - |db.events|];
  }

  lemma {:induction false} RunsStayToolWritten(db: Db, runs: seq<BackfillRun>, projects: set<string>)
    requires ValidRuns(runs) && ToolWritten(db.events) && EventsOf(db.events, projects)
    requires forall k :: 0 <= k < |runs| ==> runs[k].project in projects
    ensures ToolWritten(RunAll(db, runs).events) && EventsOf(RunAll(db, runs).events, projects)
  {
    if runs == [] {
    } else {
      RunsStayToolWritten(db, Front(runs), projects);
      BackfillIsToolWritten(RunAll(db, Front(runs)), Last(runs).m, Last(runs).project, Last(runs).at, projects);
    }
  }

  /** Over every sequence of runs: as long as no project's name extends another's by a dash, none is ever
      blocked. */
  lemma {:induction false} UnrelatedProjectsNeverClash(db: Db, runs: seq<BackfillRun>, projects: set<string>, k: nat)
    requires ValidRuns(runs) && ToolWritten(db.events) && EventsOf(db.events, projects) && k < |runs|
    requires forall i :: 0 <= i < |runs| ==> runs[i].project in projects
    requires forall p, q :: p in projects && q in projects ==> !Extends(p, q)
    ensures ValidRuns(runs[..k]) && !Clash(RunAll(db, runs[..k]), runs[k].m, runs[k].project)
  {
    assert ValidRuns(runs[..k]);
    RunsStayToolWritten(db, runs[..k], projects);
    var now := RunAll(db, runs[..k]);
    if Clash(now, runs[k].m, runs[k].project) {
      ClashIsForeign(now, runs[k].m, runs[k].project);
    }
  }

  /** Two projects, one dispatch each, whose event ids are the same. */
  function TwoProjects(p: string, a: string, q: string, b: string): Db {
    Db([Dispatch(a, p, Some("f"), None), Dispatch(b, q, Some("f"), None)], [Track("f", p, None), Track("f", q, None)],
        [])
  }

  function OneFeature(): seq<FeaturePrs> {
    [FeaturePrs("f", ["#1"])]
  }

  lemma {:induction false} TwoProjectsLinked(p: string, a: string, q: string, b: string)
    requires p != q
    ensures var ds := TwoProjects(p, a, q, b).dispatches;
      && Linked(ds, "f", p) == [a] && Linked(ds, "f", q) == [b]
      && RelinkAll(ds, OneFeature(), p) == ds && RelinkAll(ds, OneFeature(), q) == ds
  {
    var ds := TwoProjects(p, a, q, b).dispatches;
    assert Front(ds) == [ds[0]] && Front([ds[0]]) == [];
    assert Linked([ds[0]], "f", p) == [a] && Linked([ds[0]], "f", q) == [];
  }

  lemma {:induction false} FirstProjectRuns(p: string, a: string, q: string, b: string, at: string)
    requires p != q
    ensures var db := TwoProjects(p, a, q, b);
      var r := Backfilled(db, OneFeature(), p, at);
      && r.dispatches == db.dispatches && |r.tracks| == 2 && r.tracks[1] == db.tracks[1]
      && r.events == [EventFor(OneFeature()[0], db.dispatches, p, at)] && r.events[0].eventId == EventId(p, a)
  {
    var db := TwoProjects(p, a, q, b);
    TwoProjectsLinked(p, a, q, b);
    assert Front(OneFeature()) == [] && db.tracks[0].project == p;
    assert Needs(OneFeature()[0], Relinked(db, OneFeature(), p), p);
  }

  /** Whenever two projects can form the same event id, backfilling the first makes the second's run fail,
      though either alone would have succeeded. */
  lemma {:induction false} OneProjectBlocksAnother(p: string, a: string, q: string, b: string, at: string)
    requires p != q && EventId(p, a) == EventId(q, b)
    ensures var db, m := TwoProjects(p, a, q, b), OneFeature();
      && ValidMap(m) && ValidDb(db)
      && !Clash(db, m, p) && !Clash(db, m, q)
      && Clash(Backfilled(db, m, p, at), m, q)
  {
    var db, m := TwoProjects(p, a, q, b), OneFeature();
    var r := Backfilled(db, m, p, at);
    TwoProjectsLinked(p, a, q, b);
    FirstProjectRuns(p, a, q, b, at);
    assert HasTrack(r.tracks, "f", q) by {
      assert r.tracks[1].id == "f" && r.tracks[1].project == q;
    }
    assert Relinked(r, m, q) == r;
    assert IdTaken(r.events, EventId(q, b));
    assert Blocked(m[0], r, q);
  }

  /** A run of p makes one of q fail that would have succeeded, in a database of these two projects. */
  ghost predicate Blocks(db: Db, m: seq<FeaturePrs>, p: string, q: string, at: string) {
    && ValidMap(m) && ValidDb(db) && ToolWritten(db.events) && EventsOf(db.events, {p, q})
    && !Clash(db, m, p) && !Clash(db, m, q) && Clash(Backfilled(db, m, p, at), m, q)
  }

  /** So for two projects this happens in some database if and only if one name extends the other by a dash. */
  lemma {:induction false} ProjectsBlockIff(p: string, q: string, at: string)
    requires p != q
    ensures (exists db, m :: Blocks(db, m, p, q, at)) <==> Extends(p, q) || Extends(q, p)
  {
    if db, m :| Blocks(db, m, p, q, at) {
      BackfillIsToolWritten(db, m, p, at, {p, q});
      ClashIsForeign(Backfilled(db, m, p, at), m, q);
    }
    if Extends(p, q) || Extends(q, p) {
      EventIdsCollideIff(p, q);
      var a, b :| EventId(p, a) == EventId(q, b);
      OneProjectBlocksAnother(p, a, q, b, at);
      assert Blocks(TwoProjects(p, a, q, b), OneFeature(), p, q, at);
    }
  }

  /** The report lists a feature under track_pr_ref_set although nothing was written exactly when its
      reference is blank but not empty: the guard strips, the UPDATE does not. (An empty reference
      is also "rewritten" by an empty representative.) */
  lemma {:induction false} ReportedIsWritten(db: Db, m: seq<FeaturePrs>, project: string, i: nat, t: nat)
    requires ValidMap(m) && ValidDb(db) && i < |m| && t < |db.tracks|
    requires db.tracks[t].id == m[i].featureId && db.tracks[t].project == project
    requires Eligible(m[i], db, project)
    ensures m[i].featureId in ReportedSet(m, db, project) <==>
              match db.tracks[t].prRef
              case None => true
              case Some(ref) => forall k :: 0 <= k < |ref| ==> IsSpace(ref[k])
    ensures m[i].featureId in ReportedSet(m, db, project) ==>
      (FillTrack(db.tracks[t], m, db.dispatches, project) == db.tracks[t] <==>
       db.tracks[t].prRef.Some? && (db.tracks[t].prRef.value != "" || Last(m[i].merged) == ""))
  {
    var row := db.tracks[t];
    forall j | 0 <= j < |db.tracks| && j != t ensures (db.tracks[j].id, db.tracks[j].project) != (row.id, row.project) {
      if j < t {
        assert (db.tracks[j].id, db.tracks[j].project) != (db.tracks[t].id, db.tracks[t].project);
      } else {
        assert (db.tracks[t].id, db.tracks[t].project) != (db.tracks[j].id, db.tracks[j].project);
      }
    }
    if row.prRef.Some? {
      BlankIff(row.prRef.value);
    }
    PrRefIsRow(db.tracks, t);
    ReportedMember(m, db, project, i);
  }

  /** A smallest instance that fails: a blank reference is reported as set and left as it was. */
  lemma {:induction false} BlankIsReported(project: string, blank: string)
    requires blank != "" && Strip(blank) == ""
    ensures var db := Db([Dispatch("d", project, Some("f"), None)], [Track("f", project, Some(blank))], []);
      && ReportedSet(OneFeature(), db, project) == ["f"]
      && FillAll(db.tracks, OneFeature(), db.dispatches, project) == db.tracks
  {
    var d, t := Dispatch("d", project, Some("f"), None), Track("f", project, Some(blank));
    var db := Db([d], [t], []);
    assert Front([d]) == [] && Front(OneFeature()) == [] && Last(OneFeature()) == OneFeature()[0];
    assert db.dispatches[0].id == "d" && IsLinked(db.dispatches[0], "f", project);
    assert Linked([d], "f", project) == [] + ["d"];
    assert db.tracks[0].id == "f" && HasTrack(db.tracks, "f", project);
    assert Reported(OneFeature()[0], db, project);
  }

  lemma {:induction false} ReportedMember(m: seq<FeaturePrs>, db: Db, project: string, i: nat)
    requires ValidMap(m) && i < |m| && Eligible(m[i], db, project)
    ensures m[i].featureId in ReportedSet(m, db, project) <==> Reported(m[i], db, project)
  {
    ReportedSource(Front(m), db, project);
    if i < |m| - 1 {
      assert Front(m)[i] == m[i];
      ReportedMember(Front(m), db, project, i);
    }
  }

  lemma {:induction false} ReportedSource(m: seq<FeaturePrs>, db: Db, project: string)
    ensures forall id :: id in ReportedSet(m, db, project) ==> exists j :: 0 <= j < |m| && m[j].featureId == id
  {
    if m == [] {
    } else {
      ReportedSource(Front(m), db, project);
      assert forall j :: 0 <= j < |m| - 1 ==> Front(m)[j] == m[j];
      assert m[|m| - 1] == Last(m);
    }
  }
}
