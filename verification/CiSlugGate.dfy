/** The dispatch-id slug gate (scripts/check_ci_slug_match.py). */
module CiSlugGate {
  import opened Common
  import opened Text

  // ------------------------------------------------------------------------------------------
  // The NUL-separated commit log
  // ------------------------------------------------------------------------------------------

  const NUL: char := '\0'

  datatype Commit = Commit(sha: string, body: string)

  /** `s.split("\x00")`. */
  function Split(s: string): seq<string> {
    var k := FindChar(s, NUL);
    if k == |s| then [s] else [s[..k]] + Split(s[k + 1..])
  }

  /** Pairs of parts; a pair whose first half is blank is skipped, an odd last part ignored. */
  function Pairs(parts: seq<string>): seq<Commit> {
    if |parts| < 2 then []
    else (if Strip(parts[0]) != "" then [Commit(Strip(parts[0]), parts[1])] else []) + Pairs(parts[2..])
  }

  /** The parse loop of `commits_since`. */
  method ParseLog(log: string) returns (results: seq<Commit>)
    ensures results == Pairs(Split(log))
  {
    var parts := Split(log);
    results := [];
    var i := 0;
    while i + 1 < |parts|
      invariant i <= |parts|
      invariant results + Pairs(parts[i..]) == Pairs(parts)
    {
      var sha := Strip(parts[i]);
      var body := parts[i + 1];
      assert parts[i..][2..] == parts[i + 2..];
      if sha != "" {
        results := results + [Commit(sha, body)];
      }
      i := i + 2;
    }
  }

  /** What `git log --format=%H%x00%B%x00` prints: a newline ends every record, so it stands before the
      next sha, or last. `before` is what was printed since the last NUL: nothing at the start. */
  function Log(before: string, commits: seq<Commit>): string
    decreases commits
  {
    if commits == [] then before
    else (before + commits[0].sha) + [NUL] + (commits[0].body + [NUL] + Log("\n", commits[1..]))
  }

  ghost predicate Printable(c: Commit) {
    c.sha != "" && Strip(c.sha) == c.sha && NUL !in c.sha && NUL !in c.body
  }

  lemma {:induction false} FirstNulAfter(a: string, rest: string)
    requires NUL !in a
    ensures FindChar(a + [NUL] + rest, NUL) == |a|
  {
    var s := a + [NUL] + rest;
    assert s[|a|] == NUL;
    assert forall i :: 0 <= i < |a| ==> s[i] == a[i];
  }

  lemma {:induction false} SplitAt(a: string, rest: string)
    requires NUL !in a
    ensures Split(a + [NUL] + rest) == [a] + Split(rest)
  {
    var s := a + [NUL] + rest;
    FirstNulAfter(a, rest);
    assert s[..|a|] == a && s[|a| + 1..] == rest;
  }

  lemma {:induction false} PairsStep(first: string, body: string, rest: seq<string>)
    requires Strip(first) != ""
    ensures Pairs([first] + ([body] + rest)) == [Commit(Strip(first), body)] + Pairs(rest)
  {
    var parts := [first] + ([body] + rest);
    assert parts[0] == first && parts[1] == body && parts[2..] == rest;
  }

  lemma {:induction false} StripAfter(before: string, sha: string)
    requires before == "" || before == "\n"
    ensures Strip(before + sha) == Strip(sha)
  {
    if before == "" {
      assert before + sha == sha;
    } else {
      assert (before + sha)[1..] == sha;
    }
  }

  lemma {:induction false} RecordParses(first: string, body: string, rest: string)
    requires NUL !in first && NUL !in body && Strip(first) != ""
    ensures Pairs(Split(first + [NUL] + (body + [NUL] + rest))) == [Commit(Strip(first), body)] + Pairs(Split(rest))
  {
    SplitAt(first, body + [NUL] + rest);
    SplitAt(body, rest);
    PairsStep(first, body, Split(rest));
  }

  /** Parsing the log recovers exactly the printed commits, whatever NUL-free bodies they have. */
  lemma {:induction false} LogRoundTrip(before: string, commits: seq<Commit>)
    requires before == "" || before == "\n"
    requires forall i :: 0 <= i < |commits| ==> Printable(commits[i])
    ensures Pairs(Split(Log(before, commits))) == commits
    decreases commits
  {
    if commits == [] {
    } else {
      var c := commits[0];
      LogRoundTrip("\n", commits[1..]);
      StripAfter(before, c.sha);
      RecordParses(before + c.sha, c.body, Log("\n", commits[1..]));
      assert [c] + commits[1..] == commits;
    }
  }

  // ------------------------------------------------------------------------------------------
  // Slugs
  // ------------------------------------------------------------------------------------------

  /** `s.lower().replace("_", "-")`. */
  function Normal(s: string): (r: string)
    ensures |r| == |s|
    ensures forall i :: 0 <= i < |s| ==>
              if s[i] == '_' then r[i] == '-'
              else if 'A' <= s[i] <= 'Z' then 'a' <= r[i] <= 'z' && r[i] as int - 'a' as int == s[i] as int - 'A' as int
              else r[i] == s[i]
  {
    seq(|s|, i requires 0 <= i < |s| => if s[i] == '_' then '-' else LowerChar(s[i]))
  }

  predicate DigitsAt(s: string, from: nat, to: nat) {
    from <= to <= |s| && forall i :: from <= i < to ==> '0' <= s[i] <= '9'
  }

  predicate DashAt(s: string, i: nat) {
    i < |s| && s[i] == '-'
  }

  predicate IsTrack(c: char) {
    'A' <= c <= 'C'
  }

  /** `^(\d{8})-(\d{6})-(.+)-([A-C])$`. */
  predicate IsFull(s: string) {
    && |s| >= 19 && DigitsAt(s, 0, 8) && DashAt(s, 8) && DigitsAt(s, 9, 15) && DashAt(s, 15)
    && DashAt(s, |s| - 2) && IsTrack(s[|s| - 1])
    && '\n' !in s[16..|s| - 2]
  }

  /** `^(\d{8})-(?!\d{6}-)(.+)$`. */
  predicate IsLegacy(s: string) {
    && |s| >= 10 && DigitsAt(s, 0, 8) && DashAt(s, 8)
    && !(DigitsAt(s, 9, 15) && DashAt(s, 15))
    && '\n' !in s[9..]
  }

  /** `dispatch_id_slug`. */
  function DispatchIdSlug(id: string): Option<string> {
    var did := Strip(id);
    if IsFull(did) then Some(Normal(did[16..|did| - 2]))
    else if IsLegacy(did) then Some(Normal(did[9..]))
    else None
  }

  /** The two formats are disjoint: what the lookahead excludes is what the full format begins with. */
  lemma {:induction false} FormatsAreDisjoint(s: string)
    ensures !(IsFull(s) && IsLegacy(s))
  {
  }

  lemma {:induction false} StripNothing(s: string)
    requires s != "" && !IsSpace(s[0]) && !IsSpace(Last(s))
    ensures Strip(s) == s
  {
  }

  /** A slug an id can carry: one line, with a visible last character. */
  ghost predicate IsSlug(slug: string) {
    slug != "" && '\n' !in slug && !IsSpace(Last(slug))
  }

  function FullId(date: string, time: string, slug: string, track: char): string {
    date + "-" + time + "-" + slug + "-" + [track]
  }

  function LegacyId(date: string, slug: string): string {
    date + "-" + slug
  }

  /** The full format returns its normalised slug, whatever dashes and letters the slug holds. */
  lemma {:induction false} FullIdRoundTrip(date: string, time: string, slug: string, track: char)
    requires |date| == 8 && IsDigits(date) && |time| == 6 && IsDigits(time)
    requires slug != "" && '\n' !in slug && IsTrack(track)
    ensures DispatchIdSlug(FullId(date, time, slug, track)) == Some(Normal(slug))
  {
    var s := FullId(date, time, slug, track);
    assert |s| == 18 + |slug|;
    assert s[0] == date[0] && Last(s) == track;
    StripNothing(s);
    assert forall i :: 0 <= i < 8 ==> s[i] == date[i];
    assert forall i :: 9 <= i < 15 ==> s[i] == time[i - 9];
    assert s[8] == '-' && s[15] == '-' && s[|s| - 2] == '-' && s[|s| - 1] == track;
    assert s[16..|s| - 2] == slug;
  }

  /** Six digits and a dash come first. */
  ghost predicate LooksTimed(slug: string) {
    |slug| >= 7 && IsDigits(slug[..6]) && slug[6] == '-'
  }

  /** The legacy format returns its normalised slug exactly when the slug does not begin like a time. */
  lemma {:induction false} LegacyIdRoundTripIff(date: string, slug: string)
    requires |date| == 8 && IsDigits(date) && IsSlug(slug)
    ensures DispatchIdSlug(LegacyId(date, slug)) == Some(Normal(slug)) <==> !LooksTimed(slug)
  {
    var s := LegacyId(date, slug);
    assert s[0] == date[0] && Last(s) == Last(slug);
    StripNothing(s);
    assert forall i :: 0 <= i < 8 ==> s[i] == date[i];
    assert s[8] == '-' && s[9..] == slug;
    TimedIff(date, slug);
    if IsFull(s) {
      assert |Normal(s[16..|s| - 2])| < |Normal(slug)|;
    }
  }

  lemma {:induction false} TimedIff(date: string, slug: string)
    requires |date| == 8
    ensures LooksTimed(slug) <==> DigitsAt(LegacyId(date, slug), 9, 15) && DashAt(LegacyId(date, slug), 15)
  {
    var s := LegacyId(date, slug);
    assert forall i :: 9 <= i < |s| ==> s[i] == slug[i - 9];
    assert forall i :: 0 <= i < |slug| ==> slug[i] == s[i + 9];
  }

  /** A smallest instance that fails: the slug begins like a time. */
  lemma {:induction false} TimeLikeSlugIsLost(date: string)
    requires |date| == 8 && IsDigits(date)
    ensures DispatchIdSlug(LegacyId(date, "230100-x")) != Some(Normal("230100-x"))
  {
    assert LooksTimed("230100-x");
    LegacyIdRoundTripIff(date, "230100-x");
  }

  function LeadDashes(s: string): (r: string)
    ensures |r| <= |s|
  {
    if s != "" && s[0] == '-' then LeadDashes(s[1..]) else s
  }

  function TrailDashes(s: string): (r: string)
    ensures |r| <= |s|
  {
    if s != "" && Last(s) == '-' then TrailDashes(Front(s)) else s
  }

  /** What `strip("-")` leaves. */
  function Inner(s: string): string {
    TrailDashes(LeadDashes(s))
  }

  /** `slugs_match`. */
  predicate SlugsMatch(a: string, b: string) {
    Inner(Normal(a)) == Inner(Normal(b))
  }

  // When two slugs match

  /** Two ways of writing one character: either case of a letter, dash or underscore. */
  ghost predicate Alike(c: char, d: char) {
    || c == d
    || ('A' <= c <= 'Z' && d as int == c as int + 32)
    || ('A' <= d <= 'Z' && c as int == d as int + 32)
    || ((c == '-' || c == '_') && (d == '-' || d == '_'))
  }

  ghost predicate AlikeText(a: string, b: string) {
    |a| == |b| && forall i :: 0 <= i < |a| ==> Alike(a[i], b[i])
  }

  ghost predicate AllDashes(s: string) {
    forall i :: 0 <= i < |s| ==> s[i] == '-' || s[i] == '_'
  }

  /** a is part, written in some way, between dashes. */
  ghost predicate Spells(a: string, part: string) {
    exists i, j :: && 0 <= i <= j <= |a| && AllDashes(a[..i]) && AllDashes(a[j..]) && AlikeText(a[i..j], part)
  }

  /** Any two slugs match exactly when they spell one string: letter case, underscores written for dashes
      and outer dashes make no difference, and nothing else is overlooked. */
  lemma {:induction false} SlugsMatchIff(a: string, b: string)
    ensures SlugsMatch(a, b) <==> exists part :: Spells(a, part) && Spells(b, part)
  {
    SpellsInner(a);
    SpellsInner(b);
    forall part | Spells(a, part) && Spells(b, part) ensures SlugsMatch(a, b) {
      InnerOfSpelling(a, part);
      InnerOfSpelling(b, part);
    }
  }

  /** A slug written in another way matches the same slugs. */
  lemma {:induction false} RespellingIsTheSame(a: string, part: string, b: string)
    requires Spells(a, part)
    ensures SlugsMatch(a, b) <==> SlugsMatch(part, b)
  {
    InnerOfSpelling(a, part);
  }

  lemma {:induction false} SpellsInner(a: string)
    ensures Spells(a, Inner(Normal(a)))
  {
    var i, j := InnerIs(Normal(a));
    NormalOfPart(a, 0, i);
    NormalOfPart(a, i, j);
    NormalOfPart(a, j, |a|);
    DashesOnly(a[0..i]);
    DashesOnly(a[j..|a|]);
    NormalIsAlike(a[i..j]);
    assert a[..i] == a[0..i] && a[j..] == a[j..|a|];
  }

  lemma {:induction false} NormalOfPart(a: string, i: nat, j: nat)
    requires i <= j <= |a|
    ensures Normal(a[i..j]) == Normal(a)[i..j]
  {
  }

  lemma {:induction false} DashesOnly(a: string)
    requires OnlyDash(Normal(a))
    ensures AllDashes(a)
  {
  }

  lemma {:induction false} InnerIs(s: string) returns (i: nat, j: nat)
    ensures i <= j <= |s| && Inner(s) == s[i..j] && OnlyDash(s[0..i]) && OnlyDash(s[j..|s|])
  {
    i := LeadIs(s);
    var k := TrailIs(s[i..]);
    j := i + k;
    assert s[i..][..k] == s[i..j] && s[i..][k..] == s[j..|s|] && s[..i] == s[0..i];
  }

  lemma {:induction false} NormalIsAlike(a: string)
    ensures AlikeText(a, Normal(a))
  {
  }

  lemma {:induction false} LeadIs(s: string) returns (i: nat)
    ensures i <= |s| && LeadDashes(s) == s[i..] && OnlyDash(s[..i])
  {
    if s != "" && s[0] == '-' {
      var k := LeadIs(s[1..]);
      i := k + 1;
      assert s[..i] == ['-'] + s[1..][..k];
    } else {
      i := 0;
    }
  }

  lemma {:induction false} TrailIs(s: string) returns (j: nat)
    ensures j <= |s| && TrailDashes(s) == s[..j] && OnlyDash(s[j..])
  {
    if s != "" && Last(s) == '-' {
      j := TrailIs(Front(s));
      assert s[j..] == Front(s)[j..] + ['-'];
    } else {
      j := |s|;
    }
  }

  lemma {:induction false} InnerOfSpelling(a: string, part: string)
    requires Spells(a, part)
    ensures Inner(Normal(a)) == Inner(Normal(part))
  {
    var i, j :| && 0 <= i <= j <= |a| && AllDashes(a[..i]) && AllDashes(a[j..]) && AlikeText(a[i..j], part);
    NormalOfAlike(a[i..j], part);
    NormalOfPart(a, i, j);
    assert OnlyDash(Normal(a)[..i]) && OnlyDash(Normal(a)[j..]);
    InnerOfPart(Normal(a), i, j);
  }

  lemma {:induction false} InnerOfPart(s: string, i: nat, j: nat)
    requires i <= j <= |s| && OnlyDash(s[..i]) && OnlyDash(s[j..])
    ensures Inner(s) == Inner(s[i..j])
  {
    assert s == s[..i] + (s[i..j] + s[j..]);
    LeadOfDashes(s[..i], s[i..j] + s[j..]);
    InnerBeforeDashes(s[i..j], s[j..]);
  }

  lemma {:induction false} NormalOfAlike(a: string, b: string)
    requires AlikeText(a, b)
    ensures Normal(a) == Normal(b)
  {
    forall i | 0 <= i < |a| ensures Normal(a)[i] == Normal(b)[i] {
      assert Alike(a[i], b[i]);
    }
  }

  ghost predicate OnlyDash(s: string) {
    forall i :: 0 <= i < |s| ==> s[i] == '-'
  }

  lemma {:induction false} LeadOfDashes(pre: string, rest: string)
    requires OnlyDash(pre)
    ensures LeadDashes(pre + rest) == LeadDashes(rest)
  {
    if pre == "" {
      assert pre + rest == rest;
    } else {
      LeadOfDashes(pre[1..], rest);
      assert (pre + rest)[1..] == pre[1..] + rest;
    }
  }

  lemma {:induction false} TrailOfDashes(s: string, post: string)
    requires OnlyDash(post)
    ensures TrailDashes(s + post) == TrailDashes(s)
  {
    if post == "" {
      assert s + post == s;
    } else {
      TrailOfDashes(s, Front(post));
      assert Front(s + post) == s + Front(post);
    }
  }

  lemma {:induction false} InnerBeforeDashes(s: string, post: string)
    requires OnlyDash(post)
    ensures Inner(s + post) == Inner(s)
  {
    if s == "" {
      LeadOfDashes(post, "");
      assert s + post == post + "";
    } else if s[0] == '-' {
      InnerBeforeDashes(s[1..], post);
      assert (s + post)[1..] == s[1..] + post;
    } else {
      TrailOfDashes(s, post);
    }
  }

  /** Lower-case letters, digits and inner dashes. */
  ghost predicate IsPlain(slug: string) {
    && (forall i :: 0 <= i < |slug| ==> 'a' <= slug[i] <= 'z' || '0' <= slug[i] <= '9' || slug[i] == '-')
    && slug != "" && slug[0] != '-' && Last(slug) != '-'
  }

  /** Plain slugs match only themselves. */
  lemma {:induction false} PlainSlugsMatchIff(a: string, b: string)
    requires IsPlain(a) && IsPlain(b)
    ensures SlugsMatch(a, b) <==> a == b
  {
    PlainIsBare(a);
    PlainIsBare(b);
  }

  lemma {:induction false} PlainIsBare(a: string)
    requires IsPlain(a)
    ensures Normal(a) == a && Inner(a) == a
  {
  }

  const PREFIXES: seq<string> :=
    ["fix", "feat", "feature", "test", "docs", "chore", "refactor", "hotfix", "perf", "ci", "build", "revert"]

  /** `BRANCH_PREFIX_RE.sub("", name)`: one known type before the first slash is dropped. */
  function DropType(name: string): string {
    var k := FindChar(name, '/');
    if k < |name| && name[..k] in PREFIXES then name[k + 1..] else name
  }

  /** `branch_slug`. */
  function BranchSlug(branch: string): string {
    var name := Strip(branch);
    Normal(DropType(if StartsWith(name, REMOTE) then name[|REMOTE|..] else name))
  }

  lemma {:induction false} PrefixShape(p: string)
    requires p in PREFIXES
    ensures p != "" && '/' !in p && !IsSpace(p[0]) && p[0] != 'o'
  {
    assert p == PREFIXES[0] || p == PREFIXES[1] || p == PREFIXES[2] || p == PREFIXES[3] || p == PREFIXES[4]
        || p == PREFIXES[5] || p == PREFIXES[6] || p == PREFIXES[7] || p == PREFIXES[8] || p == PREFIXES[9]
        || p == PREFIXES[10] || p == PREFIXES[11];
  }

  ghost predicate Typed(name: string) {
    exists p :: p in PREFIXES && StartsWith(name, p + "/")
  }

  lemma {:induction false} DropsKnownType(p: string, slug: string)
    requires p in PREFIXES
    ensures DropType(p + "/" + slug) == slug
  {
    var name := p + "/" + slug;
    PrefixShape(p);
    assert forall i :: 0 <= i < |p| ==> name[i] == p[i];
    assert name[|p|] == '/' && FindChar(name, '/') == |p|;
    assert name[..|p|] == p && name[|p| + 1..] == slug;
  }

  lemma {:induction false} KeepsUntyped(name: string)
    ensures Typed(name) || DropType(name) == name
  {
    var k := FindChar(name, '/');
    if k < |name| && name[..k] in PREFIXES {
      assert name[..k + 1] == name[..k] + "/";
      assert StartsWith(name, name[..k] + "/");
    }
  }

  /** A name that strip leaves alone. */
  ghost predicate Trimmed(name: string) {
    name != "" && !IsSpace(name[0]) && !IsSpace(Last(name))
  }

  const REMOTE := "origin/"

  function OnRemote(remote: bool, name: string): string {
    if remote then REMOTE + name else name
  }

  /** The remote's name in front makes no difference, unless the name itself begins with it. */
  lemma {:induction false} RemoteIsDropped(remote: bool, name: string)
    requires Trimmed(name) && (remote || !StartsWith(name, REMOTE))
    ensures BranchSlug(OnRemote(remote, name)) == Normal(DropType(name))
  {
    var branch := OnRemote(remote, name);
    if remote {
      assert branch[..7] == REMOTE && branch[7..] == name && Last(branch) == Last(name) && branch[0] == 'o';
    }
    StripNothing(branch);
  }

  lemma {:induction false} TypedIsNotRemote(p: string, slug: string)
    requires p in PREFIXES
    ensures !StartsWith(p + "/" + slug, REMOTE)
  {
    var name := p + "/" + slug;
    PrefixShape(p);
    assert name[0] == p[0];
    assert |name| >= 7 ==> name[..7][0] == name[0];
  }

  /** One known type in front is dropped, with the remote's name or without it. */
  lemma {:induction false} BranchSlugOf(remote: bool, p: string, slug: string)
    requires p in PREFIXES && (slug == "" || !IsSpace(Last(slug)))
    ensures BranchSlug(OnRemote(remote, p + "/" + slug)) == Normal(slug)
  {
    var name := p + "/" + slug;
    PrefixShape(p);
    assert name[0] == p[0] && (if slug == "" then Last(name) == '/' else Last(name) == Last(slug));
    TypedIsNotRemote(p, slug);
    RemoteIsDropped(remote, name);
    DropsKnownType(p, slug);
  }

  /** Blanks around the name make no difference. */
  lemma {:induction false} OuterBlanksAreDropped(before: string, name: string, after: string)
    requires Trimmed(name)
    requires forall k :: 0 <= k < |before| ==> IsSpace(before[k])
    requires forall k :: 0 <= k < |after| ==> IsSpace(after[k])
    ensures BranchSlug(before + name + after) == BranchSlug(name)
  {
    var s := before + name + after;
    assert forall k :: 0 <= k < |before| ==> s[k] == before[k];
    assert forall k :: |before| + |name| <= k < |s| ==> s[k] == after[k - |before| - |name|];
    assert !IsSpace(s[|before|]) && !IsSpace(s[|before| + |name| - 1]);
    var i, j := StripIs(s);
    assert i <= |before| < j && i <= |before| + |name| - 1 < j;
    assert s[i..j] == name;
    StripNothing(name);
  }

  /** A name without a known type is kept whole, slashes and all. */
  lemma {:induction false} UntypedBranchSlug(remote: bool, name: string)
    requires Trimmed(name) && !Typed(name) && (remote || !StartsWith(name, REMOTE))
    ensures BranchSlug(OnRemote(remote, name)) == Normal(name)
  {
    RemoteIsDropped(remote, name);
    KeepsUntyped(name);
  }

  /** End to end: on the branch named after a slug, local or remote, with any type prefix, the dispatch id
      built from that slug matches, upper case and underscores included. */
  lemma {:induction false} OwnBranchMatches(date: string, time: string, slug: string, track: char, remote: bool,
                                            p: string)
    requires |date| == 8 && IsDigits(date) && |time| == 6 && IsDigits(time)
    requires IsSlug(slug) && IsTrack(track) && p in PREFIXES
    ensures var s := DispatchIdSlug(FullId(date, time, slug, track));
      s.Some? && SlugsMatch(s.value, BranchSlug(OnRemote(remote, p + "/" + slug)))
  {
    FullIdRoundTrip(date, time, slug, track);
    BranchSlugOf(remote, p, slug);
  }

  /** An id in the full format with slug t. */
  ghost predicate IsFullIdOf(id: string, t: string) {
    exists date, time, track :: && |date| == 8 && IsDigits(date) && |time| == 6 && IsDigits(time)
                                && 'A' <= track <= 'C' && id == FullId(date, time, t, track)
  }

  /** An id in the legacy format with slug t. */
  ghost predicate IsLegacyIdOf(id: string, t: string) {
    exists date :: |date| == 8 && IsDigits(date) && !LooksTimed(t) && id == LegacyId(date, t)
  }

  ghost predicate OneLine(slug: string) {
    slug != "" && '\n' !in slug
  }

  /** A slug can be read off an id exactly when, without outer blanks, it has one of the two formats. */
  lemma {:induction false} ReadableIff(id: string)
    ensures DispatchIdSlug(id).Some? <==>
            exists t :: OneLine(t) && (IsFullIdOf(Strip(id), t) || IsLegacyIdOf(Strip(id), t))
  {
    var did := Strip(id);
    if IsFull(did) {
      FullHasSlug(did);
    } else if IsLegacy(did) {
      LegacyHasSlug(did);
    }
    forall t | OneLine(t) && IsFullIdOf(did, t) ensures IsFull(did) {
      FullIsFull(did, t);
    }
    forall t | OneLine(t) && IsLegacyIdOf(did, t) ensures IsLegacy(did) {
      LegacyIsLegacy(did, t);
    }
  }

  lemma {:induction false} FullHasSlug(did: string)
    requires IsFull(did)
    ensures exists t :: OneLine(t) && IsFullIdOf(did, t)
  {
    var t := did[16..|did| - 2];
    assert did == FullId(did[..8], did[9..15], t, Last(did));
    assert IsFullIdOf(did, t);
  }

  lemma {:induction false} LegacyHasSlug(did: string)
    requires IsLegacy(did)
    ensures exists t :: OneLine(t) && IsLegacyIdOf(did, t)
  {
    var t := did[9..];
    assert did == LegacyId(did[..8], t);
    assert |did| > 15 ==> forall i :: 9 <= i < 15 ==> did[i] == t[..6][i - 9];
    assert IsLegacyIdOf(did, t);
  }

  lemma {:induction false} FullIsFull(did: string, t: string)
    requires OneLine(t) && IsFullIdOf(did, t)
    ensures IsFull(did)
  {
    var date, time, track :| && |date| == 8 && IsDigits(date) && |time| == 6 && IsDigits(time)
                             && 'A' <= track <= 'C' && did == FullId(date, time, t, track);
    assert forall i :: 0 <= i < 8 ==> did[i] == date[i];
    assert forall i :: 9 <= i < 15 ==> did[i] == time[i - 9];
    assert did[16..|did| - 2] == t;
  }

  lemma {:induction false} LegacyIsLegacy(did: string, t: string)
    requires OneLine(t) && IsLegacyIdOf(did, t)
    ensures IsLegacy(did)
  {
    var date :| |date| == 8 && IsDigits(date) && !LooksTimed(t) && did == LegacyId(date, t);
    assert forall i :: 0 <= i < 8 ==> did[i] == date[i];
    assert did[9..] == t;
    assert forall i :: 9 <= i < |did| ==> did[i] == t[i - 9];
    assert forall i :: 0 <= i < |t| ==> t[i] == did[i + 9];
  }

  /** A branch, local or remote, named after slug s with one of the known types. */
  ghost predicate IsBranchOf(branch: string, s: string) {
    exists remote, p :: p in PREFIXES && branch == OnRemote(remote, p + "/" + s)
  }

  /** End to end: the id of one plain slug matches the branch of another exactly when they are equal. */
  lemma {:induction false} VerdictOnPlain(id: string, t: string, branch: string, s: string)
    requires IsPlain(s) && IsPlain(t) && IsFullIdOf(id, t) && IsBranchOf(branch, s)
    ensures Verdict(id, BranchSlug(branch)) == Some(s == t)
  {
    var date, time, track :| && |date| == 8 && IsDigits(date) && |time| == 6 && IsDigits(time)
                             && 'A' <= track <= 'C' && id == FullId(date, time, t, track);
    var remote, p :| p in PREFIXES && branch == OnRemote(remote, p + "/" + s);
    FullIdRoundTrip(date, time, t, track);
    BranchSlugOf(remote, p, s);
    PlainIsBare(s);
    PlainIsBare(t);
    PlainSlugsMatchIff(t, s);
  }

  // ------------------------------------------------------------------------------------------
  // The gate
  // ------------------------------------------------------------------------------------------

  datatype CommitResult = CommitResult(sha: string, ids: seq<string>, matches: seq<bool>)

  predicate AllSlugsMatch(r: CommitResult) {
    r.matches != [] && forall i :: 0 <= i < |r.matches| ==> r.matches[i]
  }

  /** How one id compares with the branch: None when no slug can be read off it. */
  function Verdict(id: string, target: string): Option<bool> {
    match DispatchIdSlug(id)
    case Some(slug) => Some(SlugsMatch(slug, target))
    case None => None
  }

  function Verdicts(ids: seq<string>, target: string): (r: seq<Option<bool>>)
    ensures |r| == |ids|
    ensures forall i :: 0 <= i < |ids| ==> r[i] == Verdict(ids[i], target)
  {
    seq(|ids|, i requires 0 <= i < |ids| => Verdict(ids[i], target))
  }

  /** The answers that were given, in order. */
  function Given(verdicts: seq<Option<bool>>): seq<bool> {
    if verdicts == [] then []
    else Given(Front(verdicts)) + (if Last(verdicts).Some? then [Last(verdicts).value] else [])
  }

  /** Some slug could be read, and every one that could matches. */
  predicate Approved(verdicts: seq<Option<bool>>) {
    (exists i :: 0 <= i < |verdicts| && verdicts[i].Some?) && Some(false) !in verdicts
  }

  /** A commit passes when some slug can be read off its ids and every one that can matches. */
  predicate Passes(ids: seq<string>, target: string) {
    Approved(Verdicts(ids, target))
  }

  /** Some id is in the full format with a plain slug other than s. */
  ghost predicate NamesOther(ids: seq<string>, s: string) {
    exists i, t :: 0 <= i < |ids| && IsPlain(t) && t != s && IsFullIdOf(ids[i], t)
  }

  /** There is an id, and all are in the full format with slug s. */
  ghost predicate NamesOnly(ids: seq<string>, s: string) {
    ids != [] && forall i :: 0 <= i < |ids| ==> IsFullIdOf(ids[i], s)
  }

  /** A commit of another slug fails on the branch of s, and one of s alone passes. */
  lemma {:induction false} PassesOnPlain(ids: seq<string>, branch: string, s: string)
    requires IsPlain(s) && IsBranchOf(branch, s)
    ensures NamesOther(ids, s) ==> !Passes(ids, BranchSlug(branch))
    ensures NamesOnly(ids, s) ==> Passes(ids, BranchSlug(branch))
  {
    var target := BranchSlug(branch);
    var verdicts := Verdicts(ids, target);
    if NamesOther(ids, s) {
      var i, t :| 0 <= i < |ids| && IsPlain(t) && t != s && IsFullIdOf(ids[i], t);
      VerdictOnPlain(ids[i], t, branch, s);
      assert verdicts[i] == Some(false);
    }
    if NamesOnly(ids, s) {
      forall i | 0 <= i < |ids| ensures verdicts[i] == Some(true) {
        VerdictOnPlain(ids[i], s, branch, s);
      }
      assert verdicts[0].Some?;
    }
  }

  lemma {:induction false} GivenDecide(verdicts: seq<Option<bool>>)
    ensures Given(verdicts) != [] <==> exists i :: 0 <= i < |verdicts| && verdicts[i].Some?
    ensures false in Given(verdicts) <==> Some(false) in verdicts
  {
    if verdicts == [] {
    } else {
      var front := Front(verdicts);
      GivenDecide(front);
      assert verdicts == front + [Last(verdicts)];
      assert forall i :: 0 <= i < |front| ==> verdicts[i] == front[i];
    }
  }

  method FindMatches(ids: seq<string>, target: string) returns (matches: seq<bool>)
    ensures matches == Given(Verdicts(ids, target))
  {
    ghost var verdicts := Verdicts(ids, target);
    matches := [];
    var j := 0;
    while j < |ids|
      invariant j <= |ids|
      invariant matches == Given(verdicts[..j])
    {
      PrefixStep(verdicts, j);
      var slug := DispatchIdSlug(ids[j]);
      if slug.Some? {
        matches := matches + [SlugsMatch(slug.value, target)];
      }
      j := j + 1;
    }
    assert verdicts[..j] == verdicts;
  }

  /** `scan_commits`; extract finds the Dispatch-ID lines of a body. */
  method ScanCommits(commits: seq<Commit>, target: string, extract: string -> seq<string>)
    returns (results: seq<CommitResult>)
    ensures |results| == |commits|
    ensures forall k :: 0 <= k < |commits| ==>
              results[k].sha == commits[k].sha && results[k].ids == extract(commits[k].body)
    ensures forall k :: 0 <= k < |commits| ==> results[k].matches == Given(Verdicts(results[k].ids, target))
  {
    results := [];
    var k := 0;
    while k < |commits|
      invariant k <= |commits| && |results| == k
      invariant forall j :: 0 <= j < k ==>
                  results[j].sha == commits[j].sha && results[j].ids == extract(commits[j].body)
      invariant forall j :: 0 <= j < k ==> results[j].matches == Given(Verdicts(results[j].ids, target))
    {
      var ids := extract(commits[k].body);
      var matches := FindMatches(ids, target);
      results := results + [CommitResult(commits[k].sha, ids, matches)];
      k := k + 1;
    }
  }

  ghost predicate Clean(r: CommitResult) {
    r.ids != [] && AllSlugsMatch(r)
  }

  /** A scanned commit is put on neither failure list exactly when its ids pass. */
  lemma {:induction false} CleanIffPasses(r: CommitResult, target: string)
    requires r.matches == Given(Verdicts(r.ids, target))
    ensures Clean(r) <==> Passes(r.ids, target)
  {
    GivenDecide(Verdicts(r.ids, target));
    assert AllSlugsMatch(r) <==> r.matches != [] && false !in r.matches;
  }

  /** The two failure lists of the report loop. */
  method Classify(scan: seq<CommitResult>) returns (missing: seq<CommitResult>, mismatches: seq<CommitResult>)
    ensures forall r :: r in missing <==> r in scan && r.ids == []
    ensures forall r :: r in mismatches <==> r in scan && r.ids != [] && !AllSlugsMatch(r)
  {
    missing, mismatches := [], [];
    var k := 0;
    while k < |scan|
      invariant k <= |scan|
      invariant forall r :: r in missing <==> r in scan[..k] && r.ids == []
      invariant forall r :: r in mismatches <==> r in scan[..k] && r.ids != [] && !AllSlugsMatch(r)
    {
      assert scan[..k + 1] == scan[..k] + [scan[k]];
      if scan[k].ids == [] {
        missing := missing + [scan[k]];
      } else if !AllSlugsMatch(scan[k]) {
        mismatches := mismatches + [scan[k]];
      }
      k := k + 1;
    }
    assert scan[..k] == scan;
  }

  /** The verdict of `run_gate`; None means git could not list the commits. With enforcement the exit
      code is 0 exactly when every commit carries an id, and all slugs read off its ids, at least one,
      match the branch; without it a bad commit only warns. No commits pass. */
  method RunGate(commits: Option<seq<Commit>>, branch: string, enforce: bool, extract: string -> seq<string>)
    returns (code: int)
    ensures code == 2 <==> commits.None?
    ensures forall s :: enforce && commits.Some? && IsPlain(s) && IsBranchOf(branch, s) ==>
              && ((exists k :: 0 <= k < |commits.value| && NamesOther(extract(commits.value[k].body), s)) ==> code == 1)
              && ((forall k :: 0 <= k < |commits.value| ==> NamesOnly(extract(commits.value[k].body), s)) ==> code == 0)
    ensures commits.Some? ==>
      (code == 0 <==> !enforce || forall k :: 0 <= k < |commits.value| ==>
                                    Passes(extract(commits.value[k].body), BranchSlug(branch)))
    ensures 0 <= code <= 2
  {
    var target := BranchSlug(branch);
    if commits.None? {
      return 2;
    }
    forall s, k | IsPlain(s) && IsBranchOf(branch, s) && 0 <= k < |commits.value|
      ensures NamesOther(extract(commits.value[k].body), s) ==> !Passes(extract(commits.value[k].body), target)
      ensures NamesOnly(extract(commits.value[k].body), s) ==> Passes(extract(commits.value[k].body), target)
    {
      PassesOnPlain(extract(commits.value[k].body), branch, s);
    }
    if commits.value == [] {
      return 0;
    }
    var scan := ScanCommits(commits.value, target, extract);
    var missing, mismatches := Classify(scan);
    var failed := missing != [] || mismatches != [];
    code := if failed && enforce then 1 else 0;
    NoFailures(scan, missing, mismatches);
    forall k | 0 <= k < |scan| ensures Clean(scan[k]) <==> Passes(extract(commits.value[k].body), target) {
      CleanIffPasses(scan[k], target);
    }
  }

  lemma {:induction false} NoFailures(scan: seq<CommitResult>, missing: seq<CommitResult>,
                                      mismatches: seq<CommitResult>)
    requires forall r :: r in missing <==> r in scan && r.ids == []
    requires forall r :: r in mismatches <==> r in scan && r.ids != [] && !AllSlugsMatch(r)
    ensures missing == [] && mismatches == [] <==> forall k :: 0 <= k < |scan| ==> Clean(scan[k])
  {
    if missing != [] {
      assert missing[0] in missing && missing[0] in scan;
    } else if mismatches != [] {
      assert mismatches[0] in mismatches && mismatches[0] in scan;
    } else {
      forall k | 0 <= k < |scan| ensures Clean(scan[k]) {
        assert scan[k] in scan;
      }
    }
  }
}
