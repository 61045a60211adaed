/** Plan-gate report filenames (scripts/backfill_track_decision_ref.py). */
module DecisionRefNames {
  import opened Common
  import opened Text

  const REPORT_PREFIX := "plan-gate-"
  const TIEBREAK_PREFIX := "plan-tiebreak-"
  const EXTENSION := ".md"

  /** What a panel report's name says. */
  datatype Name = Name(track: string, seat: string, hash: string)

  /** What a tiebreak report's name says. */
  datatype TiebreakName = TiebreakName(track: string, hash: string)

  predicate IsHash(s: string) {
    |s| == 8 && forall i :: 0 <= i < |s| ==> '0' <= s[i] <= '9' || 'a' <= s[i] <= 'f'
  }

  /** `s.rstrip("-")`. */
  function StripDashes(s: string): (r: string)
    ensures r != "" ==> Last(r) != '-'
    ensures s != "" && Last(s) != '-' ==> r == s
  {
    if s != "" && Last(s) == '-' then StripDashes(Front(s)) else s
  }

  /** The stem without extension and prefix, cut into what precedes the trailing hash and the hash. */
  function CutHash(filename: string, prefix: string): Option<(string, string)> {
    var stem := if EndsWith(filename, EXTENSION) then DropLast(filename, 3) else filename;
    if !StartsWith(stem, prefix) then None
    else
      var rest := stem[|prefix|..];
      if |rest| < 8 || !IsHash(rest[|rest| - 8..]) then None
      else Some((StripDashes(DropLast(rest, 8)), rest[|rest| - 8..]))
  }

  predicate Matches(labelAndTrack: string, seat: string) {
    EndsWith(labelAndTrack, "-" + seat)
  }

  /** The first label of the list that ends the string, |labels| if there is none. */
  function FirstMatch(labels: seq<string>, labelAndTrack: string): (i: nat)
    ensures i <= |labels| && (i < |labels| ==> Matches(labelAndTrack, labels[i]))
    ensures forall j :: 0 <= j < i ==> !Matches(labelAndTrack, labels[j])
  {
    if labels == [] || Matches(labelAndTrack, labels[0]) then 0 else 1 + FirstMatch(labels[1..], labelAndTrack)
  }

  /** Splits off the first matching label; what precedes its dash is the track. */
  function SplitLabel(labelAndTrack: string, hash: string, labels: seq<string>): Option<Name> {
    var i := FirstMatch(labels, labelAndTrack);
    if i == |labels| then None
    else
      var track := DropLast(labelAndTrack, 1 + |labels[i]|);
      if track == "" then None else Some(Name(track, labels[i], hash))
  }

  function Parse(filename: string, labels: seq<string>): Option<Name> {
    var cut := CutHash(filename, REPORT_PREFIX);
    if cut.None? || cut.value.0 == "" then None else SplitLabel(cut.value.0, cut.value.1, labels)
  }

  /** `_parse_report_filename`: reassigns the stem, then tries the labels in order. */
  method ParseReportFilename(filename: string, labels: seq<string>) returns (r: Option<Name>)
    ensures r == Parse(filename, labels)
  {
    var stem := filename;
    if EndsWith(stem, EXTENSION) {
      stem := DropLast(stem, 3);
    }
    if !StartsWith(stem, REPORT_PREFIX) {
      return None;
    }
    stem := stem[|REPORT_PREFIX|..];
    if |stem| < 8 || !IsHash(stem[|stem| - 8..]) {
      return None;
    }
    var hash := stem[|stem| - 8..];
    var labelAndTrack := StripDashes(DropLast(stem, 8));
    if labelAndTrack == "" {
      return None;
    }
    var k := 0;
    while k < |labels|
      invariant k <= |labels|
      invariant forall j :: 0 <= j < k ==> !Matches(labelAndTrack, labels[j])
    {
      var suffix := "-" + labels[k];
      if EndsWith(labelAndTrack, suffix) {
        assert k == FirstMatch(labels, labelAndTrack);
        var track := DropLast(labelAndTrack, |suffix|);
        return if track == "" then None else Some(Name(track, labels[k], hash));
      }
      k := k + 1;
    }
    return None;
  }

  function ParseTiebreak(filename: string): Option<TiebreakName> {
    var cut := CutHash(filename, TIEBREAK_PREFIX);
    if cut.None? || cut.value.0 == "" then None else Some(TiebreakName(cut.value.0, cut.value.1))
  }

  // ------------------------------------------------------------------------------------------
  // What a parsed name looks like
  // ------------------------------------------------------------------------------------------

  ghost predicate EightHex(s: string) {
    |s| == 8 && forall i :: 0 <= i < 8 ==> s[i] in "0123456789abcdef"
  }

  lemma {:induction false} HashIff(s: string)
    ensures IsHash(s) <==> EightHex(s)
  {
    forall c: char ensures c in "0123456789abcdef" <==> '0' <= c <= '9' || 'a' <= c <= 'f' {
      HexDigit(c);
    }
  }

  lemma {:induction false} HexDigit(c: char)
    ensures c in "0123456789abcdef" <==> '0' <= c <= '9' || 'a' <= c <= 'f'
  {
    var hex := "0123456789abcdef";
    if '0' <= c <= '9' {
      assert hex[c as int - '0' as int] == c;
    } else if 'a' <= c <= 'f' {
      assert hex[c as int - 'a' as int + 10] == c;
    }
  }

  ghost predicate OnlyDashes(s: string) {
    forall i :: 0 <= i < |s| ==> s[i] == '-'
  }

  lemma {:induction false} StripDashesIs(s: string) returns (dashes: string)
    ensures s == StripDashes(s) + dashes && OnlyDashes(dashes)
  {
    if s != "" && Last(s) == '-' {
      var rest := StripDashesIs(Front(s));
      dashes := rest + "-";
      assert s == Front(s) + "-";
    } else {
      dashes := "";
    }
  }

  /** Whatever is parsed is a report name: prefix, track, dash, known label, dashes if any, and eight
      hexadecimal digits, with the extension or without; of the known labels no earlier one fits. */
  lemma {:induction false} ParsedNameIs(filename: string, labels: seq<string>) returns (dashes: string)
    requires Parse(filename, labels).Some?
    ensures var n := Parse(filename, labels).value;
      var stem := "plan-gate-" + (n.track + "-" + n.seat + dashes + n.hash);
      && (filename == stem || filename == stem + ".md")
      && OnlyDashes(dashes) && n.track != "" && EightHex(n.hash)
      && exists i :: && 0 <= i < |labels| && labels[i] == n.seat
                     && forall j :: 0 <= j < i ==> !EndsWith(n.track + "-" + n.seat, "-" + labels[j])
  {
    var n := Parse(filename, labels).value;
    var cut := CutHash(filename, REPORT_PREFIX).value;
    dashes := CutShape(filename, REPORT_PREFIX);
    HashIff(n.hash);
    var i := FirstMatch(labels, cut.0);
    assert cut.0 == n.track + "-" + n.seat;
    assert labels[i] == n.seat;
  }

  lemma {:induction false} CutShape(filename: string, prefix: string) returns (dashes: string)
    requires CutHash(filename, prefix).Some?
    ensures var cut := CutHash(filename, prefix).value;
      var stem := prefix + (cut.0 + dashes + cut.1);
      (filename == stem || filename == stem + ".md") && OnlyDashes(dashes) && IsHash(cut.1)
  {
    var stem := if EndsWith(filename, EXTENSION) then DropLast(filename, 3) else filename;
    var rest := stem[|prefix|..];
    dashes := StripDashesIs(DropLast(rest, 8));
    assert rest == DropLast(rest, 8) + rest[|rest| - 8..];
    assert stem == prefix + rest;
    assert EndsWith(filename, EXTENSION) ==> filename == stem + ".md";
  }

  lemma {:induction false} ParsedTiebreakIs(filename: string) returns (dashes: string)
    requires ParseTiebreak(filename).Some?
    ensures var n := ParseTiebreak(filename).value;
      var stem := "plan-tiebreak-" + (n.track + dashes + n.hash);
      && (filename == stem || filename == stem + ".md")
      && OnlyDashes(dashes) && n.track != "" && Last(n.track) != '-' && EightHex(n.hash)
  {
    dashes := CutShape(filename, TIEBREAK_PREFIX);
    HashIff(ParseTiebreak(filename).value.hash);
  }

  // ------------------------------------------------------------------------------------------
  // Round trips
  // ------------------------------------------------------------------------------------------

  /** The name the panel gives a seat's report. */
  function NameOf(n: Name): string {
    REPORT_PREFIX + (n.track + "-" + n.seat + "-" + n.hash) + EXTENSION
  }

  function TiebreakNameOf(n: TiebreakName): string {
    TIEBREAK_PREFIX + (n.track + "-" + n.hash) + EXTENSION
  }

  /** The cut recovers track and label as one string, with the dashes at its end stripped. */
  lemma {:induction false} CutOfName(n: Name)
    requires IsHash(n.hash)
    ensures CutHash(NameOf(n), REPORT_PREFIX) == Some((StripDashes(n.track + "-" + n.seat + "-"), n.hash))
  {
  }

  /** The known labels, longest first, as the parser sorts them. */
  ghost predicate LongestFirst(labels: seq<string>) {
    forall i, j :: 0 <= i < j < |labels| ==> |labels[i]| >= |labels[j]|
  }

  ghost predicate RoundTrips(n: Name, labels: seq<string>) {
    Parse(NameOf(n), labels) == Some(n)
  }

  /** A label the parser can return is not empty and does not end in a dash. */
  ghost predicate Clean(seat: string) {
    seat != "" && Last(seat) != '-'
  }

  lemma {:induction false} ParsedLabelIsClean(filename: string, labels: seq<string>)
    ensures Parse(filename, labels).Some? ==> Clean(Parse(filename, labels).value.seat)
  {
  }

  /** Two labels that both end the same string: the longer one ends in "-" and the shorter. */
  lemma {:induction false} LongerLabelEndsInShorter(s: string, long: string, short: string)
    requires Matches(s, long) && Matches(s, short) && |long| >= |short|
    ensures long == short || EndsWith(long, "-" + short)
  {
    var n := |s|;
    assert s[n - |long| - 1..] == "-" + long && s[n - |short| - 1..] == "-" + short;
    if |long| == |short| {
      assert ("-" + long)[1..] == long && ("-" + short)[1..] == short;
    } else {
      assert long == ("-" + long)[1..] == s[n - |long|..];
      assert long[|long| - |short| - 1..] == s[n - |short| - 1..];
    }
  }

  lemma {:induction false} ParseOfName(n: Name, labels: seq<string>)
    requires IsHash(n.hash) && Clean(n.seat)
    ensures Parse(NameOf(n), labels) == SplitLabel(n.track + ("-" + n.seat), n.hash, labels)
  {
    CutOfName(n);
    StripName(n.track, n.seat);
  }

  lemma {:induction false} StripName(track: string, seat: string)
    requires Clean(seat)
    ensures StripDashes(track + "-" + seat + "-") == track + ("-" + seat) != ""
  {
  }

  lemma {:induction false} FirstMatchAtMost(labels: seq<string>, s: string, seat: string) returns (at: nat)
    requires seat in labels && Matches(s, seat)
    ensures FirstMatch(labels, s) <= at < |labels| && labels[at] == seat
  {
    at :| 0 <= at < |labels| && labels[at] == seat;
  }

  /** With no known label ending in it, a matching label is the first to match. */
  lemma {:induction false} OnlyMatch(labels: seq<string>, s: string, seat: string)
    requires LongestFirst(labels) && seat in labels && Matches(s, seat)
    requires forall l :: l in labels ==> !EndsWith(l, "-" + seat)
    ensures FirstMatch(labels, s) < |labels| && labels[FirstMatch(labels, s)] == seat
  {
    var at := FirstMatchAtMost(labels, s, seat);
    var first := labels[FirstMatch(labels, s)];
    assert first in labels;
    LongerLabelEndsInShorter(s, first, seat);
  }

  /** Enough: a clean known label that no known label ends in comes back with any non-empty track,
      dashes and label-shaped tails included. */
  lemma {:induction false} RoundTripsIfUnambiguous(n: Name, labels: seq<string>)
    requires LongestFirst(labels) && n.seat in labels && IsHash(n.hash) && n.track != ""
    requires Clean(n.seat) && forall l :: l in labels ==> !EndsWith(l, "-" + n.seat)
    ensures RoundTrips(n, labels)
  {
    ParseOfName(n, labels);
    EndsWithAppend(n.track, "-" + n.seat);
    OnlyMatch(labels, n.track + ("-" + n.seat), n.seat);
  }

  lemma {:induction false} SplitSeat(s: string, hash: string, labels: seq<string>, l: string)
    requires LongestFirst(labels) && l in labels && Matches(s, l)
    ensures SplitLabel(s, hash, labels).Some? ==> |SplitLabel(s, hash, labels).value.seat| >= |l|
  {
  }

  /** Necessary: when a known label ends in "-" and the true one, some track is read wrongly. */
  lemma {:induction false} AmbiguousLabelMisreads(seat: string, hash: string, labels: seq<string>, l: string)
    returns (track: string)
    requires LongestFirst(labels) && l in labels && EndsWith(l, "-" + seat)
    requires IsHash(hash) && Clean(seat)
    ensures track != "" && !RoundTrips(Name(track, seat, hash), labels)
  {
    var p := DropLast(l, 1 + |seat|);
    track := "x-" + p;
    assert |l| > |seat| && l == p + ("-" + seat);
    ParseOfName(Name(track, seat, hash), labels);
    ShiftedTrack(p, seat, l);
    SplitSeat(track + ("-" + seat), hash, labels, l);
  }

  lemma {:induction false} ShiftedTrack(p: string, seat: string, l: string)
    requires l == p + ("-" + seat)
    ensures Matches(("x-" + p) + ("-" + seat), l)
  {
  }

  /** The right-anchored parse is unambiguous, as its documentation claims for every track id, exactly
      when the label is clean and no known label ends in "-" followed by it. */
  lemma {:induction false} RoundTripIff(seat: string, hash: string, labels: seq<string>)
    requires LongestFirst(labels) && seat in labels && IsHash(hash)
    ensures (forall track :: track != "" ==> RoundTrips(Name(track, seat, hash), labels)) <==>
            Clean(seat) && forall l :: l in labels ==> !EndsWith(l, "-" + seat)
  {
    if Clean(seat) && forall l :: l in labels ==> !EndsWith(l, "-" + seat) {
      forall track | track != "" ensures RoundTrips(Name(track, seat, hash), labels) {
        RoundTripsIfUnambiguous(Name(track, seat, hash), labels);
      }
    } else if !Clean(seat) {
      ParsedLabelIsClean(NameOf(Name("x", seat, hash)), labels);
      assert !RoundTrips(Name("x", seat, hash), labels);
    } else {
      var l :| l in labels && EndsWith(l, "-" + seat);
      var track := AmbiguousLabelMisreads(seat, hash, labels, l);
    }
  }

  /** The tiebreak form comes back for exactly the tracks that do not end in a dash. */
  lemma {:induction false} TiebreakRoundTripIff(n: TiebreakName)
    requires IsHash(n.hash)
    ensures ParseTiebreak(TiebreakNameOf(n)) == Some(n) <==> n.track != "" && Last(n.track) != '-'
  {
  }

  /** A smallest instance that fails: a dash at the end of a track is lost. */
  lemma {:induction false} TrailingDashIsLost(track: string, hash: string)
    requires IsHash(hash) && track != "" && Last(track) != '-'
    ensures ParseTiebreak(TiebreakNameOf(TiebreakName(track + "-", hash))) == Some(TiebreakName(track, hash))
  {
    var name := track + "-" + "-";
    CutOf(TIEBREAK_PREFIX, name, hash);
    assert (track + "-") + "-" + hash == name + hash;
    assert Front(name) == track + "-" && Front(track + "-") == track;
  }

  lemma {:induction false} CutOf(prefix: string, body: string, hash: string)
    requires IsHash(hash)
    ensures CutHash(prefix + (body + hash) + EXTENSION, prefix) == Some((StripDashes(body), hash))
  {
    var stem := prefix + (body + hash);
    EndsWithAppend(stem, EXTENSION);
    EndsWithAppend(body, hash);
    assert stem[|prefix|..] == body + hash;
  }
}
