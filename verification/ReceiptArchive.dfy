/** Backfilling archived receipts into the central ledger (scripts/backfill_wt_receipts.py). */
module ReceiptArchive {
  import opened Common
  import opened Text

  const CUTOFF_DATE := "20260515"
  const BACKFILLED_FROM := "wt-archive-20260614"
  const MARKER := "backfilled_from"
  const KEY_FIELDS: seq<string> := ["dispatch_id", "cmd_id", "trace_token", "task_id"]

  /** The non-null fields of a receipt as stripped strings, which is how every use reads them. */
  type Record = map<string, string>

  /** JSON and SHA-1: parse gives the object a line holds, if it holds one; mark re-serialises that
      object with the provenance marker set. */
  datatype Codec = Codec(parse: string -> Option<Record>, mark: string -> string, sha1: string -> string)

  /** A marked line parses to the marked object and is one line. */
  ghost predicate MarkLaw(c: Codec) {
    forall raw {:trigger c.mark(raw)} :: c.parse(raw).Some? ==>
      && c.parse(c.mark(raw)) == Some(c.parse(raw).value[MARKER := BACKFILLED_FROM])
      && '\n' !in c.mark(raw) && '\r' !in c.mark(raw)
  }

  ghost predicate BlankLaw(c: Codec) {
    forall raw :: Strip(raw) == "" ==> c.parse(raw).None?
  }

  ghost predicate HashLaw(c: Codec) {
    forall a, b :: c.sha1(a) == c.sha1(b) ==> a == b
  }

  // ------------------------------------------------------------------------------------------
  // Files as text
  // ------------------------------------------------------------------------------------------

  /** The physical lines of a file, without their newlines; a final unterminated line counts. */
  function Lines(s: string): seq<string> {
    if s == [] then []
    else
      var k := FindChar(s, '\n');
      if k == |s| then [s] else [s[..k]] + Lines(s[k + 1..])
  }

  predicate Terminated(s: string) {
    s == [] || Last(s) == '\n'
  }

  function Newlines(s: string): nat {
    if s == [] then 0 else Newlines(Front(s)) + (if Last(s) == '\n' then 1 else 0)
  }

  lemma {:induction false} NewlinesAppend(a: string, b: string)
    ensures Newlines(a + b) == Newlines(a) + Newlines(b)
  {
    if b == [] {
      assert a + b == a;
    } else {
      assert Front(a + b) == a + Front(b) && Last(a + b) == Last(b);
      NewlinesAppend(a, Front(b));
    }
  }

  lemma {:induction false} NoNewlines(s: string)
    requires '\n' !in s
    ensures Newlines(s) == 0
  {
    if s == [] {
    } else {
      NoNewlines(Front(s));
    }
  }

  lemma {:induction false} NewlinesAfterFirst(s: string, k: nat)
    requires k == FindChar(s, '\n') < |s|
    ensures Newlines(s) == 1 + Newlines(s[k + 1..])
  {
    NoNewlines(s[..k]);
    NewlinesAppend(s[..k], ['\n']);
    NewlinesAppend(s[..k] + ['\n'], s[k + 1..]);
    assert s == s[..k] + ['\n'] + s[k + 1..];
    assert Front(['\n']) == [] && Newlines(['\n']) == 1;
  }

  /** The count the verification step uses is the number of physical lines. */
  lemma {:induction false} LinesCounted(s: string)
    ensures |Lines(s)| == Newlines(s) + if Terminated(s) then 0 else 1
  {
    if s == [] {
    } else {
      var k := FindChar(s, '\n');
      if k == |s| {
        NoNewlines(s);
      } else {
        LinesCounted(s[k + 1..]);
        NewlinesAfterFirst(s, k);
        assert s[k + 1..] != [] ==> Last(s[k + 1..]) == Last(s);
      }
    }
  }

  /** `_line_count`: the file is read in chunks of whatever size read() hands out. */
  method LineCount(content: string) returns (count: nat)
    ensures count == |Lines(content)|
  {
    LinesCounted(content);
    count := 0;
    var finalByte := "";
    var pos := 0;
    ghost var done := "";
    while pos < |content|
      invariant pos <= |content| && done == content[..pos]
      invariant count == Newlines(done)
      invariant finalByte == if done == "" then "" else [Last(done)]
    {
      var size :| 0 < size <= |content| - pos;
      var chunk := content[pos..pos + size];
      NewlinesAppend(done, chunk);
      done := done + chunk;
      count := count + Newlines(chunk);
      finalByte := [Last(chunk)];
      pos := pos + size;
    }
    assert done == content;
    if finalByte != "" && finalByte != "\n" {
      count := count + 1;
    }
  }

  /** Writing lines after a separator, if one is needed: each line followed by a newline. */
  function Appended(content: string, lines: seq<string>): string {
    if lines == [] then (if Terminated(content) then content else content + "\n")
    else Appended(content, Front(lines)) + Last(lines) + "\n"
  }

  lemma {:induction false} LinesAt(s: string, k: nat)
    requires k < |s| && s[k] == '\n' && forall i :: 0 <= i < k ==> s[i] != '\n'
    ensures Lines(s) == [s[..k]] + Lines(s[k + 1..])
  {
  }

  lemma {:induction false} TerminatedTail(a: string, n: nat)
    requires Terminated(a) && n <= |a|
    ensures Terminated(a[n..])
  {
  }

  lemma {:induction false} SplitFirstLine(a: string, b: string, k: nat)
    requires k < |a| && a[k] == '\n' && forall i :: 0 <= i < k ==> a[i] != '\n'
    ensures Lines(a) == [a[..k]] + Lines(a[k + 1..])
    ensures Lines(a + b) == [a[..k]] + Lines(a[k + 1..] + b)
  {
    var ab := a + b;
    assert ab[..k] == a[..k] && ab[k + 1..] == a[k + 1..] + b;
    LinesAt(a, k);
    LinesAt(ab, k);
  }

  lemma {:induction false} LinesOfTerminated(a: string, b: string)
    requires Terminated(a)
    ensures Lines(a + b) == Lines(a) + Lines(b)
    decreases |a|
  {
    if a == [] {
      NothingBefore(b);
    } else {
      var k := FindChar(a, '\n');
      assert k < |a|;
      TerminatedTail(a, k + 1);
      SplitFirstLine(a, b, k);
      LinesOfTerminated(a[k + 1..], b);
      Associative([a[..k]], Lines(a[k + 1..]), Lines(b));
    }
  }

  lemma {:induction false} NothingBefore(b: string)
    ensures Lines([] + b) == Lines([]) + Lines(b)
  {
    assert [] + b == b;
  }

  lemma {:induction false} Associative<T>(a: seq<T>, b: seq<T>, c: seq<T>)
    ensures (a + b) + c == a + (b + c)
  {
  }

  lemma {:induction false} LineOfOne(line: string)
    requires '\n' !in line
    ensures Lines(line + "\n") == [line]
  {
    var s := line + "\n";
    assert s[|line|] == '\n' && FindChar(s, '\n') == |line|;
    assert s[..|line|] == line && s[|line| + 1..] == [];
  }

  lemma {:induction false} TailUnterminated(content: string, k: nat)
    requires k < |content| && content[k] == '\n' && !Terminated(content)
    ensures !Terminated(content[k + 1..])
  {
  }

  lemma {:induction false} TerminatingKeepsLines(content: string)
    requires !Terminated(content)
    ensures Lines(content + "\n") == Lines(content)
  {
    var k := FindChar(content, '\n');
    if k == |content| {
      LineOfOne(content);
    } else {
      TailUnterminated(content, k);
      TerminatingKeepsLines(content[k + 1..]);
      SplitFirstLine(content, "\n", k);
    }
  }

  lemma {:induction false} AppendOne(before: string, line: string)
    requires Terminated(before) && '\n' !in line
    ensures Terminated(before + line + "\n") && Lines(before + line + "\n") == Lines(before) + [line]
  {
    LineOfOne(line);
    LinesOfTerminated(before, line + "\n");
    assert before + line + "\n" == before + (line + "\n");
  }

  lemma {:induction false} SeparatorKeepsLines(content: string)
    ensures Terminated(Appended(content, [])) && Lines(Appended(content, [])) == Lines(content) + []
  {
    if !Terminated(content) {
      TerminatingKeepsLines(content);
    }
  }

  /** Appending adds exactly the given physical lines, with or without a final newline before. */
  lemma {:induction false} AppendedLines(content: string, lines: seq<string>)
    requires forall i :: 0 <= i < |lines| ==> '\n' !in lines[i]
    ensures Terminated(Appended(content, lines)) && Lines(Appended(content, lines)) == Lines(content) + lines
  {
    if lines == [] {
      SeparatorKeepsLines(content);
    } else {
      var before, line := Appended(content, Front(lines)), Last(lines);
      AppendedLines(content, Front(lines));
      AppendOne(before, line);
      Regroup(Lines(content), lines);
    }
  }

  lemma {:induction false} Regroup(a: seq<string>, lines: seq<string>)
    requires lines != []
    ensures a + Front(lines) + [Last(lines)] == a + lines
  {
  }

  // ------------------------------------------------------------------------------------------
  // Receipts and their keys
  // ------------------------------------------------------------------------------------------

  datatype ReceiptLine = ReceiptLine(key: string, keyField: Option<string>, raw: string, record: Record)

  function KeyFieldFrom(record: Record, fields: seq<string>): (r: Option<string>)
    ensures r.Some? ==> r.value in record && r.value in fields
  {
    if fields == [] then None
    else if fields[0] in record && record[fields[0]] != "" then Some(fields[0])
    else KeyFieldFrom(record, fields[1..])
  }

  /** `receipt_key_field`: the first of the key fields with a usable value. */
  function KeyField(record: Record): (r: Option<string>)
    ensures r.Some? ==> r.value in record
  {
    KeyFieldFrom(record, KEY_FIELDS)
  }

  /** `receipt_key`. */
  function Key(c: Codec, record: Record, raw: string): string {
    if KeyField(record).Some? then record[KeyField(record).value] else c.sha1(raw)
  }

  /** The record has a value for the field. */
  predicate Usable(record: Record, field: string) {
    field in record && record[field] != ""
  }

  /** The key, spelled out: the first usable identifier, else the hash of the raw line. */
  lemma {:induction false} KeyIs(c: Codec, record: Record, raw: string)
    ensures Key(c, record, raw) ==
            if Usable(record, "dispatch_id") then record["dispatch_id"]
            else if Usable(record, "cmd_id") then record["cmd_id"]
            else if Usable(record, "trace_token") then record["trace_token"]
            else if Usable(record, "task_id") then record["task_id"]
            else c.sha1(raw)
  {
    var f1, f2, f3: seq<string> := KEY_FIELDS[1..], ["trace_token", "task_id"], ["task_id"];
    KeyFieldStep(record, KEY_FIELDS);
    KeyFieldStep(record, f1);
    assert f1[1..] == f2 && f2[1..] == f3 && f3[1..] == [];
    KeyFieldStep(record, f2);
    KeyFieldStep(record, f3);
  }

  lemma {:induction false} KeyFieldStep(record: Record, fields: seq<string>)
    requires fields != []
    ensures KeyFieldFrom(record, fields) ==
            if Usable(record, fields[0]) then Some(fields[0]) else KeyFieldFrom(record, fields[1..])
  {
  }

  function LineOf(c: Codec, record: Record, raw: string): ReceiptLine {
    ReceiptLine(Key(c, record, raw), KeyField(record), raw, record)
  }

  /** `raw_with_newline.rstrip("\r\n")`, the newline being gone already. */
  function Chop(s: string): (r: string)
    ensures r <= s && (r != "" ==> Last(r) != '\r') && forall i :: |r| <= i < |s| ==> s[i] == '\r'
  {
    if s != [] && Last(s) == '\r' then Chop(Front(s)) else s
  }

  /** The receipts among physical lines: blank and unparseable ones are skipped. */
  function Receipts(c: Codec, lines: seq<string>): seq<ReceiptLine> {
    if lines == [] then []
    else
      var raw := Chop(Last(lines));
      Receipts(c, Front(lines)) + (if c.parse(raw).Some? then [LineOf(c, c.parse(raw).value, raw)] else [])
  }

  datatype Ledger = Ledger(receipts: seq<ReceiptLine>, blank: nat, unparseable: nat)

  /** `parse_ledger`: every physical line is a receipt, blank or unparseable. */
  method ParseLedger(c: Codec, content: string) returns (ledger: Ledger)
    requires BlankLaw(c)
    ensures ledger.receipts == Receipts(c, Lines(content))
    ensures |ledger.receipts| + ledger.blank + ledger.unparseable == |Lines(content)|
  {
    var lines := Lines(content);
    ledger := Ledger([], 0, 0);
    var k := 0;
    while k < |lines|
      invariant k <= |lines|
      invariant ledger.receipts == Receipts(c, lines[..k])
      invariant |ledger.receipts| + ledger.blank + ledger.unparseable == k
    {
      PrefixStep(lines, k);
      var raw := Chop(lines[k]);
      if Strip(raw) == "" {
        ledger := ledger.(blank := ledger.blank + 1);
      } else {
        var record := c.parse(raw);
        if record.None? {
          ledger := ledger.(unparseable := ledger.unparseable + 1);
        } else {
          ledger := ledger.(receipts := ledger.receipts + [LineOf(c, record.value, raw)]);
        }
      }
      k := k + 1;
    }
    assert lines[..k] == lines;
  }

  lemma {:induction false} ReceiptsAppend(c: Codec, a: seq<string>, b: seq<string>)
    ensures Receipts(c, a + b) == Receipts(c, a) + Receipts(c, b)
  {
    if b == [] {
      assert a + b == a;
    } else {
      ReceiptsAppend(c, a, Front(b));
      assert Front(a + b) == a + Front(b) && Last(a + b) == Last(b);
    }
  }

  /** A parsed receipt line is determined by its raw text. */
  ghost predicate Parsed(c: Codec, r: ReceiptLine) {
    c.parse(r.raw).Some? && r == LineOf(c, c.parse(r.raw).value, r.raw)
  }

  ghost predicate AllParsed(c: Codec, rs: seq<ReceiptLine>) {
    forall i :: 0 <= i < |rs| ==> Parsed(c, rs[i])
  }

  lemma {:induction false} ReceiptsAreParsed(c: Codec, lines: seq<string>)
    ensures AllParsed(c, Receipts(c, lines))
  {
    if lines == [] {
    } else {
      ReceiptsAreParsed(c, Front(lines));
    }
  }

  // ------------------------------------------------------------------------------------------
  // The plan
  // ------------------------------------------------------------------------------------------

  function RemoveDashes(s: string): string {
    if s == [] then [] else (if s[0] == '-' then [] else [s[0]]) + RemoveDashes(s[1..])
  }

  function Take(s: string, n: nat): string {
    if |s| <= n then s else s[..n]
  }

  /** `_receipt_date`. */
  function ReceiptDate(record: Record): (date: Option<string>)
    ensures date.Some? ==> |date.value| == 8 && AllDigits(date.value)
  {
    var candidate := RemoveDashes(Take(if "timestamp" in record then record["timestamp"] else "", 10));
    if |candidate| == 8 && IsDigits(candidate) then Some(candidate) else None
  }

  /** `_non_date_key_is_not_known_old`. */
  predicate NotKnownOld(group: seq<ReceiptLine>) {
    exists i :: 0 <= i < |group| &&
      (ReceiptDate(group[i].record).None? || StrLess(CUTOFF_DATE, ReceiptDate(group[i].record).value))
  }

  function Group(rs: seq<ReceiptLine>, key: string): seq<ReceiptLine> {
    if rs == [] then []
    else Group(Front(rs), key) + (if Last(rs).key == key then [Last(rs)] else [])
  }

  predicate HasDatePrefix(r: ReceiptLine) {
    r.keyField.Some? && IsDigits(Take(r.key, 8))
  }

  /** The age rule for one receipt, given the archive it is part of. */
  predicate Wanted(archive: seq<ReceiptLine>, r: ReceiptLine) {
    if HasDatePrefix(r) then StrLess(CUTOFF_DATE, Take(r.key, 8)) else NotKnownOld(Group(archive, r.key))
  }

  predicate HasKey(rs: seq<ReceiptLine>, key: string) {
    exists i :: 0 <= i < |rs| && rs[i].key == key
  }

  /** A key is selected when central lacks it and some archive receipt of that key is wanted. */
  ghost predicate Selectable(archive: seq<ReceiptLine>, central: seq<ReceiptLine>, key: string) {
    !HasKey(central, key) && exists i :: 0 <= i < |archive| && archive[i].key == key && Wanted(archive, archive[i])
  }

  function Chosen(rs: seq<ReceiptLine>, keys: seq<string>): seq<ReceiptLine> {
    if rs == [] then []
    else Chosen(Front(rs), keys) + (if Last(rs).key in keys then [Last(rs)] else [])
  }

  datatype Plan = Plan(selected: seq<string>, lines: seq<ReceiptLine>)

  /** The plan lists each selectable key once and appends every archive line of those keys. */
  ghost predicate IsPlan(p: Plan, archive: seq<ReceiptLine>, central: seq<ReceiptLine>) {
    && Distinct(p.selected)
    && (forall key :: key in p.selected <==> Selectable(archive, central, key))
    && p.lines == Chosen(archive, p.selected)
  }

  /** `build_plan`. */
  method BuildPlan(archive: seq<ReceiptLine>, central: seq<ReceiptLine>) returns (p: Plan)
    ensures IsPlan(p, archive, central) && PlansNew(p, archive, central)
  {
    var selected: seq<string> := [];
    var k := 0;
    while k < |archive|
      invariant k <= |archive|
      invariant Distinct(selected)
      invariant forall key :: key in selected <==>
                  !HasKey(central, key) && exists i ::
                      0 <= i < k && archive[i].key == key && Wanted(archive, archive[i])
    {
      var receipt := archive[k];
      if !HasKey(central, receipt.key) && receipt.key !in selected && Wanted(archive, receipt) {
        selected := selected + [receipt.key];
      }
      k := k + 1;
    }
    var lines: seq<ReceiptLine> := [];
    k := 0;
    while k < |archive|
      invariant k <= |archive|
      invariant lines == Chosen(archive[..k], selected)
    {
      PrefixStep(archive, k);
      if archive[k].key in selected {
        lines := lines + [archive[k]];
      }
      k := k + 1;
    }
    assert archive[..k] == archive;
    p := Plan(selected, lines);
    PlanIs(p, archive, central);
  }

  // What a plan is, said in numbers

  /** The date of the timestamp: YYYY-MM-DD, whatever follows, is YYYYMMDD. */
  lemma {:induction false} DateOfTimestamp(record: Record, y: string, m: string, d: string, rest: string)
    requires |y| == 4 && |m| == 2 && |d| == 2 && AllDigits(y) && AllDigits(m) && AllDigits(d)
    requires "timestamp" in record && record["timestamp"] == y + "-" + m + "-" + d + rest
    ensures ReceiptDate(record) == Some(y + m + d)
  {
    var ten := y + "-" + m + "-" + d;
    assert Take(ten + rest, 10) == ten;
    assert ten + rest == record["timestamp"];
    RemovesDashes(y + "-" + m + "-", d);
    RemovesDashes(y + "-" + m, "-");
    RemovesDashes(y + "-", m);
    RemovesDashes(y, "-");
    DigitsHaveNoDashes(y);
    DigitsHaveNoDashes(m);
    DigitsHaveNoDashes(d);
    assert y + [] == y && y + m + [] == y + m;
  }

  lemma {:induction false} RemovesDashes(a: string, b: string)
    ensures RemoveDashes(a + b) == RemoveDashes(a) + RemoveDashes(b)
    ensures RemoveDashes("-") == ""
  {
    assert RemoveDashes("-"[1..]) == "";
    if a == [] {
      assert a + b == b;
    } else {
      RemovesDashes(a[1..], b);
      assert (a + b)[1..] == a[1..] + b;
    }
  }

  lemma {:induction false} NoTimestampNoDate(record: Record)
    requires "timestamp" !in record
    ensures ReceiptDate(record).None?
  {
    assert Take("", 10) == "" && RemoveDashes("") == "";
  }

  /** No date, or one after the cutoff of 15 May 2026. */
  predicate NewByDate(r: ReceiptLine) {
    match ReceiptDate(r.record)
    case None => true
    case Some(date) => NumberOf(date) > 20260515
  }

  ghost predicate SomeNew(archive: seq<ReceiptLine>, key: string) {
    exists i :: 0 <= i < |archive| && archive[i].key == key && NewByDate(archive[i])
  }

  lemma {:induction false} CutoffIsDate()
    ensures |CUTOFF_DATE| == 8 && AllDigits(CUTOFF_DATE)
  {
  }

  lemma {:induction false} NumberSnoc(s: string, c: char)
    requires AllDigits(s) && '0' <= c <= '9'
    ensures AllDigits(s + [c]) && NumberOf(s + [c]) == 10 * NumberOf(s) + (c as int - '0' as int)
  {
    assert Front(s + [c]) == s;
  }

  lemma {:induction false} CutoffNumber()
    ensures AllDigits(CUTOFF_DATE) && NumberOf(CUTOFF_DATE) == 20260515
  {
    var s := "";
    NumberSnoc(s, '2');
    NumberSnoc(s + ['2'], '0');
    NumberSnoc(s + ['2'] + ['0'], '2');
    NumberSnoc(s + ['2'] + ['0'] + ['2'], '6');
    NumberSnoc(s + ['2'] + ['0'] + ['2'] + ['6'], '0');
    NumberSnoc(s + ['2'] + ['0'] + ['2'] + ['6'] + ['0'], '5');
    NumberSnoc(s + ['2'] + ['0'] + ['2'] + ['6'] + ['0'] + ['5'], '1');
    NumberSnoc(s + ['2'] + ['0'] + ['2'] + ['6'] + ['0'] + ['5'] + ['1'], '5');
    assert CUTOFF_DATE == s + ['2'] + ['0'] + ['2'] + ['6'] + ['0'] + ['5'] + ['1'] + ['5'];
  }

  lemma {:induction false} NewByDateIff(r: ReceiptLine)
    ensures NewByDate(r) <==> ReceiptDate(r.record).None? || StrLess(CUTOFF_DATE, ReceiptDate(r.record).value)
  {
    CutoffIsDate();
    CutoffNumber();
    if ReceiptDate(r.record).Some? {
      StrLessIsNumeric(CUTOFF_DATE, ReceiptDate(r.record).value);
    }
  }

  ghost function WithKey(key: string): ReceiptLine -> bool {
    (r: ReceiptLine) => r.key == key
  }

  lemma {:induction false} GroupIs(rs: seq<ReceiptLine>, key: string)
    ensures Group(rs, key) == Filter(rs, WithKey(key), Itself)
  {
    if rs == [] {
    } else {
      GroupIs(Front(rs), key);
    }
  }

  lemma {:induction false} NotKnownOldIff(archive: seq<ReceiptLine>, key: string)
    ensures NotKnownOld(Group(archive, key)) <==> SomeNew(archive, key)
  {
    var group := Group(archive, key);
    GroupIs(archive, key);
    FilterMembers<ReceiptLine, ReceiptLine>(archive, WithKey(key), Itself);
    if NotKnownOld(group) {
      var i :| 0 <= i < |group|
        && (ReceiptDate(group[i].record).None? || StrLess(CUTOFF_DATE, ReceiptDate(group[i].record).value));
      NewByDateIff(group[i]);
      assert group[i] in group;
    }
    if SomeNew(archive, key) {
      var k :| 0 <= k < |archive| && archive[k].key == key && NewByDate(archive[k]);
      assert WithKey(key)(archive[k]) && archive[k] in group;
      var i :| 0 <= i < |group| && group[i] == archive[k];
      NewByDateIff(group[i]);
    }
  }

  /** The age rule in numbers: an identifier of digits goes by its first eight, or all it has, against as many
      of the cutoff; any other key by the dates of the receipts that share it. */
  ghost predicate CountsAsNew(archive: seq<ReceiptLine>, r: ReceiptLine) {
    if r.keyField.Some? && |r.key| >= 8 && AllDigits(r.key[..8]) then NumberOf(r.key[..8]) > 20260515
    else if r.keyField.Some? && 0 < |r.key| < 8 && AllDigits(r.key)
    then NumberOf(r.key) > NumberOf("20260515"[..|r.key|])
    else SomeNew(archive, r.key)
  }

  lemma {:induction false} WantedIff(archive: seq<ReceiptLine>, r: ReceiptLine)
    ensures Wanted(archive, r) <==> CountsAsNew(archive, r)
  {
    CutoffIsDate();
    CutoffNumber();
    NotKnownOldIff(archive, r.key);
    if r.keyField.Some? && |r.key| >= 8 && AllDigits(r.key[..8]) {
      assert Take(r.key, 8) == r.key[..8];
      StrLessIsNumeric(CUTOFF_DATE, r.key[..8]);
    } else if r.keyField.Some? && 0 < |r.key| < 8 && AllDigits(r.key) {
      StrLessOfShorter(CUTOFF_DATE, r.key);
      StrLessIsNumeric(CUTOFF_DATE[..|r.key|], r.key);
    }
  }

  ghost function AmongKeys(keys: seq<string>): ReceiptLine -> bool {
    (r: ReceiptLine) => r.key in keys
  }

  /** The plan's lines are the archive's lines of the selected keys, in archive order. */
  lemma {:induction false} ChosenInOrder(rs: seq<ReceiptLine>, keys: seq<string>)
    ensures Chosen(rs, keys) == Filter(rs, AmongKeys(keys), Itself)
  {
    if rs == [] {
    } else {
      ChosenInOrder(Front(rs), keys);
    }
  }

  /** A plan selects a key exactly when no receipt of central has it and some receipt of the archive has it
      and counts as new. */
  ghost predicate PlansNew(p: Plan, archive: seq<ReceiptLine>, central: seq<ReceiptLine>) {
    && (forall key :: key in p.selected <==>
          && (forall i :: 0 <= i < |central| ==> central[i].key != key)
          && exists i :: 0 <= i < |archive| && archive[i].key == key && CountsAsNew(archive, archive[i]))
    && p.lines == Filter(archive, AmongKeys(p.selected), Itself)
  }

  lemma {:induction false} PlanIs(p: Plan, archive: seq<ReceiptLine>, central: seq<ReceiptLine>)
    requires IsPlan(p, archive, central)
    ensures PlansNew(p, archive, central)
  {
    ChosenInOrder(archive, p.selected);
    forall i | 0 <= i < |archive| ensures Wanted(archive, archive[i]) <==> CountsAsNew(archive, archive[i]) {
      WantedIff(archive, archive[i]);
    }
  }

  lemma {:induction false} ChosenMembers(rs: seq<ReceiptLine>, keys: seq<string>)
    ensures forall r :: r in Chosen(rs, keys) <==> r in rs && r.key in keys
  {
    if rs == [] {
    } else {
      ChosenMembers(Front(rs), keys);
      assert rs == Front(rs) + [Last(rs)];
    }
  }

  /** The plan holds whole groups: every archive line of a selected key, no line of another key, and
      no key that central already has. */
  lemma {:induction false} PlanHoldsWholeGroups(p: Plan, archive: seq<ReceiptLine>, central: seq<ReceiptLine>)
    requires IsPlan(p, archive, central)
    ensures forall r :: r in p.lines <==> r in archive && Selectable(archive, central, r.key)
    ensures forall i :: 0 <= i < |p.lines| ==> !HasKey(central, p.lines[i].key)
  {
    ChosenMembers(archive, p.selected);
    forall i | 0 <= i < |p.lines| ensures !HasKey(central, p.lines[i].key) {
      assert p.lines[i] in p.lines;
    }
  }

  // Dates and short numbers

  /** An identifier that begins with a date. */
  predicate IsDateId(r: ReceiptLine) {
    r.keyField.Some? && |r.key| >= 8 && IsDigits(Take(r.key, 8))
  }

  predicate IsShortNumber(r: ReceiptLine) {
    r.keyField.Some? && |r.key| < 8 && IsDigits(r.key)
  }

  /** The age rule as documented: an identifier that begins with a date goes by that date, any other is kept
      unless the timestamps of its receipts prove it old. */
  ghost predicate Documented(archive: seq<ReceiptLine>, r: ReceiptLine) {
    if IsDateId(r) then NumberOf(Take(r.key, 8)) > 20260515 else SomeNew(archive, r.key)
  }

  /** The number is above the one that as many digits of the cutoff date make. */
  predicate AboveCutoffDigits(r: ReceiptLine)
    requires IsShortNumber(r)
  {
    NumberOf(r.key) > NumberOf(Take(CUTOFF_DATE, |r.key|))
  }

  /** A numeric identifier shorter than a date is judged by its digits alone, against as many digits of the
      cutoff: "3" always counts as new and "2" never, whatever the timestamps. */
  lemma {:induction false} ShortNumbersAreDates(archive: seq<ReceiptLine>, r: ReceiptLine)
    requires IsShortNumber(r)
    ensures Wanted(archive, r) <==> AboveCutoffDigits(r)
  {
    CutoffIsDate();
    StrLessOfShorter(CUTOFF_DATE, r.key);
    StrLessIsNumeric(Take(CUTOFF_DATE, |r.key|), r.key);
  }

  /** For every receipt: the code decides by the documented rule unless the identifier is a number of fewer
      than eight digits whose digits and timestamps disagree. */
  lemma {:induction false} AgeRuleIff(archive: seq<ReceiptLine>, r: ReceiptLine)
    ensures (Wanted(archive, r) <==> Documented(archive, r)) <==>
            (IsShortNumber(r) ==> (AboveCutoffDigits(r) <==> SomeNew(archive, r.key)))
  {
    NotKnownOldIff(archive, r.key);
    if IsShortNumber(r) {
      ShortNumbersAreDates(archive, r);
    } else if IsDateId(r) {
      CutoffIsDate();
      CutoffNumber();
      StrLessIsNumeric(CUTOFF_DATE, Take(r.key, 8));
    }
  }

  lemma {:induction false} DigitsHaveNoDashes(s: string)
    requires AllDigits(s)
    ensures RemoveDashes(s) == s
  {
    if s == [] {
    } else {
      DigitsHaveNoDashes(s[1..]);
      assert s == [s[0]] + s[1..];
    }
  }

  lemma {:induction false} GroupOfOne(r: ReceiptLine)
    ensures Group([r], r.key) == [r]
  {
    assert Front([r]) == [] && Group([r], r.key) == [] + [r];
  }

  lemma {:induction false} CutoffDateIsOld(r: ReceiptLine)
    requires "timestamp" in r.record && r.record["timestamp"] == CUTOFF_DATE
    ensures !NotKnownOld([r])
  {
    CutoffIsDate();
    DigitsHaveNoDashes(CUTOFF_DATE);
    StrLessTotal(CUTOFF_DATE, CUTOFF_DATE);
    assert ReceiptDate(r.record) == Some(CUTOFF_DATE);
  }

  /** A smallest instance that fails: "3" counts as new, though its timestamp, the cutoff date, proves it
      old. */
  lemma {:induction false} OldShortNumberIsKept(raw: string)
    ensures var r := ReceiptLine("3", Some("dispatch_id"), raw, map["dispatch_id" := "3", "timestamp" := CUTOFF_DATE]);
      Wanted([r], r) && !Documented([r], r)
  {
    var r := ReceiptLine("3", Some("dispatch_id"), raw, map["dispatch_id" := "3", "timestamp" := CUTOFF_DATE]);
    GroupOfOne(r);
    CutoffDateIsOld(r);
    NotKnownOldIff([r], "3");
    ThreeIsAbove();
    ShortNumbersAreDates([r], r);
  }

  lemma {:induction false} ThreeIsAbove()
    ensures NumberOf("3") > NumberOf(Take(CUTOFF_DATE, 1))
  {
    assert Take(CUTOFF_DATE, 1) == "2" && Front("2") == "" && Front("3") == "";
  }

  // ------------------------------------------------------------------------------------------
  // Applying the plan
  // ------------------------------------------------------------------------------------------

  /** `_render_backfilled_line`: verbatim only when the line does not parse. */
  function Render(c: Codec, raw: string): (string, bool) {
    if c.parse(raw).None? then (raw, true) else (c.mark(raw), false)
  }

  function Rendered(c: Codec, rs: seq<ReceiptLine>): (r: seq<string>)
    ensures |r| == |rs| && forall i :: 0 <= i < |rs| ==> r[i] == c.mark(rs[i].raw)
  {
    seq(|rs|, i requires 0 <= i < |rs| => c.mark(rs[i].raw))
  }

  /** The ledger file after a plan has been applied. */
  function AfterApply(c: Codec, central: string, p: Plan): string {
    if p.lines == [] then central else Appended(central, Rendered(c, p.lines))
  }

  datatype ApplyError = BackupExists | LineCountMismatch(expected: int, found: int)

  datatype ApplyResult = ApplyResult(appended: nat, verbatim: nat, oldLines: nat, newLines: nat)

  class CentralLedger {
    var content: string

    constructor (content: string)
      ensures this.content == content
    {
      this.content := content;
    }

    /** `apply_plan`: the count check after the append never fails, and no line is verbatim. */
    method ApplyPlan(c: Codec, p: Plan, backupExists: bool) returns (r: Result<ApplyResult, ApplyError>)
      requires MarkLaw(c) && AllParsed(c, p.lines)
      modifies this
      ensures r.Err? <==> p.lines != [] && backupExists
      ensures r.Err? ==> r.error == BackupExists && content == old(content)
      ensures r.Ok? ==>
                && content == AfterApply(c, old(content), p)
                && r.value == ApplyResult(|p.lines|, 0, |Lines(old(content))|, |Lines(old(content))| + |p.lines|)
                && |Lines(content)| == r.value.newLines
    {
      var oldCount := LineCount(content);
      if |p.lines| == 0 {
        return Ok(ApplyResult(0, 0, oldCount, oldCount));
      }
      if backupExists {
        return Err(BackupExists);
      }
      ghost var was := content;
      if !Terminated(content) {
        content := content + "\n";
      }
      var verbatim := AppendRendered(c, p.lines, was);
      MarkedLinesAreLines(c, p.lines);
      AppendedLines(was, Rendered(c, p.lines));
      var newCount := LineCount(content);
      if newCount != oldCount + |p.lines| {
        r := Err(LineCountMismatch(oldCount + |p.lines|, newCount));
      } else {
        r := Ok(ApplyResult(|p.lines|, verbatim, oldCount, newCount));
      }
    }

    method AppendRendered(c: Codec, lines: seq<ReceiptLine>, ghost was: string) returns (verbatim: nat)
      requires AllParsed(c, lines) && content == Appended(was, [])
      modifies this
      ensures content == Appended(was, Rendered(c, lines)) && verbatim == 0
    {
      verbatim := 0;
      var k := 0;
      while k < |lines|
        invariant k <= |lines|
        invariant content == Appended(was, Rendered(c, lines[..k]))
        invariant verbatim == 0
      {
        RenderedStep(c, lines, k);
        var (rendered, isVerbatim) := Render(c, lines[k].raw);
        content := content + rendered;
        content := content + "\n";
        verbatim := verbatim + (if isVerbatim then 1 else 0);
        k := k + 1;
      }
      assert lines[..k] == lines;
    }
  }

  lemma {:induction false} RenderedStep(c: Codec, lines: seq<ReceiptLine>, k: nat)
    requires AllParsed(c, lines) && k < |lines|
    ensures Parsed(c, lines[k])
    ensures var r := Rendered(c, lines[..k + 1]);
      Front(r) == Rendered(c, lines[..k]) && Last(r) == Render(c, lines[k].raw).0
  {
  }

  lemma {:induction false} MarkedLinesAreLines(c: Codec, lines: seq<ReceiptLine>)
    requires MarkLaw(c) && AllParsed(c, lines)
    ensures forall i :: 0 <= i < |lines| ==> '\n' !in Rendered(c, lines)[i]
  {
  }

  // ------------------------------------------------------------------------------------------
  // Planning again
  // ------------------------------------------------------------------------------------------

  /** The key under which an appended line is found next time: an identifier survives marking, a
      SHA-1 fallback is taken over the marked text. */
  function MarkedKey(c: Codec, r: ReceiptLine): string {
    if r.keyField.Some? then r.key else c.sha1(c.mark(r.raw))
  }

  lemma {:induction false} KeyFieldIgnoresMarker(record: Record, fields: seq<string>)
    requires MARKER !in fields
    ensures KeyFieldFrom(record[MARKER := BACKFILLED_FROM], fields) == KeyFieldFrom(record, fields)
  {
    if fields == [] {
    } else {
      KeyFieldIgnoresMarker(record, fields[1..]);
    }
  }

  lemma {:induction false} MarkerIsNoKey()
    ensures MARKER !in KEY_FIELDS
  {
  }

  lemma {:induction false} ChopNothing(s: string)
    requires '\r' !in s
    ensures Chop(s) == s
  {
  }

  lemma {:induction false} MarkedLineKey(c: Codec, r: ReceiptLine)
    requires MarkLaw(c) && Parsed(c, r)
    ensures var raw := c.mark(r.raw);
      Chop(raw) == raw && c.parse(raw).Some? && Key(c, c.parse(raw).value, raw) == MarkedKey(c, r)
  {
    var raw := c.mark(r.raw);
    ChopNothing(raw);
    MarkerIsNoKey();
    KeyFieldIgnoresMarker(r.record, KEY_FIELDS);
  }

  /** line is receipt r as it is read back after the append. */
  ghost predicate IsMarked(c: Codec, line: ReceiptLine, r: ReceiptLine) {
    line.key == MarkedKey(c, r) && line.record == r.record[MARKER := BACKFILLED_FROM]
  }

  lemma {:induction false} MarkedLast(c: Codec, lines: seq<string>, r: ReceiptLine)
    requires MarkLaw(c) && Parsed(c, r) && lines != [] && Last(lines) == c.mark(r.raw)
    ensures exists line :: Receipts(c, lines) == Receipts(c, Front(lines)) + [line] && IsMarked(c, line, r)
  {
    MarkedLineKey(c, r);
    var raw := c.mark(r.raw);
    assert Receipts(c, lines) == Receipts(c, Front(lines)) + [LineOf(c, c.parse(raw).value, raw)];
  }

  lemma {:induction false} MarkedReceipts(c: Codec, rs: seq<ReceiptLine>)
    requires MarkLaw(c) && AllParsed(c, rs)
    ensures var marked := Receipts(c, Rendered(c, rs));
      |marked| == |rs| && forall i :: 0 <= i < |rs| ==> IsMarked(c, marked[i], rs[i])
  {
    if rs == [] {
    } else {
      MarkedReceipts(c, Front(rs));
      var lines := Rendered(c, rs);
      assert Front(lines) == Rendered(c, Front(rs));
      MarkedLast(c, lines, Last(rs));
      assert forall i :: 0 <= i < |rs| - 1 ==> Front(rs)[i] == rs[i];
    }
  }

  /** The receipts of a file. */
  function ReceiptsOf(c: Codec, text: string): seq<ReceiptLine> {
    Receipts(c, Lines(text))
  }

  lemma {:induction false} CentralAfter(c: Codec, content: string, p: Plan)
    requires MarkLaw(c) && AllParsed(c, p.lines)
    ensures ReceiptsOf(c, AfterApply(c, content, p)) == ReceiptsOf(c, content) + Receipts(c, Rendered(c, p.lines))
  {
    if p.lines == [] {
      assert ReceiptsOf(c, content) + [] == ReceiptsOf(c, content);
    } else {
      MarkedLinesAreLines(c, p.lines);
      AppendedLines(content, Rendered(c, p.lines));
      ReceiptsAppend(c, Lines(content), Rendered(c, p.lines));
    }
  }

  /** Append-only, and nothing lost: read back, central is what it was, followed by every planned receipt
      in plan order with all its fields and the provenance marker. */
  lemma {:induction false} AppendedReceipts(c: Codec, content: string, p: Plan)
    requires MarkLaw(c) && AllParsed(c, p.lines)
    ensures var before, after := ReceiptsOf(c, content), ReceiptsOf(c, AfterApply(c, content, p));
      && before <= after && |after| == |before| + |p.lines|
      && forall i :: 0 <= i < |p.lines| ==> IsMarked(c, after[|before| + i], p.lines[i])
  {
    CentralAfter(c, content, p);
    MarkedReceipts(c, p.lines);
    Suffix(ReceiptsOf(c, content), Receipts(c, Rendered(c, p.lines)));
  }

  lemma {:induction false} Suffix<T>(a: seq<T>, b: seq<T>)
    ensures a <= a + b && |a + b| == |a| + |b|
    ensures forall i :: 0 <= i < |b| ==> (a + b)[|a| + i] == b[i]
  {
  }

  ghost predicate Reappears(c: Codec, p: Plan, key: string) {
    exists i :: 0 <= i < |p.lines| && MarkedKey(c, p.lines[i]) == key
  }

  /** After the append, central has the keys it had and the marked keys of the appended lines. */
  lemma {:induction false} CentralKeysAfter(c: Codec, content: string, p: Plan, key: string)
    requires MarkLaw(c) && AllParsed(c, p.lines)
    ensures HasKey(ReceiptsOf(c, AfterApply(c, content, p)), key) <==>
            HasKey(ReceiptsOf(c, content), key) || Reappears(c, p, key)
  {
    CentralAfter(c, content, p);
    MarkedReceipts(c, p.lines);
    var a, b := ReceiptsOf(c, content), Receipts(c, Rendered(c, p.lines));
    HasKeyAppend(a, b, key);
    if Reappears(c, p, key) {
      var i :| 0 <= i < |p.lines| && MarkedKey(c, p.lines[i]) == key;
      assert b[i].key == key;
    }
  }

  lemma {:induction false} HasKeyAppend(a: seq<ReceiptLine>, b: seq<ReceiptLine>, key: string)
    ensures HasKey(a + b, key) <==> HasKey(a, key) || HasKey(b, key)
  {
    var all := a + b;
    assert forall i :: 0 <= i < |a| ==> all[i] == a[i];
    assert forall i :: 0 <= i < |b| ==> all[|a| + i] == b[i];
    assert forall i :: |a| <= i < |all| ==> all[i] == b[i - |a|];
  }

  /** p is what is planned for two files. */
  ghost predicate PlansFor(p: Plan, c: Codec, archive: string, central: string) {
    IsPlan(p, ReceiptsOf(c, archive), ReceiptsOf(c, central))
  }

  lemma {:induction false} PlanIsParsed(p: Plan, c: Codec, archive: string, central: string)
    requires PlansFor(p, c, archive, central)
    ensures AllParsed(c, p.lines)
  {
    ReceiptsAreParsed(c, Lines(archive));
    PlanHoldsWholeGroups(p, ReceiptsOf(c, archive), ReceiptsOf(c, central));
    forall i | 0 <= i < |p.lines| ensures Parsed(c, p.lines[i]) {
      assert p.lines[i] in p.lines;
    }
  }

  /** For any two files: a second plan selects exactly the keys of the first that do not reappear in central. */
  lemma {:induction false} ReplanSelects(c: Codec, archive: string, central: string, p: Plan, q: Plan)
    requires MarkLaw(c)
    requires PlansFor(p, c, archive, central) && PlansFor(q, c, archive, AfterApply(c, central, p))
    ensures AllParsed(c, p.lines)
    ensures forall key :: key in q.selected <==> key in p.selected && !Reappears(c, p, key)
  {
    PlanIsParsed(p, c, archive, central);
    forall key ensures key in q.selected <==> key in p.selected && !Reappears(c, p, key) {
      CentralKeysAfter(c, central, p, key);
    }
  }

  /** So no receipt with an identifier is ever planned twice. */
  lemma {:induction false} IdentifiersAreNotReplanned(c: Codec, archive: string, central: string, p: Plan, q: Plan,
                                                      r: ReceiptLine)
    requires MarkLaw(c)
    requires PlansFor(p, c, archive, central) && PlansFor(q, c, archive, AfterApply(c, central, p))
    requires r in ReceiptsOf(c, archive) && r.keyField.Some?
    ensures r.key !in q.selected
  {
    ReplanSelects(c, archive, central, p, q);
    if r.key in p.selected {
      PlanHoldsWholeGroups(p, ReceiptsOf(c, archive), ReceiptsOf(c, central));
      assert r in p.lines;
      var i :| 0 <= i < |p.lines| && p.lines[i] == r;
      assert MarkedKey(c, p.lines[i]) == r.key;
    }
  }

  /** Line k's key comes back from the append: an appended identifier equals it, or marking an
      appended fallback line gives the very text it was hashed from. */
  ghost predicate Recovered(c: Codec, p: Plan, k: nat)
    requires k < |p.lines|
  {
    exists i :: 0 <= i < |p.lines| && ReturnsAs(c, p.lines[i], p.lines[k])
  }

  predicate ReturnsAs(c: Codec, r: ReceiptLine, line: ReceiptLine) {
    if r.keyField.Some? then r.key == line.key else c.mark(r.raw) == line.raw
  }

  lemma {:induction false} ReappearsIsRecovered(c: Codec, p: Plan, k: nat)
    requires HashLaw(c) && AllParsed(c, p.lines) && k < |p.lines| && p.lines[k].keyField.None?
    ensures Reappears(c, p, p.lines[k].key) <==> Recovered(c, p, k)
  {
  }

  lemma {:induction false} SelectedHasLine(p: Plan, archive: seq<ReceiptLine>, central: seq<ReceiptLine>,
                                           key: string) returns (k: nat)
    requires IsPlan(p, archive, central) && key in p.selected
    ensures k < |p.lines| && p.lines[k].key == key
  {
    var a :| 0 <= a < |archive| && archive[a].key == key && Wanted(archive, archive[a]);
    ChosenMembers(archive, p.selected);
    assert archive[a] in p.lines;
    k :| 0 <= k < |p.lines| && p.lines[k] == archive[a];
  }

  /** For any two files: the tool is idempotent, as it is meant to be, exactly when every SHA-1 fallback line
      it appended is recovered; otherwise that line is planned, and appended, again. */
  lemma {:induction false} ReplanIsEmptyIff(c: Codec, archive: string, central: string, p: Plan, q: Plan)
    requires MarkLaw(c) && HashLaw(c)
    requires PlansFor(p, c, archive, central) && PlansFor(q, c, archive, AfterApply(c, central, p))
    ensures q.selected == [] <==> forall k :: 0 <= k < |p.lines| && p.lines[k].keyField.None? ==> Recovered(c, p, k)
  {
    ReplanSelects(c, archive, central, p, q);
    forall k | 0 <= k < |p.lines| && p.lines[k].keyField.Some? ensures Reappears(c, p, p.lines[k].key) {
      assert MarkedKey(c, p.lines[k]) == p.lines[k].key;
    }
    if q.selected == [] {
      ChosenMembers(ReceiptsOf(c, archive), p.selected);
      forall k | 0 <= k < |p.lines| && p.lines[k].keyField.None? ensures Recovered(c, p, k) {
        assert p.lines[k] in p.lines && p.lines[k].key !in q.selected;
        ReappearsIsRecovered(c, p, k);
      }
    } else {
      var key := q.selected[0];
      assert key in q.selected;
      var k := SelectedHasLine(p, ReceiptsOf(c, archive), ReceiptsOf(c, central), key);
      if p.lines[k].keyField.None? {
        ReappearsIsRecovered(c, p, k);
      }
    }
  }

  // An archive that is planned twice

  lemma {:induction false} NoKeyField(record: Record, fields: seq<string>)
    requires forall i :: 0 <= i < |fields| ==> fields[i] !in record
    ensures KeyFieldFrom(record, fields) == None
  {
    if fields == [] {
    } else {
      NoKeyField(record, fields[1..]);
    }
  }

  /** line holds a receipt without identifier and timestamp, and is not its own marked form. */
  ghost predicate IsFallbackLine(c: Codec, line: string) {
    && '\n' !in line && '\r' !in line && c.parse(line).Some? && c.mark(line) != line
    && (forall i :: 0 <= i < |KEY_FIELDS| ==> KEY_FIELDS[i] !in c.parse(line).value)
    && "timestamp" !in c.parse(line).value
  }

  function FallbackReceipt(c: Codec, line: string): ReceiptLine
    requires c.parse(line).Some?
  {
    ReceiptLine(c.sha1(line), None, line, c.parse(line).value)
  }

  lemma {:induction false} ReceiptsOfOneLine(c: Codec, line: string)
    requires IsFallbackLine(c, line)
    ensures ReceiptsOf(c, line + "\n") == [FallbackReceipt(c, line)]
  {
    LineOfOne(line);
    ChopNothing(line);
    NoKeyField(c.parse(line).value, KEY_FIELDS);
    assert Front([line]) == [] && Receipts(c, []) == [] && Last([line]) == line;
    assert Receipts(c, [line]) == [] + [LineOf(c, c.parse(line).value, line)];
  }

  lemma {:induction false} UndatedIsSelectable(r: ReceiptLine)
    requires r.keyField.None? && "timestamp" !in r.record
    ensures Selectable([r], [], r.key)
  {
    GroupOfOne(r);
    assert Take("", 10) == "" && RemoveDashes("") == "" && ReceiptDate(r.record).None?;
    assert Group([r], r.key)[0] == r;
    assert [r][0] == r && Wanted([r], r);
  }

  /** Every such line, alone in the archive, is planned, and appended, a second time. */
  lemma {:induction false} FallbackIsReplanned(c: Codec, line: string, p: Plan, q: Plan)
    requires MarkLaw(c) && HashLaw(c) && IsFallbackLine(c, line)
    requires PlansFor(p, c, line + "\n", "") && PlansFor(q, c, line + "\n", AfterApply(c, "", p))
    ensures c.sha1(line) in p.selected && c.sha1(line) in q.selected
  {
    var r := FallbackReceipt(c, line);
    ReceiptsOfOneLine(c, line);
    UndatedIsSelectable(r);
    assert ReceiptsOf(c, "") == [];
    ReplanSelects(c, line + "\n", "", p, q);
    PlanHoldsWholeGroups(p, [r], []);
    forall i | 0 <= i < |p.lines| ensures MarkedKey(c, p.lines[i]) != r.key {
      assert p.lines[i] in p.lines;
    }
  }

  /** A codec that knows one receipt, "a", and its marked form, "b". */
  function OneReceiptCodec(): Codec {
    Codec(
      raw => if raw == "a" then Some(map[]) else if raw == "b" then Some(map[MARKER := BACKFILLED_FROM]) else None,
      raw => "b",
      raw => raw)
  }

  /** The laws leave room for such lines. */
  lemma {:induction false} FallbackLinesExist()
    ensures MarkLaw(OneReceiptCodec()) && BlankLaw(OneReceiptCodec()) && HashLaw(OneReceiptCodec())
    ensures IsFallbackLine(OneReceiptCodec(), "a")
  {
    var empty: Record := map[];
    assert empty[MARKER := BACKFILLED_FROM] == map[MARKER := BACKFILLED_FROM];
    assert map[MARKER := BACKFILLED_FROM][MARKER := BACKFILLED_FROM] == map[MARKER := BACKFILLED_FROM];
    assert Strip("a") == "a" && Strip("b") == "b";
  }
}
