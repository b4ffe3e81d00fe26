/**
 * Election ids: the number id_seq reads out of one, and the id bb_alloc_id hands out
 * (ballotbox/src/libballotbrain/db.c:119-126, ballotbrain.c:53-88).
 */
module BallotIds {
  import opened Decimal
  import opened BallotStore

  const INT_MAX := 0x7fff_ffff
  const INT_MIN := -0x8000_0000
  const LONG_MAX := 0x7fff_ffff_ffff_ffff

  /** Index of the last '-', or -1. */
  function LastDash(s: string): (i: int)
    ensures -1 <= i < |s|
    ensures i >= 0 ==> s[i] == '-'
    ensures forall j :: i < j < |s| ==> s[j] != '-'
  {
    if s == [] then -1
    else if s[|s| - 1] == '-' then |s| - 1
    else LastDash(s[..|s| - 1])
  }

  predicate IsSpace(c: char) {
    c == ' ' || 9 <= c as int <= 13
  }

  function SkipSpaces(s: string): (k: nat)
    ensures k <= |s|
    ensures s != [] && !IsSpace(s[0]) ==> k == 0
  {
    if s == [] || !IsSpace(s[0]) then 0 else 1 + SkipSpaces(s[1..])
  }

  /** Length of the leading run of digits. */
  function DigitRun(s: string): (k: nat)
    ensures k <= |s| && AllDigits(s[..k])
    ensures AllDigits(s) ==> k == |s|
  {
    if s == [] || !IsDigit(s[0]) then 0
    else
      var k := DigitRun(s[1..]);
      assert s[..k + 1] == [s[0]] + s[1..][..k];
      1 + k
  }

  /** strtol in base 10: value and where parsing stopped (0 when there is no number at all). */
  function Strtol(s: string): (r: (int, nat))
    ensures r.1 <= |s|
  {
    var start := SkipSpaces(s);
    var signed := start < |s| && (s[start] == '-' || s[start] == '+');
    var first := if signed then start + 1 else start;
    var run := DigitRun(s[first..]);
    if run == 0 then (0, 0)
    else
      var v := Value(s[first..][..run]);
      var clamped := if v > LONG_MAX then LONG_MAX else v;
      (if signed && s[start] == '-' then -clamped else clamped, first + run)
  }

  /** (int) of a long: keep the low 32 bits, two's complement. */
  function ToInt32(v: int): (n: int)
    ensures INT_MIN <= n <= INT_MAX
    ensures 0 <= v <= INT_MAX ==> n == v
  {
    var low := v % 0x1_0000_0000;
    if low > INT_MAX then low - 0x1_0000_0000 else low
  }

  /** id_seq */
  function IdSeq(id: string): (n: int)
    ensures INT_MIN <= n <= INT_MAX
  {
    var dash := LastDash(id);
    if dash < 0 then 0
    else
      var rest := id[dash + 1..];
      var (v, end) := Strtol(rest);
      if end != |rest| || v < 0 then 0 else ToInt32(v)
  }

  function AutoId(n: int): string {
    "E-" + PrintInt(n)
  }

  /** "E-" followed by an int's decimal carries that number as its sequence number. */
  lemma AutoIdSeq(n: nat)
    requires n <= INT_MAX
    ensures IdSeq(AutoId(n)) == n
  {
    hide Strtol;
    var id, rest := AutoId(n), Print(n);
    assert id[0] == 'E' && id[1] == '-' && id[2..] == rest;
    assert forall j :: 2 <= j < |id| ==> id[j] == rest[j - 2];
    assert LastDash(id) == 1;
    StrtolPrint(n);
  }

  lemma StrtolPrint(n: nat)
    requires n <= LONG_MAX
    ensures Strtol(Print(n)) == (n, |Print(n)|)
  {
    var rest := Print(n);
    assert IsDigit(rest[0]);
    assert rest[0..] == rest && rest[..|rest|] == rest;
    ValuePrint(n);
  }

  /** select max(seq) over a non-empty table. */
  function MaxSeq(rows: seq<ElectionRow>): (m: int)
    requires rows != []
    ensures forall r :: r in rows ==> r.seqNo <= m
    ensures exists r :: r in rows && r.seqNo == m
  {
    if |rows| == 1 then
      assert rows[0] in rows;
      rows[0].seqNo
    else
      var m := MaxSeq(rows[..|rows| - 1]);
      var last := rows[|rows| - 1].seqNo;
      assert forall r :: r in rows ==> r in rows[..|rows| - 1] || r == rows[|rows| - 1];
      assert rows[|rows| - 1] in rows;
      if last > m then last else m
  }

  /** bb_alloc_id; `readOk` is whether its select answered. One past the largest int wraps. */
  function AllocNumber(rows: seq<ElectionRow>, readOk: bool): int {
    if !readOk || rows == [] || MaxSeq(rows) < 0 then 100 else ToInt32(MaxSeq(rows) + 1)
  }

  function AllocId(rows: seq<ElectionRow>, readOk: bool): string {
    AutoId(AllocNumber(rows, readOk))
  }

  /** Every stored row carries the sequence number its id denotes. */
  ghost predicate SeqsFromIds(rows: seq<ElectionRow>) {
    forall r :: r in rows ==> r.seqNo == IdSeq(r.id)
  }

  ghost predicate Taken(rows: seq<ElectionRow>, id: string) {
    exists r :: r in rows && r.id == id
  }

  /** The two ways an automatic id can be one already in use: the read failed and the first id is
      taken, or numbers have run out and the id they wrap to is. */
  ghost predicate IdClash(rows: seq<ElectionRow>, readOk: bool) {
    if readOk then rows != [] && MaxSeq(rows) == INT_MAX && Taken(rows, AutoId(INT_MIN))
    else Taken(rows, AutoId(100))
  }

  /** An allocated id is taken exactly in those two cases. */
  lemma AllocatedIdTakenIff(rows: seq<ElectionRow>, readOk: bool)
    requires SeqsFromIds(rows)
    ensures Taken(rows, AllocId(rows, readOk)) <==> IdClash(rows, readOk)
  {
    hide IdSeq, MaxSeq, PrintInt;
    if readOk && (rows == [] || MaxSeq(rows) < INT_MAX) {
      var n := AllocNumber(rows, true);
      AutoIdSeq(n);
    } else if readOk {
      MaxSeqIsInt(rows);
      assert ToInt32(0x8000_0000) == INT_MIN;
    }
  }

  lemma MaxSeqIsInt(rows: seq<ElectionRow>)
    requires SeqsFromIds(rows) && rows != []
    ensures MaxSeq(rows) <= INT_MAX
  {
    hide IdSeq, MaxSeq;
    var m := MaxSeq(rows);
    var r :| r in rows && r.seqNo == m;
    assert r.seqNo == IdSeq(r.id);
  }

  /** An id allocated from a successful read names no stored election. */
  lemma AllocatedIdIsNew(rows: seq<ElectionRow>, r: ElectionRow)
    requires SeqsFromIds(rows) && (rows != [] ==> MaxSeq(rows) < INT_MAX) && r in rows
    ensures r.id != AllocId(rows, true)
  {
    hide IdSeq, MaxSeq, AllocId, AutoId;
    AllocatedIdTakenIff(rows, true);
  }

  /** Automatic ids come one after another: E-100 in an empty store, and after each election stored under
      one, the id with the next number, whatever numbers were chosen by hand before. */
  lemma NumbersInTurn(rows: seq<ElectionRow>, r: ElectionRow)
    requires SeqsFromIds(rows) && (rows != [] ==> MaxSeq(rows) < INT_MAX - 1)
    requires r.id == AllocId(rows, true) && r.seqNo == IdSeq(r.id)
    ensures rows == [] ==> r.id == "E-100"
    ensures forall old_ :: old_ in rows ==> old_.seqNo < r.seqNo
    ensures AllocId(rows + [r], true) == AutoId(r.seqNo + 1)
  {
    hide IdSeq, MaxSeq, AutoId;
    var n := AllocNumber(rows, true);
    AutoIdSeq(n);
    assert r in rows + [r];
    assert MaxSeq(rows + [r]) == n;
    if rows == [] {
      FirstAutoId();
    }
  }

  lemma FirstAutoId()
    ensures AutoId(100) == "E-100"
  {
    assert Print(1) == "1" && Print(10) == "10" && Print(100) == "100";
  }
}
