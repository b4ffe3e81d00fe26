/** What a client decodes from the daemon's encoded answer, for every answer that can be encoded. */
module BallotAnswerTrip {
  import opened Basics
  import opened Decimal
  import opened Htttp
  import opened HtttpLaws
  import opened BallotCodec
  import opened BallotTrip
  import opened BallotReply
  import opened BallotAnswer
  import BallotStore

  predicate RowsHeld(rows: seq<Row>) {
    forall i :: 0 <= i < |rows| ==> RowHeld(rows[i])
  }

  /** Every field within its array, and the counts those of the arrays. */
  predicate AnswerHeld(a: Answer) {
    && Text(a.id, ID_LEN) && Text(a.title, TITLE_LEN) && Text(a.openTime, TIME_LEN) && Text(a.closeTime, TIME_LEN)
    && |a.options| <= MAX_OPTIONS && Texts(a.options, OPTION_LEN) && IsInt(a.hasBallot) && IsInt(a.version)
    && Text(a.receipt, HASH_LEN) && Text(a.issuedAt, TIME_LEN)
    && a.tallyCount == |a.tally| == |a.names| <= MAX_OPTIONS && Ints(a.tally) && Texts(a.names, OPTION_LEN)
    && a.rowCount == |a.rows| <= MAX_VOTERS && RowsHeld(a.rows)
    && IsInt(a.found) && IsInt(a.foundOption) && Text(a.foundName, OPTION_LEN)
  }

  predicate CarriesResults(op: Op) {
    op.Results? || op.AdminResults?
  }

  predicate CarriesReceipt(op: Op) {
    op.Cast? || op.Update?
  }

  predicate CarriesNewId(op: Op) {
    op.Create? || op.AdminNextId?
  }

  /** The fields an answer to this operation carries. */
  function Carried(op: Op, a: Answer): Answer {
    var base := NoAnswer().(status := a.status);
    if CarriesNewId(op) then base.(id := a.id)
    else if op.Join? then
      if a.id == [] then base
      else base.(id := a.id, title := a.title, state := a.state, openTime := a.openTime, closeTime := a.closeTime,
                 options := a.options, hasBallot := a.hasBallot, version := a.version)
    else if CarriesReceipt(op) then
      if a.receipt == [] then base else base.(receipt := a.receipt, issuedAt := a.issuedAt)
    else if CarriesResults(op) then
      base.(id := a.id, title := a.title, tallyCount := a.tallyCount, tally := a.tally, names := a.names,
            rowCount := a.rowCount, rows := a.rows)
    else if CarriesHash(op) then
      if a.found == 0 then base
      else base.(found := a.found, foundOption := a.foundOption, foundName := a.foundName)
    else base
  }

  predicate CleanAll(texts: seq<string>) {
    forall i :: 0 <= i < |texts| ==> Clean(texts[i])
  }

  predicate CleanHashes(rows: seq<Row>) {
    forall i :: 0 <= i < |rows| ==> Clean(rows[i].hash)
  }

  /** No text the answer carries breaks a line. */
  predicate CleanAnswer(op: Op, a: Answer) {
    if CarriesNewId(op) then Clean(a.id)
    else if op.Join? then
      a.id != [] ==> Clean(a.id) && Clean(a.title) && Clean(a.openTime) && Clean(a.closeTime) && CleanAll(a.options)
    else if CarriesReceipt(op) then a.receipt != [] ==> Clean(a.receipt) && Clean(a.issuedAt)
    else if CarriesResults(op) then
      Clean(a.id) && Clean(a.title) && CleanAll(a.names) && CleanHashes(a.rows)
    else if CarriesHash(op) then a.found != 0 ==> Clean(a.foundName)
    else true
  }

  /** Every listed hash can be told from the numbers behind it. */
  predicate PlainRows(rows: seq<Row>) {
    forall i :: 0 <= i < |rows| ==> rows[i].hash != [] && ',' !in rows[i].hash
  }

  // --- One line ---------------------------------------------------------------------------------

  lemma FoldCons<C>(f: (C, string, string) -> C, c: C, key: string, value: string, rest: seq<(string, string)>)
    ensures Fold(f, c, [(key, value)] + rest) == Fold(f, f(c, key, value), rest)
  {
    assert ([(key, value)] + rest)[1..] == rest;
  }

  lemma StatusKv(c: (Answer, bool), code: BallotStore.Code)
    requires ResultName(code).Some?
    ensures AnswerKv(c, "status", ResultName(code).value) == (c.0.(status := code), true)
  {
    hide ResultName, ResultNamed, Detail;
    StatusComesBack(code);
  }

  lemma IdKv(c: (Answer, bool), v: string)
    requires |v| < ID_LEN
    ensures AnswerKv(c, "election_id", v) == (c.0.(id := v), c.1)
  {
    hide Atoi, PrintInt, ResultNamed, ReadRow, RowText, ReadTally, TallyText;
  }

  lemma TitleKv(c: (Answer, bool), v: string)
    requires |v| < TITLE_LEN
    ensures AnswerKv(c, "title", v) == (c.0.(title := v), c.1)
  {
    hide Atoi, PrintInt, ResultNamed, ReadRow, RowText, ReadTally, TallyText;
  }

  lemma StateKv(c: (Answer, bool), v: BallotStore.State)
    ensures AnswerKv(c, "state", StateName(v)) == (c.0.(state := v), c.1)
  {
    hide Atoi, PrintInt, ResultNamed, ReadRow, RowText, ReadTally, TallyText;
  }

  lemma OpenKv(c: (Answer, bool), v: string)
    requires |v| < TIME_LEN
    ensures AnswerKv(c, "open_time", v) == (c.0.(openTime := v), c.1)
  {
    hide Atoi, PrintInt, ResultNamed, ReadRow, RowText, ReadTally, TallyText;
  }

  lemma CloseKv(c: (Answer, bool), v: string)
    requires |v| < TIME_LEN
    ensures AnswerKv(c, "close_time", v) == (c.0.(closeTime := v), c.1)
  {
    hide Atoi, PrintInt, ResultNamed, ReadRow, RowText, ReadTally, TallyText;
  }

  lemma HasKv(c: (Answer, bool), v: int)
    requires IsInt(v)
    ensures AnswerKv(c, "has_prior_ballot", PrintInt(v)) == (c.0.(hasBallot := v), c.1)
  {
    hide Atoi, PrintInt, ResultNamed, ReadRow, RowText, ReadTally, TallyText;
    AtoiPrinted(v);
  }

  lemma VersionKv(c: (Answer, bool), v: int)
    requires IsInt(v)
    ensures AnswerKv(c, "prior_ballot_version", PrintInt(v)) == (c.0.(version := v), c.1)
  {
    hide Atoi, PrintInt, ResultNamed, ReadRow, RowText, ReadTally, TallyText;
    AtoiPrinted(v);
  }

  lemma ChoiceKv(c: (Answer, bool), v: string)
    requires |v| < OPTION_LEN && |c.0.options| < MAX_OPTIONS
    ensures AnswerKv(c, "option", v) == (c.0.(options := c.0.options + [v]), c.1)
  {
    hide Atoi, PrintInt, ResultNamed, ReadRow, RowText, ReadTally, TallyText;
  }

  lemma ReceiptKv(c: (Answer, bool), v: string)
    requires |v| < HASH_LEN
    ensures AnswerKv(c, "hash", v) == (c.0.(receipt := v), c.1)
  {
    hide Atoi, PrintInt, ResultNamed, ReadRow, RowText, ReadTally, TallyText;
  }

  lemma IssuedKv(c: (Answer, bool), v: string)
    requires |v| < TIME_LEN
    ensures AnswerKv(c, "issued_at", v) == (c.0.(issuedAt := v), c.1)
  {
    hide Atoi, PrintInt, ResultNamed, ReadRow, RowText, ReadTally, TallyText;
  }

  lemma FoundKv(c: (Answer, bool), v: int)
    requires IsInt(v)
    ensures AnswerKv(c, "found", PrintInt(v)) == (c.0.(found := v), c.1)
  {
    hide Atoi, PrintInt, ResultNamed, ReadRow, RowText, ReadTally, TallyText;
    AtoiPrinted(v);
  }

  lemma FoundOptionKv(c: (Answer, bool), v: int)
    requires IsInt(v)
    ensures AnswerKv(c, "found_option", PrintInt(v)) == (c.0.(foundOption := v), c.1)
  {
    hide Atoi, PrintInt, ResultNamed, ReadRow, RowText, ReadTally, TallyText;
    AtoiPrinted(v);
  }

  lemma FoundNameKv(c: (Answer, bool), v: string)
    requires |v| < OPTION_LEN
    ensures AnswerKv(c, "found_option_name", v) == (c.0.(foundName := v), c.1)
  {
    hide Atoi, PrintInt, ResultNamed, ReadRow, RowText, ReadTally, TallyText;
  }

  lemma TallyCountKv(c: (Answer, bool), v: int)
    requires IsInt(v)
    ensures AnswerKv(c, "tally_count", PrintInt(v)) == (c.0.(tallyCount := v), c.1)
  {
    hide Atoi, PrintInt, ResultNamed, ReadRow, RowText, ReadTally, TallyText;
    AtoiPrinted(v);
  }

  lemma NameKv(c: (Answer, bool), v: string)
    requires |v| < OPTION_LEN && |c.0.names| < MAX_OPTIONS
    ensures AnswerKv(c, "result_option", v) == (c.0.(names := c.0.names + [v]), c.1)
  {
    hide Atoi, PrintInt, ResultNamed, ReadRow, RowText, ReadTally, TallyText;
  }

  lemma TallyDetail(a: Answer, text: string)
    ensures Detail(a, "tally", text) == a.(tally := Overwrite(a.tally, ReadTally(text, MAX_OPTIONS)))
  {
    hide Atoi, ReadRow, ReadTally, StateNamed, Overwrite, Cut;
  }

  lemma TallyKv(c: (Answer, bool), v: seq<int>)
    requires Ints(v) && |v| <= MAX_OPTIONS && c.0.tally == []
    ensures AnswerKv(c, "tally", TallyText(v)) == (c.0.(tally := v), c.1)
  {
    hide ResultNamed, Detail, ReadTally, TallyText, Ints;
    TallyRead(v, MAX_OPTIONS);
    TallyDetail(c.0, TallyText(v));
  }

  lemma RowCountKv(c: (Answer, bool), v: int)
    requires IsInt(v)
    ensures AnswerKv(c, "hash_count", PrintInt(v)) == (c.0.(rowCount := v), c.1)
  {
    hide Atoi, PrintInt, ResultNamed, ReadRow, RowText, ReadTally, TallyText;
    AtoiPrinted(v);
  }

  lemma RowKv(c: (Answer, bool), v: Row)
    requires RowHeld(v) && v.hash != [] && ',' !in v.hash && |c.0.rows| < MAX_VOTERS
    ensures AnswerKv(c, "row", RowText(v)) == (c.0.(rows := c.0.rows + [v]), c.1)
  {
    hide Atoi, PrintInt, ResultNamed, ReadRow, RowText, ReadTally, TallyText;
    RowRead(v);
  }

  lemma {:induction false} ChoicesFold(c: (Answer, bool), vs: seq<string>)
    requires |c.0.options| + |vs| <= MAX_OPTIONS && Texts(vs, OPTION_LEN)
    ensures Fold(AnswerKv, c, Keyed("option", vs)) == (c.0.(options := c.0.options + vs), c.1)
    decreases |vs|
  {
    hide AnswerKv, Fold, Keyed;
    if vs == [] {
      KeyedNone("option");
      FoldNone(AnswerKv, c);
      assert c.0.options + vs == c.0.options;
    } else {
      ChoiceKv(c, vs[0]);
      FoldKeyed(AnswerKv, c, "option", vs);
      ChoicesFold(AnswerKv(c, "option", vs[0]), vs[1..]);
      assert c.0.options + [vs[0]] + vs[1..] == c.0.options + vs;
    }
  }

  lemma {:induction false} NamesFold(c: (Answer, bool), vs: seq<string>)
    requires |c.0.names| + |vs| <= MAX_OPTIONS && Texts(vs, OPTION_LEN)
    ensures Fold(AnswerKv, c, Keyed("result_option", vs)) == (c.0.(names := c.0.names + vs), c.1)
    decreases |vs|
  {
    hide AnswerKv, Fold, Keyed;
    if vs == [] {
      KeyedNone("result_option");
      FoldNone(AnswerKv, c);
      assert c.0.names + vs == c.0.names;
    } else {
      NameKv(c, vs[0]);
      FoldKeyed(AnswerKv, c, "result_option", vs);
      NamesFold(AnswerKv(c, "result_option", vs[0]), vs[1..]);
      assert c.0.names + [vs[0]] + vs[1..] == c.0.names + vs;
    }
  }

  lemma KeyedNone(key: string)
    ensures Keyed(key, []) == []
  {
  }

  lemma RowsSplit(rows: seq<Row>)
    requires rows != [] && RowsHeld(rows) && PlainRows(rows)
    ensures RowHeld(rows[0]) && rows[0].hash != [] && ',' !in rows[0].hash
    ensures RowsHeld(rows[1..]) && PlainRows(rows[1..])
  {
  }

  lemma {:induction false} RowsFold(c: (Answer, bool), rows: seq<Row>)
    requires |c.0.rows| + |rows| <= MAX_VOTERS && RowsHeld(rows) && PlainRows(rows)
    ensures Fold(AnswerKv, c, Keyed("row", RowTexts(rows))) == (c.0.(rows := c.0.rows + rows), c.1)
    decreases |rows|
  {
    hide AnswerKv, Fold, Keyed, RowText, RowHeld, RowsHeld, PlainRows;
    if rows == [] {
      KeyedNone("row");
      FoldNone(AnswerKv, c);
      assert c.0.rows + rows == c.0.rows;
    } else {
      var texts := RowTexts(rows);
      assert texts[1..] == RowTexts(rows[1..]);
      RowsSplit(rows);
      RowKv(c, rows[0]);
      FoldKeyed(AnswerKv, c, "row", texts);
      RowsFold(AnswerKv(c, "row", texts[0]), rows[1..]);
      assert c.0.rows + [rows[0]] + rows[1..] == c.0.rows + rows;
    }
  }

  // --- Whole answers ----------------------------------------------------------------------------

  lemma JoinFold(c: (Answer, bool), a: Answer)
    requires AnswerHeld(a) && c.0.options == []
    ensures Fold(AnswerKv, c, JoinPairs(a))
            == (c.0.(id := a.id, title := a.title, state := a.state, openTime := a.openTime, closeTime := a.closeTime,
                     hasBallot := a.hasBallot, version := a.version, options := a.options), c.1)
  {
    hide AnswerKv, Fold, Keyed, PrintInt, StateName, RowsHeld, Ints;
    var r7 := Keyed("option", a.options);
    var r6 := [("prior_ballot_version", PrintInt(a.version))] + r7;
    var r5 := [("has_prior_ballot", PrintInt(a.hasBallot))] + r6;
    var r4 := [("close_time", a.closeTime)] + r5;
    var r3 := [("open_time", a.openTime)] + r4;
    var r2 := [("state", StateName(a.state))] + r3;
    var r1 := [("title", a.title)] + r2;
    var c1 := JoinHead(c, a, r1, r2, r3);
    FoldCons(AnswerKv, c1, "open_time", a.openTime, r4);
    OpenKv(c1, a.openTime);
    var c2 := AnswerKv(c1, "open_time", a.openTime);
    FoldCons(AnswerKv, c2, "close_time", a.closeTime, r5);
    CloseKv(c2, a.closeTime);
    var c3 := AnswerKv(c2, "close_time", a.closeTime);
    FoldCons(AnswerKv, c3, "has_prior_ballot", PrintInt(a.hasBallot), r6);
    HasKv(c3, a.hasBallot);
    var c4 := AnswerKv(c3, "has_prior_ballot", PrintInt(a.hasBallot));
    FoldCons(AnswerKv, c4, "prior_ballot_version", PrintInt(a.version), r7);
    VersionKv(c4, a.version);
    ChoicesFold(AnswerKv(c4, "prior_ballot_version", PrintInt(a.version)), a.options);
    assert [] + a.options == a.options;
  }

  lemma JoinHead(c: (Answer, bool), a: Answer, r1: seq<(string, string)>, r2: seq<(string, string)>,
                 r3: seq<(string, string)>)
    returns (d: (Answer, bool))
    requires AnswerHeld(a) && r1 == [("title", a.title)] + r2 && r2 == [("state", StateName(a.state))] + r3
    ensures d == (c.0.(id := a.id, title := a.title, state := a.state), c.1)
    ensures Fold(AnswerKv, c, [("election_id", a.id)] + r1) == Fold(AnswerKv, d, r3)
  {
    hide AnswerKv, Fold, StateName, RowsHeld, Ints;
    FoldCons(AnswerKv, c, "election_id", a.id, r1);
    IdKv(c, a.id);
    var c1 := AnswerKv(c, "election_id", a.id);
    FoldCons(AnswerKv, c1, "title", a.title, r2);
    TitleKv(c1, a.title);
    var c2 := AnswerKv(c1, "title", a.title);
    FoldCons(AnswerKv, c2, "state", StateName(a.state), r3);
    StateKv(c2, a.state);
    d := AnswerKv(c2, "state", StateName(a.state));
  }

  lemma TallyFold(c: (Answer, bool), a: Answer)
    requires AnswerHeld(a) && c.0.tally == [] && c.0.names == []
    ensures Fold(AnswerKv, c, TallyPairs(a)) == (c.0.(tally := a.tally, names := a.names), c.1)
  {
    hide AnswerKv, Fold, Keyed, TallyText, RowsHeld;
    if a.tallyCount == 0 {
      FoldNone(AnswerKv, c);
    } else {
      FoldCons(AnswerKv, c, "tally", TallyText(a.tally), Keyed("result_option", a.names));
      TallyKv(c, a.tally);
      NamesFold(AnswerKv(c, "tally", TallyText(a.tally)), a.names);
      assert [] + a.names == a.names;
    }
  }

  /** The results up to their rows. */
  lemma ResultsHead(c: (Answer, bool), a: Answer, rest: seq<(string, string)>)
    requires AnswerHeld(a) && c.0.tally == [] && c.0.names == []
    ensures Fold(AnswerKv, c, [("election_id", a.id)] + ([("title", a.title)] + ([("tally_count", PrintInt(a.tallyCount))]
                              + (TallyPairs(a) + rest))))
            == Fold(AnswerKv, (c.0.(id := a.id, title := a.title, tallyCount := a.tallyCount, tally := a.tally,
                                    names := a.names), c.1), rest)
  {
    hide AnswerKv, Fold, TallyPairs, PrintInt, RowsHeld, Ints;
    var r3 := TallyPairs(a) + rest;
    var r2 := [("tally_count", PrintInt(a.tallyCount))] + r3;
    var r1 := [("title", a.title)] + r2;
    FoldCons(AnswerKv, c, "election_id", a.id, r1);
    IdKv(c, a.id);
    var c1 := AnswerKv(c, "election_id", a.id);
    FoldCons(AnswerKv, c1, "title", a.title, r2);
    TitleKv(c1, a.title);
    var c2 := AnswerKv(c1, "title", a.title);
    FoldCons(AnswerKv, c2, "tally_count", PrintInt(a.tallyCount), r3);
    TallyCountKv(c2, a.tallyCount);
    var c3 := AnswerKv(c2, "tally_count", PrintInt(a.tallyCount));
    FoldConcat(AnswerKv, c3, TallyPairs(a), rest);
    TallyFold(c3, a);
  }

  lemma ResultsFold(c: (Answer, bool), a: Answer)
    requires AnswerHeld(a) && PlainRows(a.rows) && c.0.tally == [] && c.0.names == [] && c.0.rows == []
    ensures Fold(AnswerKv, c, ResultsPairs(a))
            == (c.0.(id := a.id, title := a.title, tallyCount := a.tallyCount, tally := a.tally, names := a.names,
                     rowCount := a.rowCount, rows := a.rows), c.1)
  {
    hide AnswerKv, Fold, Keyed, TallyPairs, PrintInt, RowTexts, RowsHeld, PlainRows, Ints;
    var last := Keyed("row", RowTexts(a.rows));
    var rest := [("hash_count", PrintInt(a.rowCount))] + last;
    ResultsHead(c, a, rest);
    var c1 := (c.0.(id := a.id, title := a.title, tallyCount := a.tallyCount, tally := a.tally, names := a.names), c.1);
    FoldCons(AnswerKv, c1, "hash_count", PrintInt(a.rowCount), last);
    RowCountKv(c1, a.rowCount);
    RowsFold(AnswerKv(c1, "hash_count", PrintInt(a.rowCount)), a.rows);
    assert [] + a.rows == a.rows;
  }

  lemma CheckFold(c: (Answer, bool), a: Answer)
    requires AnswerHeld(a) && c.0.found == 0 && c.0.foundOption == 0 && c.0.foundName == ""
    ensures Fold(AnswerKv, c, CheckPairs(a))
            == if a.found == 0 then c
               else (c.0.(found := a.found, foundOption := a.foundOption, foundName := a.foundName), c.1)
  {
    hide AnswerKv, Fold, PrintInt, RowsHeld, Ints;
    FoundKv(c, a.found);
    var c1 := AnswerKv(c, "found", PrintInt(a.found));
    if a.found == 0 {
      FoldOne(AnswerKv, c, "found", PrintInt(a.found));
      assert CheckPairs(a) == [("found", PrintInt(a.found))];
    } else {
      var last := [("found_option_name", a.foundName)];
      FoldCons(AnswerKv, c, "found", PrintInt(a.found), [("found_option", PrintInt(a.foundOption))] + last);
      FoldCons(AnswerKv, c1, "found_option", PrintInt(a.foundOption), last);
      FoundOptionKv(c1, a.foundOption);
      var c2 := AnswerKv(c1, "found_option", PrintInt(a.foundOption));
      FoldOne(AnswerKv, c2, "found_option_name", a.foundName);
      FoundNameKv(c2, a.foundName);
    }
  }

  /** The details of every operation's answer. */
  lemma DetailFold(op: Op, a: Answer)
    requires AnswerHeld(a) && (CarriesResults(op) ==> PlainRows(a.rows))
    ensures Fold(AnswerKv, (NoAnswer().(status := a.status), true), DetailPairs(op, a)) == (Carried(op, a), true)
  {
    hide AnswerKv, Fold, JoinPairs, ResultsPairs, CheckPairs, RowsHeld, PlainRows, Ints;
    var c := (NoAnswer().(status := a.status), true);
    FoldNone(AnswerKv, c);
    if op.Join? {
      JoinFold(c, a);
    } else if CarriesResults(op) {
      ResultsFold(c, a);
    } else if CarriesHash(op) {
      CheckFold(c, a);
    } else if CarriesNewId(op) {
      FoldOne(AnswerKv, c, "election_id", a.id);
      IdKv(c, a.id);
    } else if CarriesReceipt(op) {
      ReceiptFold(c, a);
    }
  }

  lemma ReceiptFold(c: (Answer, bool), a: Answer)
    requires AnswerHeld(a)
    ensures Fold(AnswerKv, c, [("hash", a.receipt)] + [("issued_at", a.issuedAt)])
            == (c.0.(receipt := a.receipt, issuedAt := a.issuedAt), c.1)
  {
    hide AnswerKv, Fold, RowsHeld, Ints;
    FoldCons(AnswerKv, c, "hash", a.receipt, [("issued_at", a.issuedAt)]);
    ReceiptKv(c, a.receipt);
    var c1 := AnswerKv(c, "hash", a.receipt);
    FoldOne(AnswerKv, c1, "issued_at", a.issuedAt);
    IssuedKv(c1, a.issuedAt);
  }

  // --- Lengths and line breaks ------------------------------------------------------------------

  lemma {:induction false} BodyTextAppend(a: seq<(string, string)>, b: seq<(string, string)>)
    ensures |BodyText(a + b)| == |BodyText(a)| + |BodyText(b)|
    decreases |a|
  {
    hide LineText;
    if a == [] {
      assert a + b == b;
    } else {
      assert (a + b)[1..] == a[1..] + b;
      BodyTextAppend(a[1..], b);
    }
  }

  lemma OneLine(key: string, value: string)
    ensures |BodyText([(key, value)])| == |key| + |value| + 2
  {
    assert [(key, value)][1..] == [];
  }

  lemma {:induction false} KeyedLength(key: string, values: seq<string>, m: nat)
    requires forall i :: 0 <= i < |values| ==> |values[i]| <= m
    ensures |BodyText(Keyed(key, values))| <= |values| * (|key| + m + 2)
    decreases |values|
  {
    if values != [] {
      KeyedLength(key, values[1..], m);
      assert Keyed(key, values)[1..] == Keyed(key, values[1..]);
      assert |values| * (|key| + m + 2) == (|values| - 1) * (|key| + m + 2) + (|key| + m + 2);
    }
  }

  /** Lines that can be written and are read back: plain, short, and how long they are together. */
  ghost predicate Lines(pairs: seq<(string, string)>, clean: bool, most: nat) {
    && (forall i :: 0 <= i < |pairs| ==> PlainKey(pairs[i].0) && '\0' !in pairs[i].1 && |pairs[i].1| < VALUE_CAP)
    && ((forall i :: 0 <= i < |pairs| ==> Clean(pairs[i].1)) <==> clean)
    && |BodyText(pairs)| <= most
  }

  lemma LinesNone()
    ensures Lines([], true, 0)
  {
  }

  lemma LinesOne(key: string, value: string)
    requires PlainKey(key) && Text(value, VALUE_CAP)
    ensures Lines([(key, value)], Clean(value), |key| + |value| + 2)
  {
    hide PlainKey, Clean;
    OneLine(key, value);
    assert [(key, value)][0] == (key, value);
  }

  lemma LinesConcat(a: seq<(string, string)>, cleanA: bool, m: nat, b: seq<(string, string)>, cleanB: bool, n: nat)
    requires Lines(a, cleanA, m) && Lines(b, cleanB, n)
    ensures Lines(a + b, cleanA && cleanB, m + n)
  {
    hide PlainKey, Clean, BodyText;
    BodyTextAppend(a, b);
    var ab := a + b;
    assert forall i :: 0 <= i < |a| ==> ab[i] == a[i];
    assert forall i :: 0 <= i < |b| ==> ab[|a| + i] == b[i];
  }

  lemma LinesKeyed(key: string, values: seq<string>, size: nat)
    requires PlainKey(key) && Texts(values, size) && 0 < size <= VALUE_CAP
    ensures Lines(Keyed(key, values), CleanAll(values), |values| * (|key| + size + 1))
  {
    hide PlainKey, Clean, BodyText;
    KeyedLength(key, values, size - 1);
    KeyedClean(key, values);
    var pairs := Keyed(key, values);
    forall i | 0 <= i < |pairs| ensures PlainKey(pairs[i].0) && '\0' !in pairs[i].1 && |pairs[i].1| < VALUE_CAP {
      assert pairs[i] == (key, values[i]) && Text(values[i], size);
    }
  }

  lemma KeyedClean(key: string, values: seq<string>)
    ensures (forall i :: 0 <= i < |values| ==> Clean(Keyed(key, values)[i].1)) <==> CleanAll(values)
  {
    hide Clean;
    assert forall i :: 0 <= i < |values| ==> Keyed(key, values)[i].1 == values[i];
  }

  // --- The lines of each answer -----------------------------------------------------------------

  lemma AnswerKeysPlain()
    ensures PlainKey("status") && PlainKey("state") && PlainKey("has_prior_ballot") && PlainKey("prior_ballot_version")
    ensures PlainKey("issued_at") && PlainKey("found") && PlainKey("found_option") && PlainKey("found_option_name")
    ensures PlainKey("tally_count") && PlainKey("tally") && PlainKey("result_option") && PlainKey("hash_count")
    ensures PlainKey("row")
  {
  }

  lemma PrintIntPlain(n: int)
    requires IsInt(n)
    ensures Text(PrintInt(n), 12) && Clean(PrintInt(n))
  {
    PrintIntShape(n);
  }

  lemma StateNamePlain(state: BallotStore.State)
    ensures Text(StateName(state), 10) && Clean(StateName(state))
  {
  }

  lemma ResultNamePlain(code: BallotStore.Code)
    requires ResultName(code).Some?
    ensures Text(ResultName(code).value, 26) && Clean(ResultName(code).value)
  {
    hide ResultName;
    ResultNameLetters(code);
  }

  /** Capitals and underscores. */
  predicate Letters(name: string) {
    |name| < 26 && forall i :: 0 <= i < |name| ==> name[i] >= 'A'
  }

  lemma ResultNameLetters(code: BallotStore.Code)
    requires ResultName(code).Some?
    ensures Letters(ResultName(code).value)
  {
    hide Letters;
    if code.NotFound? || code.NotJoined? || code.DbError? || code.NotImplemented? || code.Replay? || code.Decrypt? {
      LateNames(code);
    } else if code.Ok? || code.ConfigTitle? || code.ConfigOptions? || code.ConfigTime? || code.ConfigIdTaken? {
      EarlyNames(code);
    } else {
      MiddleNames(code);
    }
  }

  lemma EarlyNames(code: BallotStore.Code)
    requires code.Ok? || code.ConfigTitle? || code.ConfigOptions? || code.ConfigTime? || code.ConfigIdTaken?
    ensures Letters(ResultName(code).value)
  {
  }

  lemma MiddleNames(code: BallotStore.Code)
    requires || code.IllegalTransition? || code.NotOpen? || code.ElectionClosed? || code.NotPublished?
             || code.NotEligible? || code.CertInvalid? || code.CertExpired? || code.BadOption?
    ensures Letters(ResultName(code).value)
  {
  }

  lemma LateNames(code: BallotStore.Code)
    requires code.NotFound? || code.NotJoined? || code.DbError? || code.NotImplemented? || code.Replay? || code.Decrypt?
    ensures Letters(ResultName(code).value)
  {
  }

  lemma NumberLine(key: string, n: int)
    requires PlainKey(key) && IsInt(n)
    ensures Lines([(key, PrintInt(n))], true, |key| + 13)
  {
    hide PlainKey, PrintInt, Clean, BodyText;
    PrintIntPlain(n);
    LinesOne(key, PrintInt(n));
  }

  lemma {:induction false} TallyTextPlain(tally: seq<int>)
    requires Ints(tally)
    ensures |TallyText(tally)| <= 12 * |tally| && '\0' !in TallyText(tally) && Clean(TallyText(tally))
  {
    hide PrintInt;
    if tally != [] {
      PrintIntPlain(tally[0]);
      if |tally| > 1 {
        TallyTextPlain(tally[1..]);
      }
    }
  }

  lemma RowTextPlain(r: Row)
    requires RowHeld(r)
    ensures Text(RowText(r), 101) && (Clean(RowText(r)) <==> Clean(r.hash))
  {
    hide PrintInt;
    PrintIntPlain(r.option);
    PrintIntPlain(r.version);
    PrintIntPlain(r.superseded);
    var s := RowText(r);
    var rest := "," + (PrintInt(r.option) + ("," + (PrintInt(r.version) + ("," + PrintInt(r.superseded)))));
    assert s == r.hash + rest;
    assert Clean(rest) && '\0' !in rest;
  }

  lemma RowTextsPlain(rows: seq<Row>)
    requires RowsHeld(rows)
    ensures Texts(RowTexts(rows), 101) && (CleanAll(RowTexts(rows)) <==> CleanHashes(rows))
  {
    hide RowText, RowHeld, Clean, Text;
    forall i | 0 <= i < |rows|
      ensures Text(RowText(rows[i]), 101) && (Clean(RowText(rows[i])) <==> Clean(rows[i].hash))
    {
      RowTextPlain(rows[i]);
    }
    var texts := RowTexts(rows);
    assert forall i :: 0 <= i < |rows| ==> texts[i] == RowText(rows[i]);
  }

  lemma IdLine(a: Answer)
    requires AnswerHeld(a)
    ensures Lines([("election_id", a.id)], Clean(a.id), 28)
  {
    hide Clean, BodyText, PlainKey, RowsHeld;
    KeysPlain();
    LinesOne("election_id", a.id);
  }

  lemma TitleLine(a: Answer)
    requires AnswerHeld(a)
    ensures Lines([("title", a.title)], Clean(a.title), 70)
  {
    hide Clean, BodyText, PlainKey, RowsHeld;
    KeysPlain();
    LinesOne("title", a.title);
  }

  /** The last four lines of a JOIN and its options. */
  lemma JoinTailLines(a: Answer)
    requires AnswerHeld(a)
    ensures Lines([("close_time", a.closeTime)] + ([("has_prior_ballot", PrintInt(a.hasBallot))]
                  + ([("prior_ballot_version", PrintInt(a.version))] + Keyed("option", a.options))),
                  Clean(a.closeTime) && CleanAll(a.options), 729)
  {
    hide Lines, PlainKey, PrintInt, Keyed, Clean, CleanAll, RowsHeld;
    KeysPlain();
    AnswerKeysPlain();
    var r3 := Keyed("option", a.options);
    var r2 := [("prior_ballot_version", PrintInt(a.version))] + r3;
    var r1 := [("has_prior_ballot", PrintInt(a.hasBallot))] + r2;
    LinesKeyed("option", a.options, OPTION_LEN);
    LinesMore(r3, CleanAll(a.options), |a.options| * 39, 624);
    NumberLine("prior_ballot_version", a.version);
    LinesConcat([("prior_ballot_version", PrintInt(a.version))], true, 33, r3, CleanAll(a.options), 624);
    NumberLine("has_prior_ballot", a.hasBallot);
    LinesConcat([("has_prior_ballot", PrintInt(a.hasBallot))], true, 29, r2, CleanAll(a.options), 657);
    LinesOne("close_time", a.closeTime);
    LinesMore([("close_time", a.closeTime)], Clean(a.closeTime), 12 + |a.closeTime|, 43);
    LinesConcat([("close_time", a.closeTime)], Clean(a.closeTime), 43, r1, CleanAll(a.options), 686);
  }

  lemma LinesMore(pairs: seq<(string, string)>, clean: bool, m: nat, n: nat)
    requires Lines(pairs, clean, m) && m <= n
    ensures Lines(pairs, clean, n)
  {
  }

  lemma JoinLines(a: Answer)
    requires AnswerHeld(a)
    ensures Lines(JoinPairs(a), Clean(a.id) && Clean(a.title) && Clean(a.openTime) && Clean(a.closeTime)
                                && CleanAll(a.options), 900)
  {
    hide Lines, PlainKey, PrintInt, Keyed, Clean, CleanAll, StateName, RowsHeld;
    KeysPlain();
    AnswerKeysPlain();
    var tail := [("close_time", a.closeTime)] + ([("has_prior_ballot", PrintInt(a.hasBallot))]
                + ([("prior_ballot_version", PrintInt(a.version))] + Keyed("option", a.options)));
    var ct := Clean(a.closeTime) && CleanAll(a.options);
    JoinTailLines(a);
    var r3 := [("open_time", a.openTime)] + tail;
    LinesOne("open_time", a.openTime);
    LinesMore([("open_time", a.openTime)], Clean(a.openTime), 11 + |a.openTime|, 42);
    LinesConcat([("open_time", a.openTime)], Clean(a.openTime), 42, tail, ct, 729);
    var r2 := [("state", StateName(a.state))] + r3;
    StateNamePlain(a.state);
    LinesOne("state", StateName(a.state));
    LinesMore([("state", StateName(a.state))], true, 7 + |StateName(a.state)|, 16);
    LinesConcat([("state", StateName(a.state))], true, 16, r3, Clean(a.openTime) && ct, 771);
    var r1 := [("title", a.title)] + r2;
    TitleLine(a);
    LinesConcat([("title", a.title)], Clean(a.title), 70, r2, Clean(a.openTime) && ct, 787);
    IdLine(a);
    LinesConcat([("election_id", a.id)], Clean(a.id), 28, r1, Clean(a.title) && Clean(a.openTime) && ct, 857);
    LinesMore(JoinPairs(a), Clean(a.id) && Clean(a.title) && Clean(a.openTime) && ct, 885, 900);
  }

  lemma TallyLines(a: Answer)
    requires AnswerHeld(a)
    ensures Lines(TallyPairs(a), CleanAll(a.names), 935)
  {
    hide Lines, PlainKey, Keyed, Clean, TallyText, RowsHeld;
    AnswerKeysPlain();
    if a.tallyCount == 0 {
      LinesNone();
      LinesMore([], true, 0, 935);
    } else {
      TallyTextPlain(a.tally);
      LinesOne("tally", TallyText(a.tally));
      LinesMore([("tally", TallyText(a.tally))], true, 7 + |TallyText(a.tally)|, 199);
      LinesKeyed("result_option", a.names, OPTION_LEN);
      LinesMore(Keyed("result_option", a.names), CleanAll(a.names), |a.names| * 46, 736);
      LinesConcat([("tally", TallyText(a.tally))], true, 199, Keyed("result_option", a.names), CleanAll(a.names), 736);
    }
  }

  lemma RowLines(a: Answer)
    requires AnswerHeld(a)
    ensures Lines([("hash_count", PrintInt(a.rowCount))] + Keyed("row", RowTexts(a.rows)), CleanHashes(a.rows), 6743)
  {
    hide Lines, PlainKey, PrintInt, Keyed, CleanAll, CleanHashes, RowTexts, RowsHeld, Texts, Text;
    AnswerKeysPlain();
    RowTextsPlain(a.rows);
    LinesKeyed("row", RowTexts(a.rows), 101);
    LinesMore(Keyed("row", RowTexts(a.rows)), CleanHashes(a.rows), |a.rows| * 105, 6720);
    NumberLine("hash_count", a.rowCount);
    LinesConcat([("hash_count", PrintInt(a.rowCount))], true, 23, Keyed("row", RowTexts(a.rows)), CleanHashes(a.rows), 6720);
  }

  lemma ResultsLines(a: Answer)
    requires AnswerHeld(a)
    ensures Lines(ResultsPairs(a), Clean(a.id) && Clean(a.title) && CleanAll(a.names) && CleanHashes(a.rows), 7800)
  {
    hide Lines, PlainKey, PrintInt, Keyed, CleanAll, CleanHashes, RowTexts, RowsHeld, TallyPairs, Clean;
    AnswerKeysPlain();
    var rows := [("hash_count", PrintInt(a.rowCount))] + Keyed("row", RowTexts(a.rows));
    RowLines(a);
    TallyLines(a);
    LinesConcat(TallyPairs(a), CleanAll(a.names), 935, rows, CleanHashes(a.rows), 6743);
    var ct := CleanAll(a.names) && CleanHashes(a.rows);
    var r3 := TallyPairs(a) + rows;
    var r2 := [("tally_count", PrintInt(a.tallyCount))] + r3;
    NumberLine("tally_count", a.tallyCount);
    LinesConcat([("tally_count", PrintInt(a.tallyCount))], true, 24, r3, ct, 7678);
    TitleLine(a);
    LinesConcat([("title", a.title)], Clean(a.title), 70, r2, ct, 7702);
    IdLine(a);
    LinesConcat([("election_id", a.id)], Clean(a.id), 28, [("title", a.title)] + r2, Clean(a.title) && ct, 7772);
  }

  lemma CheckLines(a: Answer)
    requires AnswerHeld(a)
    ensures Lines(CheckPairs(a), a.found != 0 ==> Clean(a.foundName), 200)
  {
    hide Lines, PlainKey, PrintInt, Clean, RowsHeld;
    AnswerKeysPlain();
    NumberLine("found", a.found);
    if a.found == 0 {
      assert CheckPairs(a) == [("found", PrintInt(a.found))];
      LinesMore(CheckPairs(a), true, 18, 200);
    } else {
      var name := [("found_option_name", a.foundName)];
      LinesOne("found_option_name", a.foundName);
      LinesMore(name, Clean(a.foundName), 19 + |a.foundName|, 50);
      NumberLine("found_option", a.foundOption);
      LinesConcat([("found_option", PrintInt(a.foundOption))], true, 25, name, Clean(a.foundName), 50);
      LinesConcat([("found", PrintInt(a.found))], true, 18, [("found_option", PrintInt(a.foundOption))] + name,
                  Clean(a.foundName), 75);
      LinesMore(CheckPairs(a), Clean(a.foundName), 93, 200);
    }
  }

  lemma ReceiptLines(a: Answer)
    requires AnswerHeld(a)
    ensures Lines([("hash", a.receipt)] + [("issued_at", a.issuedAt)], Clean(a.receipt) && Clean(a.issuedAt), 200)
  {
    hide Lines, PlainKey, Clean, RowsHeld;
    KeysPlain();
    AnswerKeysPlain();
    LinesOne("hash", a.receipt);
    LinesOne("issued_at", a.issuedAt);
    LinesConcat([("hash", a.receipt)], Clean(a.receipt), 6 + |a.receipt|,
                [("issued_at", a.issuedAt)], Clean(a.issuedAt), 11 + |a.issuedAt|);
    LinesMore([("hash", a.receipt)] + [("issued_at", a.issuedAt)], Clean(a.receipt) && Clean(a.issuedAt),
              17 + |a.receipt| + |a.issuedAt|, 200);
  }

  lemma DetailLines(op: Op, a: Answer)
    requires AnswerHeld(a)
    ensures Lines(DetailPairs(op, a), CleanAnswer(op, a), 7800)
  {
    hide Lines, JoinPairs, ResultsPairs, CheckPairs, Clean, CleanAll, CleanHashes, RowsHeld;
    LinesNone();
    LinesMore([], true, 0, 7800);
    if op.Join? {
      JoinLines(a);
      LinesMore(JoinPairs(a), Clean(a.id) && Clean(a.title) && Clean(a.openTime) && Clean(a.closeTime) && CleanAll(a.options), 900, 7800);
    } else if CarriesResults(op) {
      ResultsLines(a);
    } else if CarriesHash(op) {
      CheckLines(a);
      LinesMore(CheckPairs(a), a.found != 0 ==> Clean(a.foundName), 200, 7800);
    } else if CarriesNewId(op) {
      IdLine(a);
      LinesMore([("election_id", a.id)], Clean(a.id), 28, 7800);
      NothingIsClean();
    } else if CarriesReceipt(op) {
      ReceiptLines(a);
      LinesMore([("hash", a.receipt)] + [("issued_at", a.issuedAt)], Clean(a.receipt) && Clean(a.issuedAt), 200, 7800);
    }
  }

  lemma NothingIsClean()
    ensures Clean([])
  {
  }

  /** An answer can be written exactly when its status has a name and its texts break no line: it is
      never too long. */
  lemma AnswerEncodes(op: Op, a: Answer)
    requires AnswerHeld(a)
    ensures HttpAnswer(op, a).Some? <==> a.status != BallotStore.Retry && CleanAnswer(op, a)
    ensures HttpAnswer(op, a).Some? ==> Lines(AnswerPairs(op, a), true, 7833)
  {
    hide DetailPairs, ResultName, CleanAnswer, BodyText, PlainKey, Clean, AnswerHeld;
    StatusComesBack(a.status);
    if a.status != BallotStore.Retry {
      var name := ResultName(a.status).value;
      AnswerKeysPlain();
      ResultNamePlain(a.status);
      LinesOne("status", name);
      LinesMore([("status", name)], true, 8 + |name|, 33);
      DetailLines(op, a);
      LinesConcat([("status", name)], true, 33, DetailPairs(op, a), CleanAnswer(op, a), 7800);
    }
  }

  // --- The trip ---------------------------------------------------------------------------------

  /** What a client gets from the bytes of an answer. */
  ghost function ReceivedAnswer(http: Response, date: string): Option<Answer>
    requires Reason(http.status).Some?
  {
    match ParseResponse(ResponseText(http, date))
    case Refused(_) => None
    case Good(arrived) => DecodeAnswer(arrived)
  }

  lemma AnswerArrives(op: Op, a: Answer, http: Response, date: string)
    requires AnswerHeld(a) && HttpAnswer(op, a) == Some(http) && DateText(date)
    ensures ParseResponse(ResponseText(http, date)) == Good(http.(headers := ResponseSent(http, date)))
  {
    hide AnswerPairs, AnswerHeld, ParseResponse, ResponseText, BodyText, ResultName, Reason, HttpStatus, LengthHeader;
    assert |LengthHeader(http.body)| <= 1 by { AtMostOne(http.body); }
    ResponseRoundTrip(http, date);
  }

  lemma AnswerRead(op: Op, a: Answer, http: Response)
    requires AnswerHeld(a) && HttpAnswer(op, a) == Some(http)
    ensures ReadPairs(http.body) == AnswerPairs(op, a)
  {
    hide AnswerHeld, DetailPairs, CleanAnswer, BodyText, ReadPairs, PlainKey, Clean, ResultName, Shortened;
    AnswerEncodes(op, a);
    PairsRead(AnswerPairs(op, a));
    NothingShortened(AnswerPairs(op, a));
  }

  lemma AnswerDecodes(op: Op, a: Answer, http: Response)
    requires AnswerHeld(a) && HttpAnswer(op, a) == Some(http) && (CarriesResults(op) ==> PlainRows(a.rows))
    ensures DecodeAnswer(http) == Some(Carried(op, a))
  {
    hide AnswerKv, Fold, ReadPairs, DetailPairs, ResultName, BodyFits, PlainRows, RowsHeld, Ints, BodyText, HttpStatus;
    AnswerRead(op, a, http);
    var start := (NoAnswer(), false);
    FoldCons(AnswerKv, start, "status", ResultName(a.status).value, DetailPairs(op, a));
    StatusKv(start, a.status);
    DetailFold(op, a);
  }

  /** Whatever is read, a row that is kept has a hash without a comma. */
  lemma {:induction false} KeptRowsPlain(c: (Answer, bool), pairs: seq<(string, string)>)
    requires PlainRows(c.0.rows)
    ensures PlainRows(Fold(AnswerKv, c, pairs).0.rows)
    decreases |pairs|
  {
    hide AnswerKv, PlainRows;
    if pairs != [] {
      StepRowsPlain(c, pairs[0].0, pairs[0].1);
      KeptRowsPlain(AnswerKv(c, pairs[0].0, pairs[0].1), pairs[1..]);
    }
  }

  lemma StepRowsPlain(c: (Answer, bool), key: string, value: string)
    requires PlainRows(c.0.rows)
    ensures PlainRows(AnswerKv(c, key, value).0.rows)
  {
    hide Atoi, ResultNamed, ReadTally, StateNamed, Cut, Overwrite, ReadRow;
    if ReadRow(value).Some? {
      assert PlainRows(c.0.rows + [ReadRow(value).value]);
    }
  }

  /** Every answer that can be written comes back with all its operation's fields, exactly when every
      hash it lists is non-empty and free of commas. */
  lemma AnswerComesBack(op: Op, a: Answer, http: Response, date: string)
    requires AnswerHeld(a) && HttpAnswer(op, a) == Some(http) && DateText(date)
    ensures ReceivedAnswer(http, date) == Some(Carried(op, a)) <==> (CarriesResults(op) ==> PlainRows(a.rows))
  {
    hide AnswerHeld, HttpAnswer, ParseResponse, ResponseText, ResponseSent, PlainRows, Fold, AnswerKv, ReadPairs, Reason;
    AnswerArrives(op, a, http, date);
    if CarriesResults(op) ==> PlainRows(a.rows) {
      AnswerDecodes(op, a, http);
    } else {
      assert PlainRows(NoAnswer().rows) by { NoRowsPlain(); }
      KeptRowsPlain((NoAnswer(), false), ReadPairs(http.body));
    }
  }

  /** Every array of the decoded struct within its size. */
  predicate Fits(a: Answer) {
    && |a.id| < ID_LEN && |a.title| < TITLE_LEN && |a.openTime| < TIME_LEN && |a.closeTime| < TIME_LEN
    && |a.receipt| < HASH_LEN && |a.issuedAt| < TIME_LEN && |a.foundName| < OPTION_LEN
    && |a.options| <= MAX_OPTIONS && |a.names| <= MAX_OPTIONS && |a.tally| <= MAX_OPTIONS && |a.rows| <= MAX_VOTERS
  }

  lemma StepFits(c: (Answer, bool), key: string, value: string)
    requires Fits(c.0)
    ensures Fits(AnswerKv(c, key, value).0)
  {
    hide Atoi, ResultNamed, StateNamed, Table, Cut;
    TableFits(c.0, key, value);
  }

  lemma TableFits(a: Answer, key: string, value: string)
    requires Fits(a)
    ensures Fits(Table(a, key, value))
  {
    hide Atoi, ReadRow, ReadTally;
    TallyFitsArray(value, MAX_OPTIONS);
  }

  lemma {:induction false} TallyFitsArray(text: string, room: nat)
    ensures |ReadTally(text, room)| <= room
    decreases room
  {
    hide Atoi, IndexOf;
    if text != [] && room > 0 && IndexOf(text, ',') < |text| {
      TallyFitsArray(text[IndexOf(text, ',') + 1..], room - 1);
    }
  }

  lemma {:induction false} FoldFits(c: (Answer, bool), pairs: seq<(string, string)>)
    requires Fits(c.0)
    ensures Fits(Fold(AnswerKv, c, pairs).0)
    decreases |pairs|
  {
    hide AnswerKv, Fits;
    if pairs != [] {
      StepFits(c, pairs[0].0, pairs[0].1);
      FoldFits(AnswerKv(c, pairs[0].0, pairs[0].1), pairs[1..]);
    }
  }

  /** Whatever bytes a server sends, the decoded answer stays within its arrays, and its two counts within
      what they count. */
  lemma DecodedFits(http: Response)
    ensures DecodeAnswer(http).Some? ==>
              var a := DecodeAnswer(http).value;
              Fits(a) && 0 <= a.rowCount <= |a.rows| && 0 <= a.tallyCount <= MAX_OPTIONS
  {
    hide AnswerKv, Fold, ReadPairs;
    FoldFits((NoAnswer(), false), ReadPairs(http.body));
  }

  lemma NoRowsPlain()
    ensures PlainRows([])
  {
  }
}
