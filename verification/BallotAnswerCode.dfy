/**
 * The codec's loops for answers (ballotbox/src/libballotclient/codec.c:460-569, 578-676), on the body
 * cursor and the line walk that requests use.
 */
module BallotAnswerCode {
  import opened Basics
  import opened Decimal
  import opened Htttp
  import opened HtttpLaws
  import opened HtttpCode
  import opened BallotCodec
  import opened BallotCodecCode
  import opened BallotReply
  import opened BallotAnswer
  import opened BallotAnswerTrip

  // --- Encoding ---------------------------------------------------------------------------------

  lemma {:induction false} TallyTextMore(tally: seq<int>, i: nat)
    requires i < |tally|
    ensures TallyText(tally[..i + 1]) == TallyText(tally[..i]) + ((if i > 0 then "," else "") + PrintInt(tally[i]))
    decreases i
  {
    hide PrintInt;
    if i > 0 {
      var rest := tally[1..];
      assert tally[..i + 1][1..] == rest[..i] && tally[..i][1..] == rest[..i - 1];
      TallyTextMore(rest, i - 1);
      if i == 1 {
        assert rest[..0] == [];
      }
    } else {
      assert tally[..0] == [] && tally[..1] == [tally[0]];
    }
  }

  lemma {:induction false} TallyTextGrows(tally: seq<int>, i: nat)
    requires i <= |tally|
    ensures |TallyText(tally[..i])| <= |TallyText(tally)|
    decreases |tally| - i
  {
    hide PrintInt, TallyText;
    if i < |tally| {
      TallyTextMore(tally, i);
      TallyTextGrows(tally, i + 1);
    } else {
      assert tally[..i] == tally;
    }
  }

  lemma PieceWhole(n: int, first: bool)
    requires IsInt(n)
    ensures !Broken((if first then "" else ",") + PrintInt(n))
  {
    hide PrintInt;
    PrintIntPlain(n);
  }

  /** The tally line, written number by number. */
  method PutTally(body: Body, tally: seq<int>, ghost rest: seq<(string, string)>, ghost whole: seq<(string, string)>)
    returns (ok: bool)
    requires body.Valid() && Ints(tally) && Pending(body.Text(), [("tally", TallyText(tally))] + rest, whole)
    modifies body, body.buf
    ensures body.Valid()
    ensures ok ==> Pending(body.Text(), rest, whole)
    ensures !ok ==> !Writable([], whole)
  {
    hide Writable, BodyText, Pending, TallyText, PrintInt, Broken;
    ghost var start := body.Text();
    TallyFits(start, tally, rest, whole);
    ok := body.Append("tally=");
    if !ok {
      return;
    }
    ok := PutNumbers(body, tally);
    if !ok {
      return;
    }
    ok := body.Append("\n");
    if !ok {
      return;
    }
    assert body.Text() == start + LineText("tally", TallyText(tally));
  }

  /** The numbers behind what is already written, with commas between them. */
  method PutNumbers(body: Body, tally: seq<int>) returns (ok: bool)
    requires body.Valid() && Ints(tally)
    modifies body, body.buf
    ensures body.Valid()
    ensures ok <==> |old(body.Text())| + |TallyText(tally)| < BODY_MAX
    ensures ok ==> body.Text() == old(body.Text()) + TallyText(tally)
  {
    hide TallyText, PrintInt, Broken;
    ghost var start := body.Text();
    NoNumbers();
    assert tally[..0] == [] && start + [] == start;
    var i := 0;
    while i < |tally|
      invariant 0 <= i <= |tally| && body.Valid()
      invariant body.Text() == start + TallyText(tally[..i])
    {
      var piece := (if i > 0 then "," else "") + PrintInt(tally[i]);
      TallyTextMore(tally, i);
      TallyTextGrows(tally, i + 1);
      PieceWhole(tally[i], i == 0);
      ok := body.Append(piece);
      if !ok {
        return;
      }
      i := i + 1;
    }
    assert tally[..|tally|] == tally;
    ok := true;
  }

  lemma NoNumbers()
    ensures TallyText([]) == []
  {
  }

  /** The pieces of the line fit one after the other exactly when the line does. */
  lemma TallyFits(start: string, tally: seq<int>, rest: seq<(string, string)>, whole: seq<(string, string)>)
    requires |start| < BODY_MAX && Ints(tally) && Pending(start, [("tally", TallyText(tally))] + rest, whole)
    ensures Writable([], whole) ==> |start| + 7 + |TallyText(tally)| < BODY_MAX
    ensures |start| + 7 + |TallyText(tally)| < BODY_MAX ==> Pending(start + LineText("tally", TallyText(tally)), rest, whole)
    ensures !Broken("tally=") && !Broken("\n")
  {
    hide Writable, BodyText, Pending, TallyText;
    TallyTextPlain(tally);
    OnePair(start, "tally", TallyText(tally));
    PendingStep(start, [("tally", TallyText(tally))], rest, whole);
  }

  /** The times, and what the voter already has. */
  method PutHistory(body: Body, a: Answer, ghost rest: seq<(string, string)>, ghost whole: seq<(string, string)>)
    returns (ok: bool)
    requires body.Valid()
    requires Pending(body.Text(), [("open_time", a.openTime)] + ([("close_time", a.closeTime)]
                                  + ([("has_prior_ballot", PrintInt(a.hasBallot))]
                                  + ([("prior_ballot_version", PrintInt(a.version))] + rest))), whole)
    modifies body, body.buf
    ensures body.Valid()
    ensures ok ==> Pending(body.Text(), rest, whole)
    ensures !ok ==> !Writable([], whole)
  {
    hide Pending, Writable, BodyText, PrintInt;
    ghost var r3 := [("prior_ballot_version", PrintInt(a.version))] + rest;
    ghost var r2 := [("has_prior_ballot", PrintInt(a.hasBallot))] + r3;
    ghost var r1 := [("close_time", a.closeTime)] + r2;
    ok := PutNext(body, "open_time", a.openTime, r1, whole);
    if !ok { return; }
    ok := PutNext(body, "close_time", a.closeTime, r2, whole);
    if !ok { return; }
    ok := PutNext(body, "has_prior_ballot", PrintInt(a.hasBallot), r3, whole);
    if !ok { return; }
    ok := PutNext(body, "prior_ballot_version", PrintInt(a.version), rest, whole);
  }

  method PutJoin(body: Body, a: Answer, ghost whole: seq<(string, string)>) returns (ok: bool)
    requires body.Valid() && Pending(body.Text(), JoinPairs(a), whole)
    modifies body, body.buf
    ensures body.Valid() && Done(ok, body.Text(), whole)
  {
    hide Pending, Writable, Keyed, BodyText, PrintInt, StateName;
    ghost var r7 := Keyed("option", a.options);
    ghost var r6 := [("prior_ballot_version", PrintInt(a.version))] + r7;
    ghost var r5 := [("has_prior_ballot", PrintInt(a.hasBallot))] + r6;
    ghost var r4 := [("close_time", a.closeTime)] + r5;
    ghost var r3 := [("open_time", a.openTime)] + r4;
    ghost var r2 := [("state", StateName(a.state))] + r3;
    ghost var r1 := [("title", a.title)] + r2;
    ok := PutNext(body, "election_id", a.id, r1, whole);
    if !ok { return; }
    ok := PutNext(body, "title", a.title, r2, whole);
    if !ok { return; }
    ok := PutNext(body, "state", StateName(a.state), r3, whole);
    if !ok { return; }
    ok := PutHistory(body, a, r7, whole);
    if !ok { return; }
    assert r7 == r7 + [];
    ok := PutMany(body, "option", a.options, [], whole);
    if !ok { return; }
    DoneWhen(body.Text(), whole);
  }

  method PutTallies(body: Body, a: Answer, ghost rest: seq<(string, string)>, ghost whole: seq<(string, string)>)
    returns (ok: bool)
    requires body.Valid() && Ints(a.tally) && Pending(body.Text(), TallyPairs(a) + rest, whole)
    modifies body, body.buf
    ensures body.Valid()
    ensures ok ==> Pending(body.Text(), rest, whole)
    ensures !ok ==> !Writable([], whole)
  {
    hide Pending, Writable, Keyed, BodyText, TallyText;
    if a.tallyCount <= 0 {
      assert TallyPairs(a) + rest == rest;
      return true;
    }
    ghost var names := Keyed("result_option", a.names) + rest;
    assert TallyPairs(a) + rest == [("tally", TallyText(a.tally))] + names;
    ok := PutTally(body, a.tally, names, whole);
    if !ok { return; }
    ok := PutMany(body, "result_option", a.names, rest, whole);
  }

  method PutResults(body: Body, a: Answer, ghost whole: seq<(string, string)>) returns (ok: bool)
    requires body.Valid() && Ints(a.tally) && Pending(body.Text(), ResultsPairs(a), whole)
    modifies body, body.buf
    ensures body.Valid() && Done(ok, body.Text(), whole)
  {
    hide Pending, Writable, Keyed, BodyText, PrintInt, TallyPairs, RowTexts;
    ghost var r5 := Keyed("row", RowTexts(a.rows));
    ghost var r4 := [("hash_count", PrintInt(a.rowCount))] + r5;
    ghost var r3 := TallyPairs(a) + r4;
    ghost var r2 := [("tally_count", PrintInt(a.tallyCount))] + r3;
    ghost var r1 := [("title", a.title)] + r2;
    ok := PutNext(body, "election_id", a.id, r1, whole);
    if !ok { return; }
    ok := PutNext(body, "title", a.title, r2, whole);
    if !ok { return; }
    ok := PutNext(body, "tally_count", PrintInt(a.tallyCount), r3, whole);
    if !ok { return; }
    ok := PutTallies(body, a, r4, whole);
    if !ok { return; }
    ok := PutNext(body, "hash_count", PrintInt(a.rowCount), r5, whole);
    if !ok { return; }
    assert r5 == r5 + [];
    ok := PutMany(body, "row", RowTexts(a.rows), [], whole);
    if !ok { return; }
    DoneWhen(body.Text(), whole);
  }

  method PutCheck(body: Body, a: Answer, ghost whole: seq<(string, string)>) returns (ok: bool)
    requires body.Valid() && Pending(body.Text(), CheckPairs(a), whole)
    modifies body, body.buf
    ensures body.Valid() && Done(ok, body.Text(), whole)
  {
    hide Pending, Writable, BodyText, PrintInt;
    ghost var last := [("found_option_name", a.foundName)];
    ghost var rest := if a.found == 0 then [] else [("found_option", PrintInt(a.foundOption))] + last;
    ok := PutNext(body, "found", PrintInt(a.found), rest, whole);
    if !ok { return; }
    if a.found != 0 {
      ok := PutNext(body, "found_option", PrintInt(a.foundOption), last, whole);
      if !ok { return; }
      assert last == last + [];
      ok := PutNext(body, "found_option_name", a.foundName, [], whole);
      if !ok { return; }
    }
    DoneWhen(body.Text(), whole);
  }

  method PutReceipt(body: Body, a: Answer, ghost whole: seq<(string, string)>) returns (ok: bool)
    requires body.Valid() && Pending(body.Text(), [("hash", a.receipt)] + [("issued_at", a.issuedAt)], whole)
    modifies body, body.buf
    ensures body.Valid() && Done(ok, body.Text(), whole)
  {
    hide Pending, Writable, BodyText;
    ghost var last := [("issued_at", a.issuedAt)];
    ok := PutNext(body, "hash", a.receipt, last, whole);
    if !ok { return; }
    assert last == last + [];
    ok := PutNext(body, "issued_at", a.issuedAt, [], whole);
    if !ok { return; }
    DoneWhen(body.Text(), whole);
  }

  method PutNewId(body: Body, a: Answer, ghost whole: seq<(string, string)>) returns (ok: bool)
    requires body.Valid() && Pending(body.Text(), [("election_id", a.id)], whole)
    modifies body, body.buf
    ensures body.Valid() && Done(ok, body.Text(), whole)
  {
    hide Pending, Writable, BodyText;
    assert [("election_id", a.id)] == [("election_id", a.id)] + [];
    ok := PutNext(body, "election_id", a.id, [], whole);
    if !ok { return; }
    DoneWhen(body.Text(), whole);
  }

  /** What follows the status line, operation by operation. */
  method PutDetail(body: Body, op: Op, a: Answer, ghost whole: seq<(string, string)>) returns (ok: bool)
    requires body.Valid() && Ints(a.tally) && Pending(body.Text(), DetailPairs(op, a), whole)
    modifies body, body.buf
    ensures body.Valid() && Done(ok, body.Text(), whole)
  {
    hide Pending, JoinPairs, ResultsPairs, CheckPairs, Done, Ints;
    if op.Create? || op.AdminNextId? {
      if a.id != [] {
        ok := PutNewId(body, a, whole);
        return;
      }
    } else if op.Join? {
      if a.id != [] {
        ok := PutJoin(body, a, whole);
        return;
      }
    } else if op.Cast? || op.Update? {
      if a.receipt != [] {
        ok := PutReceipt(body, a, whole);
        return;
      }
    } else if op.Results? || op.AdminResults? {
      ok := PutResults(body, a, whole);
      return;
    } else if op.Check? || op.AdminCheck? {
      ok := PutCheck(body, a, whole);
      return;
    }
    DoneWhen(body.Text(), whole);
    ok := true;
  }

  /** Succeeds exactly when the answer can be written and its whole text fits. */
  method EncodeAnswer(op: Op, a: Answer, output: Output, date: string) returns (ok: bool)
    requires AnswerHeld(a) && output.Valid() && output.off == 0
    modifies output, output.out
    ensures output.Valid()
    ensures ok <==> HttpAnswer(op, a).Some? && |ResponseText(HttpAnswer(op, a).value, date)| <= output.cap
    ensures ok ==> output.Written() == ResponseText(HttpAnswer(op, a).value, date)
  {
    hide DetailPairs, ResultName, BodyText, HttpStatus, RowsHeld, ResponseText, PutResponse, Reason, Pending, Emitted, Ints;
    var name := ResultName(a.status);
    if name == None {
      return false;
    }
    ghost var whole := AnswerPairs(op, a);
    NothingDone(whole);
    var body := new Body();
    ok := PutNext(body, "status", name.value, DetailPairs(op, a), whole);
    if ok {
      ok := PutDetail(body, op, a, whole);
    }
    if !ok {
      return;
    }
    var http := Response(HttpStatus(a.status), [], body.buf[..body.off]);
    assert HttpAnswer(op, a) == Some(http);
    NothingEmitted();
    ResponseFits(http, date, output.cap);
    var refused := output.SerializeResponse(http, date);
    ok := refused == None;
  }

  lemma NothingEmitted()
    ensures Emitted([], true) == [] && GoodHeaders([])
  {
  }

  // --- Decoding ---------------------------------------------------------------------------------

  method DecodeResponse(http: Response) returns (a: Option<Answer>)
    ensures a == DecodeAnswer(http)
  {
    hide AnswerKv, Fold, ReadPairs;
    var c := ForEach(http.body, AnswerKv, (NoAnswer(), false));
    var answer := c.0;
    if answer.rowCount < 0 || answer.rowCount > |answer.rows| {
      answer := answer.(rowCount := |answer.rows|);
    }
    if answer.tallyCount < 0 || answer.tallyCount > MAX_OPTIONS {
      answer := answer.(tallyCount := |answer.names|);
    }
    return if c.1 then Some(answer) else None;
  }
}
