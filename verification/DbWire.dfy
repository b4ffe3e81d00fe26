/**
 * The buffered reader of the database line protocol (core/src/libtetrisdb/wire.c:70-185): lines and
 * whole responses come out the same however the bytes are split into reads.
 */
module DbWire {
  import opened Basics
  const BUFFER := 4096
  const LINE_CAP := 1024

  /** What the descriptor does when the reader next turns to it. */
  datatype Event =
    | Data(bytes: seq<char>)   // a read of 1 to 4096 bytes
    | Again                    // interrupted, or nothing yet
    | Closed                   // read returned 0
    | Broken                   // read or poll failed
    | Late                     // the deadline passed

  datatype LineCode = Line | Eof | Io | TimedOut

  predicate Plausible(feed: seq<Event>) {
    forall i :: 0 <= i < |feed| && feed[i].Data? ==> 0 < |feed[i].bytes| <= BUFFER
  }

  /** The bytes that arrive before the first end condition. */
  function Arriving(feed: seq<Event>): seq<char> {
    if feed == [] then []
    else
      match feed[0]
      case Data(bytes) => bytes + Arriving(feed[1..])
      case Again => Arriving(feed[1..])
      case _ => []
  }

  /** The end condition a reader that wants more than Arriving meets; an exhausted feed is a timeout. */
  function Ending(feed: seq<Event>): LineCode {
    if feed == [] then TimedOut
    else
      match feed[0]
      case Data(_) => Ending(feed[1..])
      case Again => Ending(feed[1..])
      case Closed => Eof
      case Broken => Io
      case Late => TimedOut
  }

  // ---- lines ----

  /** Index of the first newline, or the length if there is none. */
  function Newline(s: seq<char>): (k: nat)
    ensures k <= |s|
    ensures k < |s| ==> s[k] == '\n'
    ensures forall i :: 0 <= i < k ==> s[i] != '\n'
  {
    IndexOf(s, '\n')
  }

  lemma NewlineAfter(a: seq<char>, b: seq<char>)
    requires '\n' !in a
    ensures Newline(a + b) == |a| + Newline(b)
    decreases |a|
  {
    if a == [] {
      assert a + b == b;
    } else {
      assert (a + b)[1..] == a[1..] + b;
      NewlineAfter(a[1..], b);
    }
  }

  /** db_wire_t over a scripted descriptor. */
  class Reader {
    const buf: array<char>
    var len: nat
    var pos: nat
    var feed: seq<Event>

    ghost predicate Valid()
      reads this
    {
      buf.Length == BUFFER && pos <= len <= BUFFER && Plausible(feed)
    }

    /** Everything still to be read: the rest of the buffer, then what will arrive. */
    ghost function Pending(): seq<char>
      requires Valid()
      reads this, buf
    {
      buf[pos..len] + Arriving(feed)
    }

    constructor (script: seq<Event>)
      requires Plausible(script)
      ensures Valid() && Pending() == Arriving(script) && feed == script && fresh(buf)
    {
      buf := new char[BUFFER](i => '\0');
      len, pos, feed := 0, 0, script;
    }

    /** One wait and read: refills the empty buffer, or reports the end condition. */
    method Fill() returns (stop: bool, code: LineCode)
      requires Valid() && pos == len
      modifies this, buf
      ensures Valid()
      ensures stop ==> code == Ending(old(feed)) && old(Pending()) == [] && feed == (if old(feed) == [] then [] else old(feed)[1..])
      ensures !stop ==> Pending() == old(Pending()) && Ending(feed) == Ending(old(feed)) && |feed| < |old(feed)|
    {
      if feed == [] {
        return true, TimedOut;
      }
      var ev := feed[0];
      feed := feed[1..];
      match ev
      case Late => return true, TimedOut;
      case Broken => return true, Io;
      case Closed => return true, Eof;
      case Again => return false, Line;
      case Data(bytes) =>
        forall i | 0 <= i < |bytes| {
          buf[i] := bytes[i];
        }
        len, pos := |bytes|, 0;
        assert buf[pos..len] == bytes;
        return false, Line;
    }

    /** The inner loop: take bytes from the buffer up to and including a newline, or all of them;
        `head` is what came before it. */
    method Drain(cap: nat, line: seq<char>) returns (found: bool, out: seq<char>, ghost head: seq<char>)
      requires Valid() && |line| < cap
      modifies this`pos
      ensures Valid() && '\n' !in head && out == Cut(line + head, cap - 1)
      ensures found ==> old(Pending()) == head + (['\n'] + Pending())
      ensures !found ==> old(Pending()) == head + Pending() && pos == len
      ensures old(pos) < len ==> pos > old(pos)
    {
      hide Arriving, Cut;
      out := line;
      head := [];
      assert line + head == line;
      while pos < len
        invariant pos == old(pos) + |head| <= len
        invariant '\n' !in head && head == buf[old(pos)..pos]
        invariant out == Cut(line + head, cap - 1)
      {
        var c := buf[pos];
        pos := pos + 1;
        if c == '\n' {
          assert buf[old(pos)..len] == head + (['\n'] + buf[pos..len]);
          return true, out, head;
        }
        CutAppend(line + head, c, cap - 1);
        assert (line + head) + [c] == line + (head + [c]);
        if |out| + 1 < cap {
          out := out + [c];
        }
        head := head + [c];
      }
      found := false;
      assert buf[old(pos)..len] == head + buf[pos..len];
    }

    /** db_wire_line: the stream's next line, cut to cap - 1 bytes, and nothing past its newline taken. */
    method ReadLine(cap: nat) returns (code: LineCode, out: seq<char>)
      requires Valid() && cap > 0
      modifies this, buf
      ensures Valid()
      ensures var st := old(Pending());
              var k := Newline(st);
              && (k < |st| ==> code == Line && out == Cut(st[..k], cap - 1)
                               && Pending() == st[k + 1..] && Ending(feed) == Ending(old(feed)))
              && (k == |st| ==> code == Ending(old(feed)) && code != Line)
    {
      hide Newline, Arriving, Ending, Cut, Pending, Read;
      out := [];
      ghost var st := Pending();
      ghost var seen: seq<char> := [];
      ReadNothing(st);
      while true
        invariant Valid() && Read(st, seen, Pending()) && Ending(feed) == Ending(old(feed))
        invariant out == Cut(seen, cap - 1)
        decreases |feed|, len - pos
      {
        if pos == len {
          var stop, end := Fill();
          if stop {
            ReadAll(st, seen);
            EndingIsNotLine(old(feed));
            return end, out;
          }
          continue;
        }
        var found;
        ghost var head;
        found, out, head := Drain(cap, out);
        CutTwice(seen, head, cap - 1);
        if found {
          ReadToNewline(st, seen, head, Pending());
          return Line, out;
        }
        ReadMore(st, seen, head, Pending());
        seen := seen + head;
      }
    }

    /** db_wire_response: the next response's marker meaning and body, stopping right after its marker. */
    method ReadResponse(cap: nat) returns (status: DbStatus, body: seq<char>)
      requires Valid()
      modifies this, buf
      ensures Valid()
      ensures match ResponseOf(old(Pending()))
              case Some((meaning, lines, rest)) =>
                status == meaning && body == BodyOf(lines, cap) && Pending() == rest && Ending(feed) == Ending(old(feed))
              case None =>
                status == (if Ending(old(feed)) == TimedOut then DbTimeout else DbIo)
    {
      hide Pending, Newline, Cut, CStr, ResponseOf, BodyOf, Arriving, Ending;
      body := [];
      ghost var st := Pending();
      ghost var lines: seq<seq<char>> := [];
      BodyOfNone(cap);
      StartResponse(st);
      while true
        invariant Valid() && Ending(feed) == Ending(old(feed))
        invariant Continues(st, lines, Pending()) && body == BodyOf(lines, cap)
        decreases |Pending()|
      {
        ghost var left := Pending();
        var code, text := ReadLine(LINE_CAP);
        if code != Line {
          NoMoreLines(st, lines, left);
          return if code == TimedOut then DbTimeout else DbIo, body;
        }
        var line := CStr(text);
        if StartsWithMark(line) {
          MarkerLine(st, lines, left);
          return Classify(line), body;
        }
        BodyLine(st, lines, left);
        BodyOfMore(lines, line, cap);
        if |body| + 1 < cap {
          var room := cap - |body|;
          var more := (if |body| > 0 then ['\n'] else []) + line;
          body := body + Cut(more, room - 1);
        }
        lines := lines + [line];
      }
    }
  }

  /** `seen` is a newline-free beginning of the stream and `left` is the rest. */
  ghost predicate Read(st: seq<char>, seen: seq<char>, left: seq<char>) {
    st == seen + left && '\n' !in seen
  }

  lemma ReadNothing(st: seq<char>)
    ensures Read(st, [], st)
  {
  }

  lemma ReadMore(st: seq<char>, seen: seq<char>, head: seq<char>, left: seq<char>)
    requires Read(st, seen, head + left) && '\n' !in head
    ensures Read(st, seen + head, left)
  {
    assert seen + (head + left) == (seen + head) + left;
  }

  lemma ReadAll(st: seq<char>, seen: seq<char>)
    requires Read(st, seen, [])
    ensures Newline(st) == |st|
  {
    assert seen + [] == seen;
    NewlineAfter(seen, []);
  }

  /** Where the first line ends once a newline turns up. */
  lemma ReadToNewline(st: seq<char>, seen: seq<char>, head: seq<char>, left: seq<char>)
    requires Read(st, seen, head + (['\n'] + left)) && '\n' !in head
    ensures var k := |seen| + |head|;
            Newline(st) == k < |st| && st[..k] == seen + head && st[k + 1..] == left
  {
    hide Newline;
    ReadMore(st, seen, head, ['\n'] + left);
    NewlineAt(seen + head, ['\n'] + left);
  }

  lemma CutAppend(s: seq<char>, c: char, n: nat)
    ensures Cut(s + [c], n) == if |Cut(s, n)| < n then Cut(s, n) + [c] else Cut(s, n)
  {
  }

  lemma CutTwice(a: seq<char>, b: seq<char>, n: nat)
    ensures Cut(Cut(a, n) + b, n) == Cut(a + b, n)
  {
  }

  /** A newline after a newline-free stretch is the first one. */
  lemma NewlineAt(a: seq<char>, b: seq<char>)
    requires '\n' !in a && b != [] && b[0] == '\n'
    ensures Newline(a + b) == |a| && (a + b)[..|a|] == a && (a + b)[|a| + 1..] == b[1..]
  {
    NewlineAfter(a, b);
  }

  lemma {:induction false} EndingIsNotLine(feed: seq<Event>)
    ensures Ending(feed) != Line
  {
    if feed != [] {
      EndingIsNotLine(feed[1..]);
    }
  }

  // ---- responses ----

  datatype DbStatus = DbOk | DbRetry | DbError | DbTimeout | DbIo

  const MARK := "<<END "

  predicate StartsWithMark(line: seq<char>) {
    MARK <= line
  }

  /** classify */
  function Classify(line: seq<char>): DbStatus {
    if line == "<<END ok>>" then DbOk else if line == "<<END retry>>" then DbRetry else DbError
  }

  /** The line as db_wire_response sees it. */
  function Seen(line: seq<char>): seq<char> {
    CStr(Cut(line, LINE_CAP - 1))
  }

  /** The first complete response in a stream: its marker's meaning, the lines above it, what follows. */
  function ResponseOf(st: seq<char>): Option<(DbStatus, seq<seq<char>>, seq<char>)>
    decreases |st|
  {
    var k := Newline(st);
    if k == |st| then None
    else
      var line := Seen(st[..k]);
      if StartsWithMark(line) then Some((Classify(line), [], st[k + 1..]))
      else
        match ResponseOf(st[k + 1..])
        case None => None
        case Some((meaning, lines, rest)) => Some((meaning, [line] + lines, rest))
  }

  /** Lines joined by newlines. */
  function Join(lines: seq<seq<char>>): seq<char> {
    if lines == [] then []
    else if |lines| == 1 then lines[0]
    else Join(lines[..|lines| - 1]) + ['\n'] + lines[|lines| - 1]
  }

  /** The separator is written only once something has been stored, so leading empty lines vanish. */
  function SkipEmpty(lines: seq<seq<char>>): seq<seq<char>> {
    if lines == [] || lines[0] != [] then lines else SkipEmpty(lines[1..])
  }

  /** The body a buffer of the given capacity ends up with. */
  function BodyOf(lines: seq<seq<char>>, cap: nat): seq<char> {
    if cap == 0 then [] else Cut(Join(SkipEmpty(lines)), cap - 1)
  }

  // ---- the loop's bookkeeping ----

  /** `lines` have been read off the stream's first response, none of them a marker, and `left` follows. */
  ghost predicate Continues(st: seq<char>, lines: seq<seq<char>>, left: seq<char>) {
    ResponseOf(st) == match ResponseOf(left)
                      case None => None
                      case Some((meaning, more, rest)) => Some((meaning, lines + more, rest))
  }

  lemma StartResponse(st: seq<char>)
    ensures Continues(st, [], st)
  {
    hide ResponseOf;
    match ResponseOf(st)
    case None =>
    case Some((meaning, lines, rest)) => assert [] + lines == lines;
  }

  lemma NoMoreLines(st: seq<char>, lines: seq<seq<char>>, left: seq<char>)
    requires Continues(st, lines, left) && Newline(left) == |left|
    ensures ResponseOf(st) == None
  {
  }

  lemma MarkerLine(st: seq<char>, lines: seq<seq<char>>, left: seq<char>)
    requires Continues(st, lines, left) && Newline(left) < |left| && StartsWithMark(Seen(left[..Newline(left)]))
    ensures ResponseOf(st) == Some((Classify(Seen(left[..Newline(left)])), lines, left[Newline(left) + 1..]))
  {
    hide CStr;
    assert lines + [] == lines;
  }

  lemma BodyLine(st: seq<char>, lines: seq<seq<char>>, left: seq<char>)
    requires Continues(st, lines, left) && Newline(left) < |left| && !StartsWithMark(Seen(left[..Newline(left)]))
    ensures Continues(st, lines + [Seen(left[..Newline(left)])], left[Newline(left) + 1..])
  {
    hide CStr, StartsWithMark, ResponseOf, Newline, Seen;
    ResponseUnfold(left);
    var line := Seen(left[..Newline(left)]);
    match ResponseOf(left[Newline(left) + 1..])
    case None =>
    case Some((meaning, more, rest)) =>
      assert (lines + [line]) + more == lines + ([line] + more);
  }

  lemma ResponseUnfold(left: seq<char>)
    requires Newline(left) < |left| && !StartsWithMark(Seen(left[..Newline(left)]))
    ensures ResponseOf(left) == match ResponseOf(left[Newline(left) + 1..])
                                case None => None
                                case Some((meaning, more, rest)) =>
                                  Some((meaning, [Seen(left[..Newline(left)])] + more, rest))
  {
    hide CStr, StartsWithMark, Newline, Seen;
  }

  lemma BodyOfNone(cap: nat)
    ensures BodyOf([], cap) == []
  {
  }

  lemma {:induction false} SkipEmptyAppend(lines: seq<seq<char>>, line: seq<char>)
    ensures SkipEmpty(lines + [line]) == if SkipEmpty(lines) == [] then SkipEmpty([line]) else SkipEmpty(lines) + [line]
  {
    if lines == [] {
      assert lines + [line] == [line];
    } else if lines[0] == [] {
      assert (lines + [line])[1..] == lines[1..] + [line];
      SkipEmptyAppend(lines[1..], line);
    }
  }

  /** Once a line has been kept the joined text is not empty. */
  lemma {:induction false} JoinNonEmpty(lines: seq<seq<char>>)
    requires lines != [] && lines[0] != []
    ensures Join(lines) != []
  {
    if |lines| > 1 {
      JoinNonEmpty(lines[..|lines| - 1]);
    }
  }

  lemma SkipEmptyFirst(lines: seq<seq<char>>)
    ensures SkipEmpty(lines) != [] ==> SkipEmpty(lines)[0] != []
  {
  }

  /** One more line: the code's conditional append is the join of the longer list, cut. */
  lemma BodyOfMore(lines: seq<seq<char>>, line: seq<char>, cap: nat)
    ensures var body := BodyOf(lines, cap);
            BodyOf(lines + [line], cap)
            == if |body| + 1 < cap then body + Cut((if |body| > 0 then ['\n'] else []) + line, cap - |body| - 1) else body
  {
    hide SkipEmpty, Join;
    if cap > 0 {
      JoinMore(lines, line);
      SkipEmptyFirst(lines);
      var text := Join(SkipEmpty(lines));
      var more := (if text != [] then ['\n'] else []) + line;
      CutMore(text, more, cap - 1);
    }
  }

  lemma CutMore(a: seq<char>, b: seq<char>, n: nat)
    ensures Cut(a + b, n) == if |Cut(a, n)| < n then Cut(a, n) + Cut(b, n - |Cut(a, n)|) else Cut(a, n)
  {
  }

  lemma JoinMore(lines: seq<seq<char>>, line: seq<char>)
    ensures var text := Join(SkipEmpty(lines));
            Join(SkipEmpty(lines + [line])) == text + ((if text != [] then ['\n'] else []) + line)
  {
    SkipEmptyAppend(lines, line);
    SkipEmptyFirst(lines);
    var kept := SkipEmpty(lines);
    if kept == [] {
      assert SkipEmpty([line]) == if line == [] then [] else [line];
    } else {
      JoinNonEmpty(kept);
      assert (kept + [line])[..|kept|] == kept;
      assert Join(kept) + ['\n'] + line == Join(kept) + (['\n'] + line);
    }
  }

  // ---- what a server writes comes back ----

  /** A response as the runner prints it: its lines, then the marker line. */
  function Printed(lines: seq<seq<char>>, marker: seq<char>): seq<char> {
    if lines == [] then marker + ['\n'] else lines[0] + ['\n'] + Printed(lines[1..], marker)
  }

  /** Text that stays on one line, is a C string, and is not taken for a marker. */
  predicate PlainLine(line: seq<char>) {
    '\n' !in line && '\0' !in line && !StartsWithMark(line)
  }

  predicate MarkerText(marker: seq<char>) {
    '\n' !in marker && '\0' !in marker && StartsWithMark(marker) && |marker| < LINE_CAP
  }

  /** Cutting a line to 1023 bytes never makes a marker of it, nor unmakes one. */
  lemma CutKeepsMark(line: seq<char>)
    requires '\0' !in line
    ensures StartsWithMark(Seen(line)) <==> StartsWithMark(line)
  {
    var t := Cut(line, LINE_CAP - 1);
    assert '\0' !in t;
    if StartsWithMark(line) {
      assert line[..6] == MARK && t[..6] == line[..6];
    }
    if StartsWithMark(t) {
      assert t[..6] == MARK && t[..6] == line[..6];
    }
  }

  lemma SeenPlain(line: seq<char>)
    requires '\0' !in line
    ensures Seen(line) == Cut(line, LINE_CAP - 1)
  {
    assert '\0' !in Cut(line, LINE_CAP - 1);
  }

  lemma ReadMarker(marker: seq<char>, rest: seq<char>)
    requires MarkerText(marker)
    ensures ResponseOf(marker + (['\n'] + rest)) == Some((Classify(marker), [], rest))
  {
    hide Newline, CStr, Cut, StartsWithMark;
    NewlineAt(marker, ['\n'] + rest);
    SeenPlain(marker);
    CutKeepsMark(marker);
  }

  lemma ReadPlain(line: seq<char>, more: seq<char>)
    requires PlainLine(line)
    ensures ResponseOf(line + (['\n'] + more))
            == match ResponseOf(more)
               case None => None
               case Some((meaning, lines, rest)) => Some((meaning, [Cut(line, LINE_CAP - 1)] + lines, rest))
  {
    hide Newline, CStr, Cut, StartsWithMark, ResponseOf, Seen;
    NewlineAt(line, ['\n'] + more);
    SeenPlain(line);
    CutKeepsMark(line);
    ResponseUnfold(line + (['\n'] + more));
  }

  /** Successive responses stay aligned: reading takes exactly one printed response off the stream,
      giving its lines (each cut to 1023 bytes) and its marker's meaning. */
  lemma {:induction false} PrintedIsRead(lines: seq<seq<char>>, marker: seq<char>, rest: seq<char>)
    requires MarkerText(marker) && forall i :: 0 <= i < |lines| ==> PlainLine(lines[i])
    ensures ResponseOf(Printed(lines, marker) + rest) == Some((Classify(marker), CutAll(lines), rest))
    decreases |lines|
  {
    hide ResponseOf, Cut, MarkerText, PlainLine, Classify;
    if lines == [] {
      assert Printed(lines, marker) + rest == marker + (['\n'] + rest);
      ReadMarker(marker, rest);
    } else {
      var more := Printed(lines[1..], marker) + rest;
      assert Printed(lines, marker) + rest == lines[0] + (['\n'] + more);
      ReadPlain(lines[0], more);
      PrintedIsRead(lines[1..], marker, rest);
    }
  }

  /** The marker a backend writes for a verdict. */
  function MarkerOf(verdict: seq<char>): seq<char> {
    MARK + (verdict + ">>")
  }

  /** A caller hears the verdict that was printed: all is well exactly on "ok", another try is asked for
      exactly on "retry", and every other verdict is an error. */
  lemma VerdictHeard(lines: seq<seq<char>>, verdict: seq<char>, rest: seq<char>)
    requires MarkerText(MarkerOf(verdict)) && forall i :: 0 <= i < |lines| ==> PlainLine(lines[i])
    ensures var r := ResponseOf(Printed(lines, MarkerOf(verdict)) + rest);
            && r.Some? && r.value.1 == CutAll(lines) && r.value.2 == rest
            && (r.value.0 == DbOk <==> verdict == "ok") && (r.value.0 == DbRetry <==> verdict == "retry")
            && (r.value.0 == DbError <==> verdict != "ok" && verdict != "retry")
  {
    hide ResponseOf, MarkerText, PlainLine, Printed, CutAll;
    PrintedIsRead(lines, MarkerOf(verdict), rest);
    var m := MarkerOf(verdict);
    assert m[6..|m| - 2] == verdict;
    assert "<<END ok>>"[6..8] == "ok" && "<<END retry>>"[6..11] == "retry";
    assert verdict == "ok" ==> m == "<<END ok>>";
    assert verdict == "retry" ==> m == "<<END retry>>";
  }

  function CutAll(lines: seq<seq<char>>): seq<seq<char>> {
    if lines == [] then [] else [Cut(lines[0], LINE_CAP - 1)] + CutAll(lines[1..])
  }
}
