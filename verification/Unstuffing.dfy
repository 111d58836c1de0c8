/** What the unstuffer hands over of any stream, stuffed or not (pop3_multi.c). */
module Unstuffing {
  import opened Bytes
  import opened Lines
  import opened Pop3Multi
  import DotStuffing

  // ----- The stream, read off -----

  /** A line start that the automaton notices; open tells whether the stream begins at one. */
  predicate StartsLine(open: bool, p: seq<byte>) {
    if p == [] then open else DotStuffing.NoticedLineStart(p)
  }

  /** A dot that opens a line. */
  predicate OpeningDot(open: bool, p: seq<byte>) {
    p != [] && Last(p) == DOT && StartsLine(open, Front(p))
  }

  /** A line that is a dot and CRLF. */
  predicate EndsAt(open: bool, p: seq<byte>) {
    |p| >= 3 && p[|p| - 2..] == CRLF && OpeningDot(open, p[..|p| - 2])
  }

  predicate Ended(open: bool, p: seq<byte>) {
    p != [] && (Ended(open, Front(p)) || EndsAt(open, p))
  }

  /** All octets but the dots that open lines. */
  function Text(open: bool, p: seq<byte>): seq<byte> {
    if p == [] then [] else Text(open, Front(p)) + if OpeningDot(open, p) then [] else [Last(p)]
  }

  // ----- The automaton on it -----

  function StateAfter(open: bool, p: seq<byte>): nat {
    if StartsLine(open, p) then NEWLINE
    else if OpeningDot(open, p) then IN_DOT
    else if CrRun(p) % 2 == 0 then BYTE
    else if OpeningDot(open, Front(p)) then DOT_CR
    else IN_CR
  }

  /** Beginning with start, p has been received. */
  predicate Received(start: Delivery, open: bool, p: seq<byte>, d: Delivery) {
    d.state == StateAfter(open, p) && d.ended == start.ended && DotStuffing.Got(d) == start.body + Text(open, p)
  }

  lemma StateAfterPush(open: bool, p: seq<byte>, c: byte, s: nat)
    requires s == StateAfter(open, p)
    ensures StateAfter(open, p + [c]) ==
              if c == LF && (s == IN_CR || s == DOT_CR) then NEWLINE
              else if c == DOT && s == NEWLINE then IN_DOT
              else if c == CR && s == IN_DOT then DOT_CR
              else if c == CR && (s == NEWLINE || s == BYTE) then IN_CR
              else BYTE
    ensures OpeningDot(open, p + [c]) <==> c == DOT && s == NEWLINE
    ensures EndsAt(open, p + [c]) <==> c == LF && s == DOT_CR
  {
    var q := p + [c];
    assert Front(q) == p && Last(q) == c;
    assert CrRun(q) == if c == CR then 1 + CrRun(p) else 0;
    assert OpeningDot(open, q) <==> c == DOT && StartsLine(open, p);
    if p != [] {
      assert q[..|q| - 2] == Front(p);
      assert q[|q| - 2..] == [Last(p), c];
    }
  }

  lemma PlainStep(start: Delivery, open: bool, p: seq<byte>, c: byte, d: Delivery)
    requires Received(start, open, p, d) && !EndsAt(open, p + [c])
    ensures Received(start, open, p + [c], Advance(d, c))
  {
    StateAfterPush(open, p, c, d.state);
    assert Front(p + [c]) == p;
    Assoc(start.body, Text(open, p), [c]);
    EmptyConcat(Text(open, p));
  }

  lemma EndStep(start: Delivery, open: bool, p: seq<byte>, c: byte, d: Delivery)
    requires Received(start, open, p, d) && EndsAt(open, p + [c])
    ensures |p| >= 2 && Advance(d, c) == Delivery(FIN, [], start.ended + [start.body + Text(open, p[..|p| - 2])])
  {
    StateAfterPush(open, p, c, d.state);
    var f := Front(p);
    assert (p + [c])[..|p| - 1] == f && (p + [c])[|p| - 1..] == [Last(p), c];
    assert Last(p) == CR && Front(f) == p[..|p| - 2];
    EmptyConcat(Text(open, Front(f)));
    assert Text(open, p) == Text(open, Front(f)) + [CR];
    Assoc(start.body, Text(open, Front(f)), [CR]);
    assert (d.body + [CR])[..|d.body|] == d.body;
  }

  /** What is there after x: up to the first line that is a dot alone, all octets but the dots that open lines; at its end, the message. */
  predicate Delivered(start: Delivery, open: bool, x: seq<byte>, d: Delivery) {
    && (!Ended(open, x) ==> Received(start, open, x, d))
    && (EndsAt(open, x) && !Ended(open, Front(x)) ==>
          d == Delivery(FIN, [], start.ended + [start.body + Text(open, x[..|x| - 3])]))
  }

  lemma DeliveredStep(start: Delivery, open: bool, f: seq<byte>, c: byte, d: Delivery)
    requires Delivered(start, open, f, d)
    ensures Delivered(start, open, f + [c], Advance(d, c))
  {
    var x := f + [c];
    assert Front(x) == f;
    if !Ended(open, f) {
      if EndsAt(open, x) {
        EndStep(start, open, f, c, d);
        assert f[..|f| - 2] == x[..|x| - 3];
      } else {
        PlainStep(start, open, f, c, d);
      }
    }
  }

  /** Whatever comes, that is what is handed over. */
  lemma {:induction false} Unstuffs(start: Delivery, open: bool, x: seq<byte>)
    requires start.state == if open then NEWLINE else BYTE
    ensures Delivered(start, open, x, Receive(start, x))
  {
    if x == [] {
      EmptyConcat(start.body);
    } else {
      Unstuffs(start, open, Front(x));
      DeliveredStep(start, open, Front(x), Last(x), Receive(start, Front(x)));
      FrontLast(x);
    }
  }

  /** Whatever comes first after the end of a message has a CR put before it, and opens no line. */
  lemma NextMessage(d: Delivery, c: byte, x: seq<byte>)
    requires d.state == FIN && d.body == []
    ensures Delivered(Delivery(BYTE, [CR, c], d.ended), false, x, Receive(d, [c] + x))
  {
    var start := Delivery(BYTE, [CR, c], d.ended);
    assert Receive(d, []) == d && Front([c]) == [] && [] + [CR] + [c] == [CR, c];
    assert Receive(d, [c]) == start;
    ReceiveConcat(d, [c], x);
    Unstuffs(start, false, x);
  }

  // ----- Streams of lines -----

  /** A line without the dot that opens it. */
  function Bare(line: seq<byte>): seq<byte> {
    if line != [] && line[0] == DOT then line[1..] else line
  }

  function AllBare(lines: seq<seq<byte>>): seq<seq<byte>> {
    if lines == [] then [] else AllBare(Front(lines)) + [Bare(Last(lines))]
  }

  /** Lines without CRs, and none of them the end. */
  predicate NoEnd(lines: seq<seq<byte>>) {
    forall i :: 0 <= i < |lines| ==> CR !in lines[i] && lines[i] != [DOT]
  }

  /** Between lines, with nothing ended so far. */
  predicate Between(p: seq<byte>) {
    StartsLine(true, p) && !Ended(true, p) && (p == [] || Last(p) == LF)
  }

  lemma NotEndedPush(p: seq<byte>, c: byte)
    requires !Ended(true, p) && !(c == LF && p != [] && Last(p) == CR)
    ensures !Ended(true, p + [c])
  {
    assert Front(p + [c]) == p;
    assert |p| >= 1 ==> (p + [c])[|p| - 1..] == [Last(p), c];
  }

  lemma TextPush(p: seq<byte>, c: byte)
    ensures Text(true, p + [c]) == Text(true, p) + if c == DOT && StartsLine(true, p) then [] else [c]
  {
    assert Front(p + [c]) == p;
  }

  lemma NoLineInside(p: seq<byte>, line: seq<byte>)
    requires Between(p) && CR !in line && line != []
    ensures !StartsLine(true, p + line) && Last(p + line) != CR
  {
    var q := p + line;
    assert Last(q) == Last(line);
    if |line| > 1 {
      assert Front(q) == p + Front(line) && Last(Front(q)) == line[|line| - 2];
    } else {
      assert Front(q) == p;
    }
  }

  lemma {:induction false} AlongLine(p: seq<byte>, line: seq<byte>)
    requires Between(p) && CR !in line
    ensures !Ended(true, p + line) && Text(true, p + line) == Text(true, p) + Bare(line)
  {
    if line == [] {
      EmptyConcat(p);
      EmptyConcat(Text(true, p));
    } else {
      var f, c := Front(line), Last(line);
      FrontLast(line);
      AlongLine(p, f);
      Assoc(p, f, [c]);
      TextPush(p + f, c);
      if f == [] {
        EmptyConcat(p);
        EmptyConcat(Text(true, p));
      } else {
        NoLineInside(p, f);
        assert Bare(line) == Bare(f) + [c];
        Assoc(Text(true, p), Bare(f), [c]);
      }
      NotEndedPush(p + f, c);
    }
  }

  lemma CloseLine(q: seq<byte>)
    requires !Ended(true, q) && (q == [] || Last(q) != CR) && !OpeningDot(true, q)
    ensures Between(q + CRLF) && Text(true, q + CRLF) == Text(true, q) + CRLF
  {
    var c, r := q + [CR], q + CRLF;
    assert Front(c) == q && Front(r) == c && Last(r) == LF;
    NotEndedPush(q, CR);
    TextPush(q, CR);
    assert r == c + [LF];
    TextPush(c, LF);
    assert CrRun(c) == 1 + CrRun(q) && CrRun(q) == 0;
    assert r[..|r| - 2] == q;
  }

  lemma OverLine(p: seq<byte>, line: seq<byte>)
    requires Between(p) && CR !in line && line != [DOT]
    ensures Between(p + line + CRLF) && Text(true, p + line + CRLF) == Text(true, p) + (Bare(line) + CRLF)
  {
    AlongLine(p, line);
    OpensOnlyEnd(p, line);
    if line == [] {
      EmptyConcat(p);
    } else {
      NoLineInside(p, line);
    }
    CloseLine(p + line);
    Assoc(Text(true, p), Bare(line), CRLF);
  }

  lemma OpensOnlyEnd(p: seq<byte>, line: seq<byte>)
    requires Between(p) && CR !in line && line != [DOT]
    ensures !OpeningDot(true, p + line)
  {
    if |line| > 1 {
      NoLineInside(p, Front(line));
      assert Front(p + line) == p + Front(line);
    } else if line == [] {
      EmptyConcat(p);
    } else {
      assert Last(p + line) == line[0] && line == [line[0]];
    }
  }

  lemma {:induction false} OverLines(lines: seq<seq<byte>>)
    requires NoEnd(lines)
    ensures Between(Join(lines)) && Text(true, Join(lines)) == Join(AllBare(lines))
  {
    if lines != [] {
      var f, line := Front(lines), Last(lines);
      assert CR !in line && line != [DOT];
      OverLines(f);
      OverLine(Join(f), line);
      JoinPush(AllBare(f), Bare(line));
    }
  }

  /** The end, after lines. */
  lemma EndComes(p: seq<byte>)
    requires Between(p)
    ensures var x := p + DotStuffing.END;
            EndsAt(true, x) && !Ended(true, Front(x)) && x[..|x| - 3] == p
  {
    var dot, cr, x := p + [DOT], p + [DOT] + [CR], p + DotStuffing.END;
    assert x == cr + [LF] && Front(x) == cr && Front(cr) == dot && Front(dot) == p;
    NotEndedPush(p, DOT);
    NotEndedPush(dot, CR);
    assert x[|x| - 2..] == CRLF && x[..|x| - 2] == dot;
  }

  /** Any lines, stuffed or not, none of them a dot alone: each comes through less the dot that opens it, and the end ends them. */
  lemma LinesComeBare(lines: seq<seq<byte>>)
    requires NoEnd(lines)
    ensures Delivers(Join(lines) + DotStuffing.END, Join(AllBare(lines)))
  {
    OverLines(lines);
    EndComes(Join(lines));
    EmptyConcat(Text(true, Join(lines)));
    Unstuffs(START, true, Join(lines) + DotStuffing.END);
  }
}
