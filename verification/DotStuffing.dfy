/** The two ways of byte-stuffing, and the automaton that undoes them. */
module DotStuffing {
  import opened Bytes
  import opened Lines
  import opened Pop3Multi
  import Decrypt

  const END: seq<byte> := Decrypt.END

  /** As RFC 1939, section 3, has it, and as the repository does it. */
  datatype Stuffer = Standard | Own

  predicate AtLineStart(p: seq<byte>) {
    p == [] || IsSuffix(CRLF, p)
  }

  /** Whether the stuffer doubles a dot that comes after p. */
  predicate Doubles(w: Stuffer, p: seq<byte>) {
    match w
    case Standard => AtLineStart(p)
    case Own => Decrypt.LineStart(p)
  }

  function Stuffed(w: Stuffer, p: seq<byte>, c: byte): seq<byte> {
    if c == DOT && Doubles(w, p) then [DOT, DOT] else [c]
  }

  function Stuff(w: Stuffer, body: seq<byte>): seq<byte> {
    if body == [] then [] else Stuff(w, Front(body)) + Stuffed(w, Front(body), Last(body))
  }

  lemma DoublesAfterLf(w: Stuffer, p: seq<byte>)
    requires p != [] && Doubles(w, p)
    ensures AtLineStart(p) && Last(p) == LF
  {
    Decrypt.SeesLineStarts(p);
    Decrypt.SeenIsAfterCrlf(p);
    assert p[|p| - 2..][1] == LF;
  }

  /** The octets that the stuffer of decrypt.c leaves are those of Own, and the end. */
  lemma DecryptedIsOwn(body: seq<byte>)
    ensures Decrypt.Decrypted(body) == Stuff(Own, body) + END
  {
    if body != [] {
      OwnIsWritten(body, body);
    }
  }

  lemma {:induction false} OwnIsWritten(body: seq<byte>, p: seq<byte>)
    requires p <= body && p != []
    ensures Decrypt.WriteAll(Decrypt.Opened(body), p) == Decrypt.Writer(Decrypt.StateAfter(p), Stuff(Own, p))
  {
    var f, c := Front(p), Last(p);
    assert Decrypt.StateAfter(p) == Decrypt.NextState(Decrypt.StateAfter(f), c);
    Decrypt.SeesLineStarts(f);
    if f == [] {
      assert Decrypt.WriteAll(Decrypt.Opened(body), f) == Decrypt.Opened(body);
      assert c == body[0] && Stuff(Own, f) == [];
    } else {
      OwnIsWritten(body, f);
      assert Stuff(Own, p) == Stuff(Own, f) + Stuffed(Own, f, c);
    }
  }

  // ----- The unstuffer on stuffed octets -----

  /** A line start the automaton notices: the CRs before the LF are odd in number. */
  predicate NoticedLineStart(p: seq<byte>) {
    p == [] || (Last(p) == LF && CrRun(Front(p)) % 2 == 1)
  }

  lemma NoticedIsAtLineStart(p: seq<byte>)
    ensures NoticedLineStart(p) ==> AtLineStart(p)
  {
    if p != [] && NoticedLineStart(p) {
      assert CrRun(Front(p)) > 0;
      assert p[|p| - 2..] == CRLF;
    }
  }

  /** The stuffer doubles exactly those dots of the body that come where the automaton notices a line start. */
  predicate Agrees(w: Stuffer, body: seq<byte>) {
    forall i :: 0 <= i < |body| && body[i] == DOT ==> (Doubles(w, body[..i]) <==> NoticedLineStart(body[..i]))
  }

  lemma AgreesPush(w: Stuffer, p: seq<byte>, c: byte)
    ensures Agrees(w, p + [c]) <==> Agrees(w, p) && (c == DOT ==> (Doubles(w, p) <==> NoticedLineStart(p)))
  {
    var q := p + [c];
    assert q[..|p|] == p;
    assert forall i :: 0 <= i < |p| ==> q[..i] == p[..i] && q[i] == p[i];
    assert Agrees(w, q) ==> (c == DOT ==> (Doubles(w, q[..|p|]) <==> NoticedLineStart(q[..|p|])));
  }

  /** The automaton's state after the stuffing of p, if all has gone well. */
  function StateAfter(p: seq<byte>): nat {
    if NoticedLineStart(p) then NEWLINE else if CrRun(p) % 2 == 1 then IN_CR else BYTE
  }

  /** The octets handed over, with the one held back. */
  function Got(d: Delivery): seq<byte> {
    if d.state == IN_CR || d.state == DOT_CR then d.body + [CR] else d.body
  }

  /** What has been handed over is p. */
  predicate Well(d: Delivery, p: seq<byte>) {
    d.ended == [] && d.state == StateAfter(p) && Got(d) == p
  }

  /** A dot has been lost, and dots only have come since. */
  predicate Short(d: Delivery, p: seq<byte>) {
    d.ended == [] && (d.state == IN_DOT || d.state == BYTE) && p == Got(d) + [DOT]
  }

  /** There is a dot too many, and dots only have come since. */
  predicate Long(d: Delivery, p: seq<byte>) {
    d.ended == [] && d.state == BYTE && Got(d) == p + [DOT] && p != [] && Last(p) == DOT
  }

  /** The end has been told, or something else than p handed over. */
  predicate Wrong(d: Delivery, p: seq<byte>) {
    d.ended != [] || exists k :: 0 <= k < |p| && k < |Got(d)| && Got(d)[k] != p[k]
  }

  predicate Tracks(d: Delivery, p: seq<byte>, agrees: bool) {
    if agrees then Well(d, p) else Short(d, p) || Long(d, p) || Wrong(d, p)
  }

  lemma ReceiveOne(d: Delivery, c: byte)
    ensures Receive(d, [c]) == Advance(d, c)
  {
    assert Receive(d, []) == d && Front([c]) == [];
  }

  lemma ReceiveTwoDots(d: Delivery)
    ensures Receive(d, [DOT, DOT]) == Advance(Advance(d, DOT), DOT)
  {
    ReceiveOne(d, DOT);
    assert Front([DOT, DOT]) == [DOT];
  }

  /** An octet as it is, where no dot is to be doubled. */
  lemma WellPlain(d: Delivery, p: seq<byte>, c: byte)
    requires Well(d, p) && (c == DOT ==> !NoticedLineStart(p))
    ensures Well(Advance(d, c), p + [c])
  {
    assert Front(p + [c]) == p && Last(p + [c]) == c;
  }

  lemma WellDoubled(d: Delivery, p: seq<byte>)
    requires Well(d, p)
    ensures var r := Advance(Advance(d, DOT), DOT);
            if NoticedLineStart(p) then Well(r, p + [DOT]) else Long(r, p + [DOT])
  {
    assert Front(p + [DOT]) == p && Last(p + [DOT]) == DOT;
    assert p + [DOT] + [DOT] == (p + [DOT]) + [DOT];
  }

  lemma WellStep(w: Stuffer, d: Delivery, p: seq<byte>, c: byte)
    requires Well(d, p)
    ensures Tracks(Receive(d, Stuffed(w, p, c)), p + [c], c == DOT ==> (Doubles(w, p) <==> NoticedLineStart(p)))
  {
    ReceiveOne(d, c);
    ReceiveTwoDots(d);
    if c == DOT && Doubles(w, p) {
      WellDoubled(d, p);
    } else if c == DOT && NoticedLineStart(p) {
      assert Short(Advance(d, c), p + [c]);
    } else {
      WellPlain(d, p, c);
    }
  }

  lemma ShortStep(w: Stuffer, d: Delivery, p: seq<byte>, c: byte)
    requires Short(d, p)
    ensures var r := Receive(d, Stuffed(w, p, c));
            Short(r, p + [c]) || Wrong(r, p + [c])
  {
    assert Last(p) == DOT;
    if Doubles(w, p) {
      DoublesAfterLf(w, p);
    }
    ReceiveOne(d, c);
    var k := |Got(d)|;
    var r := Advance(d, c);
    if c != DOT {
      assert Got(r)[k] == c && (p + [c])[k] == DOT;
    }
  }

  lemma LongStep(w: Stuffer, d: Delivery, p: seq<byte>, c: byte)
    requires Long(d, p)
    ensures var r := Receive(d, Stuffed(w, p, c));
            Long(r, p + [c]) || Wrong(r, p + [c])
  {
    if Doubles(w, p) {
      DoublesAfterLf(w, p);
    }
    ReceiveOne(d, c);
    var r := Advance(d, c);
    if c != DOT {
      assert Got(r)[|p|] == DOT && (p + [c])[|p|] == c;
    }
  }

  lemma GotGrows(d: Delivery, c: byte)
    ensures var r := Advance(d, c);
            |r.ended| >= |d.ended| && (r.ended != [] || d.state >= FIN || Got(d) <= Got(r))
  {
  }

  lemma WrongStays(d: Delivery, p: seq<byte>, c: byte, x: byte)
    requires Wrong(d, p) && (d.state == FIN ==> d.ended != [])
    ensures Wrong(Advance(d, x), p) && Wrong(Advance(d, x), p + [c])
    ensures Advance(d, x).state == FIN ==> Advance(d, x).ended != []
  {
    GotGrows(d, x);
    var r := Advance(d, x);
    if r.ended == [] {
      var k :| 0 <= k < |p| && k < |Got(d)| && Got(d)[k] != p[k];
      assert Got(r)[k] != p[k] && (p + [c])[k] == p[k];
    }
  }

  lemma WrongStep(w: Stuffer, d: Delivery, p: seq<byte>, c: byte)
    requires Wrong(d, p) && (d.state == FIN ==> d.ended != [])
    ensures Wrong(Receive(d, Stuffed(w, p, c)), p + [c])
  {
    ReceiveOne(d, c);
    ReceiveTwoDots(d);
    WrongStays(d, p, c, c);
    WrongStays(Advance(d, c), p, c, c);
  }

  /** The end is told by the octets that tell it only. */
  lemma {:induction false} FinIsTold(d: Delivery, x: seq<byte>)
    requires d.state == FIN ==> d.ended != []
    ensures Receive(d, x).state == FIN ==> Receive(d, x).ended != []
  {
    if x != [] {
      FinIsTold(d, Front(x));
    }
  }

  lemma TracksStep(w: Stuffer, d: Delivery, p: seq<byte>, c: byte)
    requires Tracks(d, p, Agrees(w, p)) && (d.state == FIN ==> d.ended != [])
    ensures Tracks(Receive(d, Stuffed(w, p, c)), p + [c], Agrees(w, p + [c]))
  {
    AgreesPush(w, p, c);
    if Agrees(w, p) {
      WellStep(w, d, p, c);
    } else if Short(d, p) {
      ShortStep(w, d, p, c);
    } else if Long(d, p) {
      LongStep(w, d, p, c);
    } else {
      WrongStep(w, d, p, c);
    }
  }

  lemma {:induction false} RunTracks(w: Stuffer, p: seq<byte>)
    ensures Tracks(Receive(START, Stuff(w, p)), p, Agrees(w, p))
  {
    if p == [] {
      assert Receive(START, Stuff(w, p)) == START;
    } else {
      var f, c := Front(p), Last(p);
      RunTracks(w, f);
      FinIsTold(START, Stuff(w, f));
      TracksStep(w, Receive(START, Stuff(w, f)), f, c);
      ReceiveConcat(START, Stuff(w, f), Stuffed(w, f, c));
      FrontLast(p);
    }
  }

  lemma ReceiveEnd(d: Delivery)
    requires d.state <= FIN
    ensures var r := Receive(d, END);
            if d.state == NEWLINE then r == End(d).(state := FIN) else r.state != FIN
  {
    assert Front(END) == [DOT, CR] && Front([DOT, CR]) == [DOT];
    ReceiveOne(d, DOT);
    assert Receive(d, [DOT, CR]) == Advance(Advance(d, DOT), CR);
    assert Receive(d, END) == Advance(Advance(Advance(d, DOT), CR), LF);
  }

  /**
   * Either stuffer's octets, with the end after them, give the body back and tell its end once, by the last octet,
   * exactly when the body ends where the automaton notices a line start and the doubled dots are those it expects.
   */
  lemma StuffThenReceive(w: Stuffer, body: seq<byte>)
    ensures Delivers(Stuff(w, body) + END, body) <==> NoticedLineStart(body) && Agrees(w, body)
  {
    var d := Receive(START, Stuff(w, body));
    RunTracks(w, body);
    ReceiveConcat(START, Stuff(w, body), END);
    if body == [] {
      assert d == START;
    }
    ReceiveEnd(d);
    var ended := d.ended + [d.body];
    assert |ended| == |d.ended| + 1 && ended[|d.ended|] == d.body;
    assert d.ended == [] ==> ended == [d.body];
  }

  // ----- RFC 1939 -----

  /** The body ends in a noticed line start, and so does what comes before any dot that opens a line. */
  predicate Recoverable(body: seq<byte>) {
    && NoticedLineStart(body)
    && forall i :: 0 <= i < |body| && body[i] == DOT && AtLineStart(body[..i]) ==> NoticedLineStart(body[..i])
  }

  /** The automaton gives a stuffed body back, and tells its end right after it, exactly when it is recoverable. */
  lemma StandardThenReceive(body: seq<byte>)
    ensures Delivers(Stuff(Standard, body) + END, body) <==> Recoverable(body)
  {
    StuffThenReceive(Standard, body);
    forall i | 0 <= i < |body| && NoticedLineStart(body[..i])
      ensures AtLineStart(body[..i])
    {
      NoticedIsAtLineStart(body[..i]);
    }
  }

  lemma {:induction false} SingleCrRun(p: seq<byte>)
    requires forall i :: 0 <= i < |p| - 1 ==> p[i] != CR || p[i + 1] != CR
    ensures CrRun(p) <= 1
  {
    if p != [] && Last(p) == CR {
      SingleCrRun(Front(p));
    }
  }

  /** Bodies of whole lines without adjacent CRs are recoverable. */
  lemma LinesAreRecoverable(body: seq<byte>)
    requires AtLineStart(body)
    requires forall i :: 0 <= i < |body| - 1 ==> body[i] != CR || body[i + 1] != CR
    ensures Recoverable(body)
  {
    forall i | 0 <= i <= |body| && AtLineStart(body[..i])
      ensures NoticedLineStart(body[..i])
    {
      var p := body[..i];
      if p != [] {
        assert p[|p| - 2..][0] == CR && p[|p| - 2..][1] == LF;
        assert p[|p| - 2] == CR && Last(p) == LF;
        SingleCrRun(Front(p));
        assert Last(Front(p)) == CR;
      }
    }
    assert body[..|body|] == body;
  }

  /** CR CR LF is a line end to RFC 1939 but not to the automaton: the dot after it stays doubled. */
  lemma DoubleCrIsNotRecoverable()
    ensures !Delivers(Stuff(Standard, [CR, CR, LF, DOT, CR, LF]) + END, [CR, CR, LF, DOT, CR, LF])
  {
    var body := [CR, CR, LF, DOT, CR, LF];
    var p := [CR, CR, LF];
    assert body[..3] == p;
    assert Front(p) == [CR, CR] && Front([CR, CR]) == [CR] && Front([CR]) == [];
    assert CrRun([CR, CR]) == 1 + CrRun([CR]) && CrRun([CR]) == 1 + CrRun([]);
    assert p[1..] == CRLF;
    assert body[3] == DOT && AtLineStart(body[..3]) && !NoticedLineStart(body[..3]);
    StandardThenReceive(body);
  }

  // ----- The repository's stuffer -----

  /**
   * On any text the unstuffer undoes the stuffer, exactly when the text ends where the unstuffer notices a line start,
   * and before each of its dots the stuffer sees a line start just where the unstuffer does.
   */
  lemma DecryptThenReceive(body: seq<byte>)
    ensures Delivers(Decrypt.Decrypted(body), body) <==>
            && NoticedLineStart(body)
            && forall i :: 0 <= i < |body| && body[i] == DOT ==>
                 (Decrypt.LineStart(body[..i]) <==> NoticedLineStart(body[..i]))
  {
    DecryptedIsOwn(body);
    StuffThenReceive(Own, body);
    assert forall i :: 0 <= i < |body| ==> (Doubles(Own, body[..i]) <==> Decrypt.LineStart(body[..i]));
  }

  /** Both stuffers double the same dots. */
  predicate SameDots(body: seq<byte>) {
    forall i :: 0 <= i < |body| && body[i] == DOT ==> (Decrypt.LineStart(body[..i]) <==> AtLineStart(body[..i]))
  }

  lemma SameDotsPush(p: seq<byte>, c: byte)
    ensures SameDots(p + [c]) <==> SameDots(p) && (c == DOT ==> (Doubles(Own, p) <==> Doubles(Standard, p)))
  {
    var q := p + [c];
    assert q[..|p|] == p;
    assert forall i :: 0 <= i < |p| ==> q[..i] == p[..i] && q[i] == p[i];
    assert SameDots(q) ==> (c == DOT ==> (Decrypt.LineStart(q[..|p|]) <==> AtLineStart(q[..|p|])));
  }

  lemma StuffEndsAlike(w: Stuffer, p: seq<byte>)
    ensures Stuff(w, p) == [] <==> p == []
    ensures p != [] ==> Last(Stuff(w, p)) == Last(p)
  {
  }

  /** Octets stuffed the same way have had the same dots doubled: a doubled dot never follows a dot. */
  lemma {:induction false} SameStuffing(p: seq<byte>)
    ensures Stuff(Own, p) == Stuff(Standard, p) <==> SameDots(p)
  {
    if p != [] {
      var f, c := Front(p), Last(p);
      SameStuffing(f);
      SameDotsPush(f, c);
      FrontLast(p);
      StuffEndsAlike(Own, f);
      StuffEndsAlike(Standard, f);
      if f != [] && (Doubles(Own, f) || Doubles(Standard, f)) {
        DoublesAfterLf(if Doubles(Own, f) then Own else Standard, f);
      }
      SameTail(Stuff(Own, f), Stuff(Standard, f), Stuffed(Own, f, c), Stuffed(Standard, f, c));
    }
  }

  lemma SameTail(a: seq<byte>, b: seq<byte>, x: seq<byte>, y: seq<byte>)
    requires x == y || (x == [DOT, DOT] && y == [DOT]) || (x == [DOT] && y == [DOT, DOT])
    requires x != y ==> (a == [] || Last(a) != DOT) && (b == [] || Last(b) != DOT)
    ensures a + x == b + y <==> a == b && x == y
  {
    if x == y {
      assert (a + x)[..|a + x| - |x|] == a && (b + y)[..|b + y| - |y|] == b;
    } else if |x| == 2 {
      assert (a + x)[|a|] == DOT;
      assert |b| == |a| + 1 ==> (b + y)[|a|] == Last(b);
    } else {
      assert (b + y)[|b|] == DOT;
      assert |a| == |b| + 1 ==> (a + x)[|b|] == Last(a);
    }
  }

  /** The stuffer's output is the stuffing of RFC 1939 exactly when it sees the same line starts before dots. */
  lemma DecryptIsStuff(body: seq<byte>)
    ensures Decrypt.Decrypted(body) == Stuff(Standard, body) + END <==> SameDots(body)
  {
    DecryptedIsOwn(body);
    SameStuffing(body);
    assert (Stuff(Own, body) + END)[..|Stuff(Own, body)|] == Stuff(Own, body);
    assert (Stuff(Standard, body) + END)[..|Stuff(Standard, body)|] == Stuff(Standard, body);
  }
}
