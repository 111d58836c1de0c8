/** The repository's byte-stuffer on text of CRLF-ended lines. */
module StuffedLines {
  import opened Bytes
  import opened Lines
  import opened DotStuffing
  import Decrypt
  import Pop3Multi

  /** Lines without CRs. */
  predicate Plain(lines: seq<seq<byte>>) {
    forall i :: 0 <= i < |lines| ==> CR !in lines[i]
  }

  predicate AllDots(line: seq<byte>) {
    forall i :: 0 <= i < |line| ==> line[i] == DOT
  }

  predicate OpensWithDot(line: seq<byte>) {
    line != [] && line[0] == DOT
  }

  /** The stuffer does not see the start of the line after these: the last one is seen and holds nothing but dots. */
  predicate HidesNext(lines: seq<seq<byte>>) {
    lines != [] && !HidesNext(Front(lines)) && AllDots(Last(lines))
  }

  /** No line whose start the stuffer does not see opens with a dot. */
  predicate NoHiddenDot(lines: seq<seq<byte>>) {
    forall i :: 0 <= i < |lines| && HidesNext(lines[..i]) ==> !OpensWithDot(lines[i])
  }

  // ----- The stuffer's states along the lines -----

  /** Inside a line whose start the stuffer has seen, or has not. */
  predicate Along(state: nat, start: nat, line: seq<byte>) {
    if line == [] then state == start
    else if start == Decrypt.DOT_DATA || !AllDots(line) then state == Decrypt.DOT_DATA
    else state == Decrypt.CRLFDOT || state == Decrypt.CRLFDOTMANY
  }

  predicate LineStart(state: nat) {
    state == Decrypt.DOT_DATA || state == Decrypt.IN_CRLF || state == Decrypt.CRLFDOT
  }

  lemma AlongStep(state: nat, start: nat, line: seq<byte>, c: byte)
    requires LineStart(start) && c != CR && Along(state, start, line)
    ensures Along(Decrypt.NextState(state, c), start, line + [c])
  {
    assert AllDots(line + [c]) <==> AllDots(line) && c == DOT by {
      assert (line + [c])[|line|] == c;
      assert forall i :: 0 <= i < |line| ==> (line + [c])[i] == line[i];
    }
  }

  lemma {:induction false} AlongLine(p: seq<byte>, line: seq<byte>)
    requires LineStart(Decrypt.StateAfter(p)) && CR !in line
    ensures Along(Decrypt.StateAfter(p + line), Decrypt.StateAfter(p), line)
  {
    if line == [] {
      assert p + line == p;
    } else {
      var f, c := Front(line), Last(line);
      AlongLine(p, f);
      AlongStep(Decrypt.StateAfter(p + f), Decrypt.StateAfter(p), f, c);
      Decrypt.StateAfterPush(p + f, c);
      FrontLast(line);
      Assoc(p, f, [c]);
    }
  }

  lemma EndOfLine(state: nat, start: nat, line: seq<byte>)
    requires LineStart(start) && Along(state, start, line)
    ensures Decrypt.NextState(Decrypt.NextState(state, CR), LF) ==
            if start != Decrypt.DOT_DATA && AllDots(line) then Decrypt.DOT_DATA else Decrypt.IN_CRLF
  {
  }

  /** The state in which the stuffer meets the line that comes after these. */
  function StateAt(lines: seq<seq<byte>>): nat {
    if lines == [] then Decrypt.CRLFDOT else if HidesNext(lines) then Decrypt.DOT_DATA else Decrypt.IN_CRLF
  }

  lemma {:induction false} StateAfterLines(lines: seq<seq<byte>>)
    requires Plain(lines)
    ensures Decrypt.StateAfter(Join(lines)) == StateAt(lines)
  {
    if lines != [] {
      var f, line := Front(lines), Last(lines);
      assert CR !in line;
      StateAfterLines(f);
      AlongLine(Join(f), line);
      var q := Join(f) + line;
      Decrypt.StateAfterPush(q, CR);
      Decrypt.StateAfterPush(q + [CR], LF);
      assert Join(lines) == q + [CR] + [LF];
      EndOfLine(Decrypt.StateAfter(q), StateAt(f), line);
    }
  }

  lemma SeesLines(lines: seq<seq<byte>>)
    requires Plain(lines)
    ensures Decrypt.LineStart(Join(lines)) <==> !HidesNext(lines)
  {
    Decrypt.SeesLineStarts(Join(lines));
    StateAfterLines(lines);
  }

  // ----- Line starts along the lines -----

  lemma {:induction false} JoinIsNoticed(lines: seq<seq<byte>>)
    requires Plain(lines)
    ensures NoticedLineStart(Join(lines)) && (lines != [] ==> Join(lines) != [] && Last(Join(lines)) == LF)
  {
    if lines != [] {
      var q := Join(Front(lines)) + Last(lines);
      JoinIsNoticed(Front(lines));
      assert Join(lines) == q + CRLF && Front(q + CRLF) == q + [CR] && Front(q + [CR]) == q;
      assert CR !in Last(lines);
      assert q != [] ==> Last(q) != CR;
      assert CrRun(q + [CR]) == 1 + CrRun(q);
    }
  }

  /** Inside a line there is no line start, neither to the stuffer nor to the unstuffer. */
  lemma NoStartInside(p: seq<byte>, line: seq<byte>)
    requires (p == [] || Last(p) == LF) && CR !in line && line != []
    ensures !Decrypt.LineStart(p + line) && !NoticedLineStart(p + line)
  {
    var q := p + line;
    assert |q| >= 2 ==> q[|q| - 2] == (if |line| >= 2 then line[|line| - 2] else Last(p));
    NotAfterCr(q);
  }

  lemma NotAfterCr(q: seq<byte>)
    requires q != [] && (|q| >= 2 ==> q[|q| - 2] != CR)
    ensures !Decrypt.LineStart(q) && !NoticedLineStart(q)
  {
    assert |q| >= 2 ==> q[|q| - 2..][0] == q[|q| - 2];
    Decrypt.SeesLineStarts(q);
    Decrypt.SeenIsAfterCrlf(q);
    NoticedIsAtLineStart(q);
  }

  /** The dot that opens a line, if one does, is doubled or not as the unstuffer expects. */
  predicate OpensWell(p: seq<byte>, line: seq<byte>) {
    OpensWithDot(line) ==> (Decrypt.LineStart(p) <==> NoticedLineStart(p))
  }

  lemma AgreesOnOctet(p: seq<byte>, f: seq<byte>, c: byte)
    requires (p == [] || Last(p) == LF) && CR !in f
    ensures Agrees(Own, p + (f + [c])) <==> Agrees(Own, p + f) && (f == [] ==> OpensWell(p, [c]))
    ensures f != [] ==> (OpensWell(p, f + [c]) <==> OpensWell(p, f))
  {
    Assoc(p, f, [c]);
    AgreesPush(Own, p + f, c);
    if f == [] {
      assert p + f == p;
    } else {
      NoStartInside(p, f);
      assert (f + [c])[0] == f[0];
    }
  }

  lemma {:induction false} AgreesAlong(p: seq<byte>, line: seq<byte>)
    requires (p == [] || Last(p) == LF) && CR !in line
    ensures Agrees(Own, p + line) <==> Agrees(Own, p) && OpensWell(p, line)
  {
    if line == [] {
      assert p + line == p;
    } else {
      FrontLast(line);
      AgreesAlong(p, Front(line));
      AgreesOnOctet(p, Front(line), Last(line));
    }
  }

  lemma NoHiddenDotPush(lines: seq<seq<byte>>, line: seq<byte>)
    ensures NoHiddenDot(lines + [line]) <==> NoHiddenDot(lines) && (HidesNext(lines) ==> !OpensWithDot(line))
  {
    var all := lines + [line];
    assert all[..|lines|] == lines && all[|lines|] == line;
    assert forall i :: 0 <= i < |lines| ==> all[..i] == lines[..i] && all[i] == lines[i];
    assert NoHiddenDot(all) ==> (HidesNext(all[..|lines|]) ==> !OpensWithDot(all[|lines|]));
  }

  lemma {:induction false} AgreesOnLines(lines: seq<seq<byte>>)
    requires Plain(lines)
    ensures Agrees(Own, Join(lines)) <==> NoHiddenDot(lines)
  {
    if lines != [] {
      var f, line := Front(lines), Last(lines);
      assert CR !in line;
      AgreesOnLines(f);
      SeesLines(f);
      JoinIsNoticed(f);
      AgreesAlong(Join(f), line);
      var q := Join(f) + line;
      AgreesPush(Own, q, CR);
      AgreesPush(Own, q + [CR], LF);
      assert Join(lines) == q + [CR] + [LF];
      FrontLast(lines);
      NoHiddenDotPush(f, line);
    }
  }

  /**
   * On lines without CRs, the unstuffer undoes the stuffer, exactly when
   * no line whose start the stuffer misses opens with a dot.
   */
  lemma DecryptLinesThenReceive(lines: seq<seq<byte>>)
    requires Plain(lines)
    ensures Pop3Multi.Delivers(Decrypt.Decrypted(Join(lines)), Join(lines)) <==> NoHiddenDot(lines)
  {
    DecryptedIsOwn(Join(lines));
    StuffThenReceive(Own, Join(lines));
    AgreesOnLines(lines);
    JoinIsNoticed(lines);
  }

  /** Lines that hold something else than dots hide nothing. */
  lemma TextHidesNothing(lines: seq<seq<byte>>)
    requires forall i :: 0 <= i < |lines| ==> !AllDots(lines[i])
    ensures NoHiddenDot(lines)
  {
    forall i | 0 <= i < |lines|
      ensures !HidesNext(lines[..i])
    {
      if i > 0 {
        assert Last(lines[..i]) == lines[i - 1];
      }
    }
  }

  /** An empty line hides the dot that opens the next one, which then gets lost. */
  lemma EmptyLineHidesDot()
    ensures !Pop3Multi.Delivers(Decrypt.Decrypted(Join([[], [DOT, 65]])), Join([[], [DOT, 65]]))
  {
    var lines: seq<seq<byte>> := [[], [DOT, 65]];
    assert lines[..1] == [[]] && Front(lines[..1]) == [];
    assert !HidesNext(Front(lines[..1])) && AllDots(Last(lines[..1]));
    assert OpensWithDot(lines[1]);
    DecryptLinesThenReceive(lines);
  }
}
