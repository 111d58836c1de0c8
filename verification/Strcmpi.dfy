/** Automata generated to compare with a given string, ignoring case (parser_utils.c). */
module Strcmpi {
  import opened Bytes
  import opened Options
  import opened ParserEngine

  datatype Kind = MayEq | Eq | Neq

  type Row = Transition<Kind>

  predicate Ascii(s: seq<byte>) {
    forall i :: 0 <= i < |s| ==> 0 < s[i] <= 127
  }

  function ToLower(c: byte): byte {
    if 65 <= c <= 90 then c + 32 else c
  }

  function ToUpper(c: byte): byte {
    if 97 <= c <= 122 then c - 32 else c
  }

  /** Equal but for case. */
  predicate Same(a: seq<byte>, b: seq<byte>) {
    |a| == |b| && forall i :: 0 <= i < |a| ==> ToLower(a[i]) == ToLower(b[i])
  }

  predicate ProperPrefix(a: seq<byte>, b: seq<byte>) {
    |a| < |b| && Same(a, b[..|a|])
  }

  function On(w: When, dest: nat, kind: Kind): Row {
    Transition(w, dest, Action(kind, Fed), None)
  }

  /** What the rows of state q should be: two cases of the letter that goes on, or the sink. */
  function Rows(s: seq<byte>, q: nat): seq<Row> {
    if q < |s| then
      var kind := if q + 1 == |s| then Eq else MayEq;
      [On(Octet(ToLower(s[q])), q + 1, kind),
       On(Octet(ToUpper(s[q])), q + 1, kind),
       On(Any, |s| + 1, Neq)]
    else
      [On(Any, |s| + 1, Neq)]
  }

  function Table(s: seq<byte>): Definition<Kind> {
    Definition(seq(|s| + 2, q requires 0 <= q => Rows(s, q)), 0)
  }

  lemma TableComplete(s: seq<byte>)
    ensures Complete(Table(s))
  {
    forall q | 0 <= q < |s| + 2
      ensures CompleteRows(Table(s).states[q], |s| + 2)
    {
      assert Table(s).states[q] == Rows(s, q);
    }
  }

  /** The zeroed memory that the rows are cut from. */
  const ZEROED := Transition(Octet(NUL), 0, Action(MayEq, Nothing), None)

  /** The rows of a state, as the pointer and the count in the two index arrays give them. */
  predicate Holds(transitions: seq<Row>, states: seq<nat>, nstates: seq<nat>, q: nat, rows: seq<Row>) {
    && q < |states| == |nstates|
    && states[q] + nstates[q] <= |transitions|
    && transitions[states[q]..states[q] + nstates[q]] == rows
  }

  /** The rows of the first k letters in a row. */
  function Flat(s: seq<byte>, k: nat): (r: seq<Row>)
    requires k <= |s|
    ensures |r| == 3 * k
  {
    if k == 0 then [] else Flat(s, k - 1) + Rows(s, k - 1)
  }

  lemma {:induction false} FlatAt(s: seq<byte>, k: nat, q: nat)
    requires q < k <= |s|
    ensures Flat(s, k)[3 * q..3 * q + 3] == Rows(s, q)
  {
    if q < k - 1 {
      FlatAt(s, k - 1, q);
      assert Flat(s, k)[3 * q..3 * q + 3] == Flat(s, k - 1)[3 * q..3 * q + 3];
    }
  }

  lemma FilledIsTable(s: seq<byte>, transitions: seq<Row>, states: seq<nat>, nstates: seq<nat>)
    requires |transitions| == 3 * (|s| + 2) && |states| == |nstates| == |s| + 2
    requires transitions[..3 * |s|] == Flat(s, |s|)
    requires transitions[3 * |s|] == transitions[3 * (|s| + 1)] == On(Any, |s| + 1, Neq)
    requires forall q :: 0 <= q < |s| + 2 ==> states[q] == 3 * q && nstates[q] == if q < |s| then 3 else 1
    ensures forall q :: 0 <= q < |s| + 2 ==> Holds(transitions, states, nstates, q, Table(s).states[q])
  {
    forall q | 0 <= q < |s| + 2
      ensures Holds(transitions, states, nstates, q, Table(s).states[q])
    {
      assert Table(s).states[q] == Rows(s, q);
      if q < |s| {
        FlatAt(s, |s|, q);
        assert transitions[3 * q..3 * q + 3] == transitions[..3 * |s|][3 * q..3 * q + 3];
      }
    }
  }

  /** One turn of the loop: the three rows of letter i. */
  method PutLetter(s: seq<byte>, i: nat, transitions: array<Row>)
    requires i < |s| && 3 * i + 3 <= transitions.Length
    requires transitions[..3 * i] == Flat(s, i)
    modifies transitions
    ensures transitions[..3 * (i + 1)] == Flat(s, i + 1)
  {
    var n := |s|;
    var dest := if i + 1 == n then n else i + 1;
    var kind := if i + 1 == n then Eq else MayEq;
    transitions[i * 3 + 0] := On(Octet(ToLower(s[i])), dest, kind);
    transitions[i * 3 + 1] := On(Octet(ToUpper(s[i])), dest, kind);
    transitions[i * 3 + 2] := On(Any, n + 1, Neq);
    assert transitions[..3 * i] == Flat(s, i);
    assert transitions[..3 * (i + 1)] == transitions[..3 * i] + Rows(s, i);
  }

  /** The flat array of rows, where each state's rows begin, and how many there are. */
  method Generate(s: seq<byte>) returns (transitions: array<Row>, states: array<nat>, nstates: array<nat>)
    ensures fresh(transitions) && fresh(states) && fresh(nstates)
    ensures transitions.Length == 3 * (|s| + 2) && states.Length == nstates.Length == |s| + 2
    ensures forall q :: 0 <= q < |s| + 2 ==>
              Holds(transitions[..], states[..], nstates[..], q, Table(s).states[q])
  {
    var n := |s|;
    states := new nat[n + 2](_ => 0);
    nstates := new nat[n + 2](_ => 0);
    transitions := new Row[3 * (n + 2)](_ => ZEROED);
    var i := 0;
    while i < n
      invariant 0 <= i <= n
      invariant transitions[..3 * i] == Flat(s, i)
      invariant forall q :: 0 <= q < i ==> states[q] == 3 * q && nstates[q] == 3
    {
      PutLetter(s, i, transitions);
      states[i] := i * 3 + 0;
      nstates[i] := 3;
      i := i + 1;
    }
    transitions[(n + 0) * 3] := On(Any, n + 1, Neq);
    states[n + 0] := (n + 0) * 3 + 0;
    nstates[n + 0] := 1;
    transitions[(n + 1) * 3] := On(Any, n + 1, Neq);
    states[n + 1] := (n + 1) * 3 + 0;
    nstates[n + 1] := 1;
    assert transitions[..3 * n] == Flat(s, n);
    FilledIsTable(s, transitions[..], states[..], nstates[..]);
  }

  // ----- What the generated automaton computes -----

  lemma CaseMatch(x: byte, c: byte)
    requires x <= 127
    ensures c == ToLower(x) || c == ToUpper(x) <==> ToLower(c) == ToLower(x)
  {
  }

  /** The state after t: how much of s it covers, or the sink. */
  function StateAfter(s: seq<byte>, t: seq<byte>): nat {
    if Same(t, s) || ProperPrefix(t, s) then |t| else |s| + 1
  }

  function Verdict(s: seq<byte>, t: seq<byte>): Kind {
    if Same(t, s) then Eq else if ProperPrefix(t, s) then MayEq else Neq
  }

  lemma StepFrom(s: seq<byte>, q: nat, c: byte)
    requires Ascii(s) && q < |s| + 2
    requires Complete(Table(s))
    ensures var hit := q < |s| && ToLower(c) == ToLower(s[q]);
            Step(NO_CLASSES, Table(s), q, c) ==
            Outcome(if hit then q + 1 else |s| + 1,
                    [Event(if !hit then Neq else if q + 1 == |s| then Eq else MayEq, [c])])
  {
    assert Table(s).states[q] == Rows(s, q);
    SelectInOrder(NO_CLASSES, Rows(s, q), c);
    if q < |s| {
      CaseMatch(s[q], c);
    }
  }

  lemma PrefixStep(s: seq<byte>, t: seq<byte>, c: byte)
    ensures var q := StateAfter(s, t);
            var hit := q < |s| && ToLower(c) == ToLower(s[q]);
            && (hit <==> Same(t + [c], s) || ProperPrefix(t + [c], s))
            && (hit ==> q == |t| && (Same(t + [c], s) <==> q + 1 == |s|))
  {
    var t' := t + [c];
    if |t| < |s| && Same(t, s[..|t|]) {
      var p := s[..|t| + 1];
      assert p[..|t|] == s[..|t|];
      assert Same(t', p) <==> ToLower(c) == ToLower(s[|t|]) by {
        assert forall i :: 0 <= i < |t| ==> t'[i] == t[i] && p[i] == s[..|t|][i];
      }
      assert |t| + 1 == |s| ==> p == s;
    } else if |t'| <= |s| {
      var i :| 0 <= i < |t| && ToLower(t[i]) != ToLower(s[..|t|][i]);
      assert t'[i] == t[i] && s[..|t'|][i] == s[..|t|][i] == s[i];
    }
  }

  /** The last event tells how the string fed so far stands to s. */
  lemma {:induction false} Compares(s: seq<byte>, t: seq<byte>)
    requires Ascii(s)
    ensures Complete(Table(s))
    ensures var r := Run(NO_CLASSES, Table(s), 0, t);
            && r.state == StateAfter(s, t)
            && |r.events| == |t|
            && (t != [] ==> Last(r.events) == Event(Verdict(s, t), [Last(t)]))
  {
    TableComplete(s);
    if t != [] {
      var f, c := Front(t), Last(t);
      Compares(s, f);
      RunLast(NO_CLASSES, Table(s), 0, t);
      StepFrom(s, StateAfter(s, f), c);
      PrefixStep(s, f, c);
      FrontLast(t);
    }
  }
}
