/** Banks of comparison automata fed in step: what the media type filter computes (stripmime.c). */
module MediaBank {
  import opened Bytes
  import opened Strcmpi

  type Names = seq<seq<byte>>

  /** One octet into the automaton for s. */
  function Go(s: seq<byte>, q: nat, c: byte): nat {
    if q < |s| && ToLower(c) == ToLower(s[q]) then q + 1 else |s| + 1
  }

  /** The octet makes the automaton for s say that all of s has come. */
  predicate Hits(s: seq<byte>, q: nat, c: byte) {
    q + 1 == |s| && ToLower(c) == ToLower(s[q])
  }

  predicate Listed(names: Names, t: seq<byte>) {
    exists j :: 0 <= j < |names| && Same(t, names[j])
  }

  // ----- The bank of types: the walk stops at the first automaton that says EQ -----

  /** The first entry from i on that hits, or |names|. */
  function FirstHit(names: Names, states: seq<nat>, c: byte, i: nat := 0): (h: nat)
    requires |states| == |names| && i <= |names|
    ensures i <= h <= |names|
    ensures h < |names| ==> Hits(names[h], states[h], c)
    ensures forall j :: i <= j < h ==> !Hits(names[j], states[j], c)
    decreases |names| - i
  {
    if i == |names| || Hits(names[i], states[i], c) then i else FirstHit(names, states, c, i + 1)
  }

  /** Entries after the first hit are not fed. */
  function Feed(names: Names, states: seq<nat>, c: byte): (r: seq<nat>)
    requires |states| == |names|
    ensures |r| == |names|
  {
    var h := FirstHit(names, states, c);
    seq(|names|, j requires 0 <= j < |names| => if j <= h then Go(names[j], states[j], c) else states[j])
  }

  /** The states of freshly reset automata after t. */
  function States(names: Names, t: seq<byte>): (r: seq<nat>)
    ensures |r| == |names|
  {
    if t == [] then seq(|names|, _ => 0) else Feed(names, States(names, Front(t)), Last(t))
  }

  /** Which entry the last octet of t makes the bank settle on; |names| for none. */
  function Settled(names: Names, t: seq<byte>): (h: nat)
    requires t != []
    ensures h <= |names|
  {
    FirstHit(names, States(names, Front(t)), Last(t))
  }

  predicate Detected(names: Names, t: seq<byte>)
    requires t != []
  {
    Settled(names, t) < |names|
  }

  /** Same state, or both past any hope of a hit. */
  predicate Alike(s: seq<byte>, q: nat, q': nat) {
    q == q' || (q >= |s| && q' >= |s|)
  }

  /** The first n entries stand as if each had been fed all of t. */
  predicate InStep(names: Names, t: seq<byte>, n: nat)
    requires n <= |names|
  {
    forall j :: 0 <= j < n ==> Alike(names[j], States(names, t)[j], StateAfter(names[j], t))
  }

  lemma StateAfterStep(s: seq<byte>, t: seq<byte>, c: byte)
    ensures StateAfter(s, t + [c]) == Go(s, StateAfter(s, t), c)
    ensures Hits(s, StateAfter(s, t), c) <==> Same(t + [c], s)
  {
    PrefixStep(s, t, c);
  }

  /** An entry in step hits exactly when the text is its name. */
  lemma HitIsSame(names: Names, t: seq<byte>, c: byte, n: nat)
    requires n <= |names| && InStep(names, t, n)
    ensures forall j :: 0 <= j < n ==> (Hits(names[j], States(names, t)[j], c) <==> Same(t + [c], names[j]))
  {
    forall j | 0 <= j < n
      ensures Hits(names[j], States(names, t)[j], c) <==> Same(t + [c], names[j])
    {
      assert Alike(names[j], States(names, t)[j], StateAfter(names[j], t));
      StateAfterStep(names[j], t, c);
    }
  }

  lemma StatesPush(names: Names, t: seq<byte>, c: byte)
    ensures States(names, t + [c]) == Feed(names, States(names, t), c)
  {
    assert Front(t + [c]) == t;
  }

  /** Entries stay in step when they are fed, or when they are beyond hope anyway. */
  lemma StayInStep(names: Names, t: seq<byte>, c: byte, n: nat)
    requires n <= |names| && InStep(names, t, n)
    requires forall j :: FirstHit(names, States(names, t), c) < j < n ==> StateAfter(names[j], t) >= |names[j]|
    ensures InStep(names, t + [c], n)
  {
    StatesPush(names, t, c);
    forall j | 0 <= j < n
      ensures Alike(names[j], States(names, t + [c])[j], StateAfter(names[j], t + [c]))
    {
      assert Alike(names[j], States(names, t)[j], StateAfter(names[j], t));
      StateAfterStep(names[j], t, c);
    }
  }

  lemma InStepAtStart(names: Names, n: nat)
    requires n <= |names|
    ensures InStep(names, [], n)
  {
  }

  // ----- One text -----

  /** Some listed type comes to its end before t does. */
  predicate PrefixListed(names: Names, t: seq<byte>) {
    exists j :: 0 <= j < |names| && names[j] != [] && ProperPrefix(names[j], t)
  }

  lemma {:induction false} InStepOnText(names: Names, t: seq<byte>)
    requires !PrefixListed(names, t)
    ensures t != [] ==> InStep(names, Front(t), |names|)
  {
    if t == [] || Front(t) == [] {
      InStepAtStart(names, |names|);
    } else {
      var u := Front(t);
      forall j | 0 <= j < |names| && names[j] != []
        ensures !ProperPrefix(names[j], u) && !Same(u, names[j])
      {
        assert !ProperPrefix(names[j], t);
        assert u == t[..|u|];
        if Same(u, names[j]) {
          assert Same(names[j], t[..|names[j]|]);
        }
      }
      InStepOnText(names, u);
      HitIsSame(names, Front(u), Last(u), |names|);
      FrontLast(u);
      StayInStep(names, Front(u), Last(u), |names|);
    }
  }

  /** On a text that no listed type ends inside, the bank computes membership. */
  lemma DetectsMembers(names: Names, t: seq<byte>)
    requires t != [] && !PrefixListed(names, t)
    ensures Detected(names, t) <==> Listed(names, t)
  {
    InStepOnText(names, t);
    HitIsSame(names, Front(t), Last(t), |names|);
    FrontLast(t);
  }

  // ----- All texts: which lists are safe -----

  /** While a hits, b can be waiting for more: all of a but its last octet also begins b, which is no shorter. */
  predicate Clash(a: seq<byte>, b: seq<byte>) {
    a != [] && |b| >= |a| && Same(a[..|a| - 1], b[..|a| - 1])
  }

  predicate Independent(names: Names) {
    forall i, j :: 0 <= i < j < |names| ==> !Clash(names[i], names[j])
  }

  lemma HopeIsClash(a: seq<byte>, b: seq<byte>, t: seq<byte>, c: byte)
    requires Same(t + [c], a) && StateAfter(b, t) < |b|
    ensures Clash(a, b)
  {
    assert a != [];
    var k := |a| - 1;
    assert |t| == k;
    forall x | 0 <= x < k
      ensures ToLower(a[..k][x]) == ToLower(b[..k][x])
    {
      assert (t + [c])[x] == t[x];
      assert a[..k][x] == a[x];
      if ProperPrefix(t, b) {
        assert b[..|t|][x] == b[x];
      }
    }
  }

  lemma {:induction false} IndependentInStep(names: Names, t: seq<byte>)
    requires Independent(names)
    ensures InStep(names, t, |names|)
  {
    if t != [] {
      var u, c := Front(t), Last(t);
      FrontLast(t);
      IndependentInStep(names, u);
      HitIsSame(names, u, c, |names|);
      var h := FirstHit(names, States(names, u), c);
      forall j | h < j < |names|
        ensures StateAfter(names[j], u) >= |names[j]|
      {
        assert !Clash(names[h], names[j]);
        if StateAfter(names[j], u) < |names[j]| {
          HopeIsClash(names[h], names[j], u, c);
        }
      }
      StayInStep(names, u, c, |names|);
    }
  }

  /** While a text runs along an entry that no earlier one clashes with, all entries up to it are fed. */
  lemma {:induction false} ClearEntryInStep(names: Names, m: nat, t: seq<byte>)
    requires m < |names| && |t| <= |names[m]| && Same(t, names[m][..|t|])
    requires forall i :: 0 <= i < m ==> !Clash(names[i], names[m])
    ensures InStep(names, t, m + 1)
    ensures t != [] ==> InStep(names, Front(t), m + 1) && Settled(names, t) >= m
  {
    if t == [] {
      InStepAtStart(names, m + 1);
    } else {
      var u, c := Front(t), Last(t);
      FrontLast(t);
      assert names[m][..|t|][..|u|] == names[m][..|u|];
      ClearEntryInStep(names, m, u);
      HitIsSame(names, u, c, m + 1);
      var h := FirstHit(names, States(names, u), c);
      if h < m {
        assert StateAfter(names[m], u) == |u|;
        HopeIsClash(names[h], names[m], u, c);
      }
      StayInStep(names, u, c, m + 1);
    }
  }

  /** Entries before j that may still hit. */
  function Hopeful(names: Names, states: seq<nat>, j: nat): nat
    requires |states| == |names| && j <= |names|
  {
    if j == 0 then 0 else Hopeful(names, states, j - 1) + if states[j - 1] < |names[j - 1]| then 1 else 0
  }

  lemma {:induction false} HopefulShrinks(names: Names, states: seq<nat>, c: byte, j: nat)
    requires |states| == |names| && j <= |names|
    ensures Hopeful(names, Feed(names, states, c), j) <= Hopeful(names, states, j)
    ensures FirstHit(names, states, c) < j ==> Hopeful(names, Feed(names, states, c), j) < Hopeful(names, states, j)
  {
    if j > 0 {
      HopefulShrinks(names, states, c, j - 1);
    }
  }

  /** Entry j has covered r octets of its name and has been left out at least once since u began. */
  predicate LeftOut(names: Names, j: nat, u: seq<byte>) {
    && j < |names|
    && States(names, u)[j] < |names[j]|
    && States(names, u)[j] < |u|
  }

  /** An entry that was left out can still be driven to a hit, on a text longer than its name. */
  lemma DriveToHit(names: Names, j: nat, u: seq<byte>) returns (t: seq<byte>)
    requires LeftOut(names, j, u)
    ensures |t| > |names[j]| && Settled(names, t) == j
    decreases Hopeful(names, States(names, u), j), |names[j]| - States(names, u)[j]
  {
    var states := States(names, u);
    var c := names[j][states[j]];
    var h := FirstHit(names, states, c);
    assert Front(u + [c]) == u;
    StatesPush(names, u, c);
    HopefulShrinks(names, states, c, j);
    if h == j {
      t := u + [c];
    } else {
      t := DriveToHit(names, j, u + [c]);
    }
  }

  lemma CanHitIsAtPrefix(names: Names, j: nat, u: seq<byte>)
    requires j < |names| && InStep(names, u, j + 1) && |u| < |names[j]| && Same(u, names[j][..|u|])
    ensures States(names, u)[j] == |u|
  {
    assert Alike(names[j], States(names, u)[j], StateAfter(names[j], u));
  }

  /** Along the clash of entry i with a later j both cover all of the text, as long as they are in step. */
  lemma BothCover(names: Names, i: nat, j: nat, k: nat)
    requires i < j < |names| && Clash(names[i], names[j])
    requires k < |names[i]|
    requires InStep(names, names[i][..k], j + 1)
    ensures States(names, names[i][..k])[i] == k == States(names, names[i][..k])[j]
  {
    var a, b := names[i], names[j];
    assert forall x :: 0 <= x < k ==> a[..k][x] == a[..|a| - 1][x] && b[..k][x] == b[..|a| - 1][x];
    CanHitIsAtPrefix(names, j, a[..k]);
    CanHitIsAtPrefix(names, i, a[..k]) by {
      assert InStep(names, a[..k], i + 1);
    }
  }

  lemma AlongBoth(a: seq<byte>, b: seq<byte>, k: nat)
    requires Clash(a, b) && k + 1 < |a|
    ensures ToLower(a[k]) == ToLower(b[k])
  {
    assert a[..|a| - 1][k] == a[k] && b[..|a| - 1][k] == b[k];
  }

  /** Then entry j gets left out. */
  lemma LeaveOut(names: Names, i: nat, j: nat, k: nat) returns (u: seq<byte>)
    requires i < j < |names| && Clash(names[i], names[j])
    requires k < |names[i]|
    requires InStep(names, names[i][..k], j + 1)
    ensures LeftOut(names, j, u)
    decreases |names[i]| - k
  {
    var a, b := names[i], names[j];
    var v, c := a[..k], a[k];
    BothCover(names, i, j, k);
    var h := FirstHit(names, States(names, v), c);
    assert a[..k + 1] == v + [c];
    StatesPush(names, v, c);
    if h < j {
      u := v + [c];
    } else {
      assert k + 1 < |a|;
      AlongBoth(a, b, k);
      StayInStep(names, v, c, j + 1);
      u := LeaveOut(names, i, j, k + 1);
    }
  }

  function Longest(names: Names): (n: nat)
    ensures forall j :: 0 <= j < |names| ==> |names[j]| <= n
  {
    if names == [] then 0
    else
      var n := Longest(Front(names));
      assert forall j :: 0 <= j < |names| - 1 ==> names[j] == Front(names)[j];
      if |Last(names)| > n then |Last(names)| else n
  }

  predicate ClashAt(names: Names, i: nat, j: nat) {
    i < j < |names| && Clash(names[i], names[j])
  }

  /** Among clashes there is one whose later entry is as long as any. */
  lemma LongestClash(names: Names, i: nat, j: nat) returns (i': nat, j': nat)
    requires ClashAt(names, i, j)
    ensures ClashAt(names, i', j')
    ensures forall l: nat, m: nat :: ClashAt(names, l, m) ==> |names[m]| <= |names[j']|
    decreases Longest(names) - |names[j]|
  {
    if l: nat, m: nat :| ClashAt(names, l, m) && |names[m]| > |names[j]| {
      i', j' := LongestClash(names, l, m);
    } else {
      i', j' := i, j;
    }
  }

  /** A clash makes the bank accept some text that is not listed. */
  lemma ClashIsNotExact(names: Names, i: nat, j: nat) returns (t: seq<byte>)
    requires ClashAt(names, i, j)
    ensures t != [] && Detected(names, t) && !Listed(names, t)
  {
    var l, k := LongestClash(names, i, j);
    InStepAtStart(names, k + 1);
    assert names[l][..0] == [];
    var u := LeaveOut(names, l, k, 0);
    t := DriveToHit(names, k, u);
    FrontLast(t);
    if Listed(names, t) {
      var m :| 0 <= m < |names| && Same(t, names[m]);
      assert names[m][..|t|] == names[m];
      forall x | 0 <= x < m
        ensures !Clash(names[x], names[m])
      {
        assert !ClashAt(names, x, m);
      }
      ClearEntryInStep(names, m, t);
      HitIsSame(names, Front(t), Last(t), m + 1);
      assert false;
    }
  }

  predicate Exact(names: Names, t: seq<byte>)
    requires t != []
  {
    Detected(names, t) <==> Listed(names, t)
  }

  /** The bank computes membership on every text, exactly when no entry clashes with a later one. */
  lemma ExactOnAllTexts(names: Names)
    ensures (forall t: seq<byte> :: t != [] ==> Exact(names, t)) <==> Independent(names)
  {
    if Independent(names) {
      forall t: seq<byte> | t != []
        ensures Exact(names, t)
      {
        IndependentInStep(names, Front(t));
        HitIsSame(names, Front(t), Last(t), |names|);
        FrontLast(t);
      }
    } else {
      var i, j :| 0 <= i < j < |names| && Clash(names[i], names[j]);
      var t := ClashIsNotExact(names, i, j);
      assert !Exact(names, t);
    }
  }

  /** And what it settles on is the first entry that is the text, wherever no entry is left out that matters. */
  lemma SettlesOnFirst(names: Names, t: seq<byte>)
    requires t != [] && (!PrefixListed(names, t) || Independent(names))
    ensures var h := Settled(names, t);
            && (h < |names| ==> Same(t, names[h]))
            && forall j :: 0 <= j < h ==> !Same(t, names[j])
  {
    if Independent(names) {
      IndependentInStep(names, Front(t));
    } else {
      InStepOnText(names, t);
    }
    HitIsSame(names, Front(t), Last(t), |names|);
    FrontLast(t);
  }

  // ----- The bank of subtypes: everyone is always fed -----

  function FeedAll(names: Names, states: seq<nat>, c: byte): (r: seq<nat>)
    requires |states| == |names|
    ensures |r| == |names|
  {
    seq(|names|, j requires 0 <= j < |names| => Go(names[j], states[j], c))
  }

  function StatesOfAll(names: Names, t: seq<byte>): (r: seq<nat>)
    ensures |r| == |names|
  {
    if t == [] then seq(|names|, _ => 0) else FeedAll(names, StatesOfAll(names, Front(t)), Last(t))
  }

  predicate AnyHit(names: Names, states: seq<nat>, c: byte)
    requires |states| == |names|
  {
    exists j :: 0 <= j < |names| && Hits(names[j], states[j], c)
  }

  lemma {:induction false} AllInStep(names: Names, t: seq<byte>)
    ensures forall j :: 0 <= j < |names| ==> StatesOfAll(names, t)[j] == StateAfter(names[j], t)
  {
    if t != [] {
      AllInStep(names, Front(t));
      FrontLast(t);
      forall j | 0 <= j < |names|
        ensures StatesOfAll(names, t)[j] == StateAfter(names[j], t)
      {
        StateAfterStep(names[j], Front(t), Last(t));
      }
    }
  }

  /** Without a wildcard the subtype bank computes membership on every text. */
  lemma SubtypesDetectMembers(names: Names, t: seq<byte>)
    requires t != []
    ensures AnyHit(names, StatesOfAll(names, Front(t)), Last(t)) <==> Listed(names, t)
  {
    AllInStep(names, Front(t));
    FrontLast(t);
    forall j | 0 <= j < |names|
      ensures Hits(names[j], StatesOfAll(names, Front(t))[j], Last(t)) <==> Same(t, names[j])
    {
      StateAfterStep(names[j], Front(t), Last(t));
    }
    if Listed(names, t) {
      var j :| 0 <= j < |names| && Same(t, names[j]);
      assert Hits(names[j], StatesOfAll(names, Front(t))[j], Last(t));
    }
  }
}
