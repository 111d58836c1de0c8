/** What one pass of the selector calls, whatever its callbacks do to the table (selector.c). */
module Dispatch {
  import opened Bytes
  import opened SelectorTable

  /** The table after the first n callbacks of a pass. */
  function TableAfter(t: Table, script: seq<seq<Op>>, n: nat): (r: Table)
    requires Tidy(t)
    ensures Tidy(r) && |r.items| == |t.items|
  {
    if n == 0 then t
    else if n <= |script| then ApplyAll(TableAfter(t, script, n - 1), script[n - 1])
    else TableAfter(t, script, n - 1)
  }

  /** How many of the calls are for descriptors below fd. */
  function CallsBelow(calls: seq<Callback>, fd: nat): nat {
    if calls == [] then 0 else CallsBelow(Front(calls), fd) + if Last(calls).fd < fd then 1 else 0
  }

  /** A pass: the table it begins with, what its callbacks will do, and what select() has reported. */
  datatype Setting = Setting(table: Table, script: seq<seq<Op>>, slave_r: set<nat>, slave_w: set<nat>)

  /** The table as it stands when the pass that has made these calls comes to fd. */
  function Before(s: Setting, calls: seq<Callback>, fd: nat): (r: Table)
    requires Tidy(s.table)
    ensures Tidy(r) && |r.items| == |s.table.items|
  {
    TableAfter(s.table, s.script, CallsBelow(calls, fd))
  }

  /** The slot is in use, asks for reading and has been reported. */
  predicate Reads(s: Setting, calls: seq<Callback>, fd: nat)
    requires Tidy(s.table) && fd < |s.table.items|
  {
    var t := Before(s, calls, fd);
    Used(t, fd) && t.items[fd].interest.read && fd in s.slave_r
  }

  /** The table once fd has been read from, if it is to be. */
  function Between(s: Setting, calls: seq<Callback>, fd: nat): (r: Table)
    requires Tidy(s.table) && fd < |s.table.items|
    ensures Tidy(r) && |r.items| == |s.table.items|
  {
    TableAfter(s.table, s.script, CallsBelow(calls, fd) + if Reads(s, calls, fd) then 1 else 0)
  }

  /** The slot was in use, asks for writing after the reading, and has been reported. */
  predicate Writes(s: Setting, calls: seq<Callback>, fd: nat)
    requires Tidy(s.table) && fd < |s.table.items|
  {
    && Used(Before(s, calls, fd), fd) && Between(s, calls, fd).items[fd].interest.write
    && fd in s.slave_w
  }

  /** What the callback is given: the data its slot had when the pass came to it. */
  function Due(s: Setting, calls: seq<Callback>, direction: Direction, fd: nat): Callback
    requires Tidy(s.table) && fd < |s.table.items|
  {
    Callback(direction, fd, Before(s, calls, fd).items[fd].data,
             if direction.Reading? then Before(s, calls, fd).items[fd] else Between(s, calls, fd).items[fd])
  }

  predicate Wants(s: Setting, calls: seq<Callback>, direction: Direction, fd: nat)
    requires Tidy(s.table) && fd < |s.table.items|
  {
    if direction.Reading? then Reads(s, calls, fd) else Writes(s, calls, fd)
  }

  /** The callbacks of fd have been made exactly as they are wanted. */
  ghost predicate Served(s: Setting, calls: seq<Callback>, fd: nat)
    requires Tidy(s.table) && fd < |s.table.items|
  {
    forall d: Direction ::
      && (Calls(calls, d, fd) <==> Wants(s, calls, d, fd))
      && (Calls(calls, d, fd) ==> Due(s, calls, d, fd) in calls && HasCallback(Due(s, calls, d, fd).slot, d))
  }

  /** One of the callbacks wanted of fd is not there, and has stopped the pass. */
  ghost predicate Stopped(s: Setting, calls: seq<Callback>, fd: nat)
    requires Tidy(s.table) && fd < |s.table.items|
  {
    && CallsBelow(calls, fd + 1) == |calls|
    && exists d: Direction :: Wants(s, calls, d, fd) && !HasCallback(Due(s, calls, d, fd).slot, d) && !Calls(calls, d, fd)
  }

  // ----- Calls for a descriptor are not looked at below it -----

  lemma BelowPush(calls: seq<Callback>, c: Callback, fd: nat)
    ensures CallsBelow(calls + [c], fd) == CallsBelow(calls, fd) + if c.fd < fd then 1 else 0
  {
    assert Front(calls + [c]) == calls;
  }

  lemma {:induction false} AllBelow(calls: seq<Callback>, fd: nat)
    requires forall i :: 0 <= i < |calls| ==> calls[i].fd < fd
    ensures CallsBelow(calls, fd) == |calls|
  {
    if calls != [] {
      AllBelow(Front(calls), fd);
    }
  }

  // ----- The pass -----

  /** What of the script is left after these calls. */
  function Left(s: Setting, calls: seq<Callback>): seq<seq<Op>> {
    if |calls| <= |s.script| then s.script[|calls|..] else []
  }

  /** The pass has come to k, in this table and with this much of the script left. */
  ghost predicate At(s: Setting, p: Pass, k: nat)
    requires Tidy(s.table) && k <= |s.table.items|
  {
    && p.table == TableAfter(s.table, s.script, |p.calls|)
    && p.script == Left(s, p.calls)
    && (forall i :: 0 <= i < |p.calls| ==> p.calls[i].fd < k)
    && if p.aborted then exists fd: nat :: fd < k && Stopped(s, p.calls, fd) && forall n: nat :: n < fd ==> Served(s, p.calls, n)
       else forall fd: nat :: fd < k ==> Served(s, p.calls, fd)
  }

  /** Nothing has been called for fd or beyond. */
  lemma NoneYet(s: Setting, calls: seq<Callback>, fd: nat)
    requires Tidy(s.table) && fd < |s.table.items|
    requires forall i :: 0 <= i < |calls| ==> calls[i].fd < fd
    ensures CallsBelow(calls, fd) == |calls| == CallsBelow(calls, fd + 1)
    ensures Before(s, calls, fd) == TableAfter(s.table, s.script, |calls|)
    ensures forall d: Direction :: !Calls(calls, d, fd)
  {
    AllBelow(calls, fd);
    AllBelow(calls, fd + 1);
  }

  /** A callback that is there: the table after one more, and the call behind the others. */
  lemma InvokeGoesOn(s: Setting, p: Pass, direction: Direction, fd: nat, data: nat)
    requires Tidy(s.table) && Tidy(p.table) && !p.aborted && fd < |p.table.items| && HasCallback(p.table.items[fd], direction)
    requires p.table == TableAfter(s.table, s.script, |p.calls|)
    requires p.script == Left(s, p.calls)
    ensures var r := Invoke(p, direction, fd, data);
            && !r.aborted && r.calls == p.calls + [Callback(direction, fd, data, p.table.items[fd])]
            && r.table == TableAfter(s.table, s.script, |r.calls|)
            && r.script == Left(s, r.calls)
  {
    var n := |p.calls|;
    if n < |s.script| {
      assert s.script[n..][0] == s.script[n] && s.script[n..][1..] == s.script[n + 1..];
    }
  }

  /** The calls made for fd itself: none, reading, writing, or both. */
  function Own(s: Setting, calls: seq<Callback>, fd: nat): (r: seq<Callback>)
    requires Tidy(s.table) && fd < |s.table.items|
  {
    (if Reads(s, calls, fd) then [Due(s, calls, Reading, fd)] else [])
    + (if Writes(s, calls, fd) then [Due(s, calls, Writing, fd)] else [])
  }

  lemma BelowMore(calls: seq<Callback>, own: seq<Callback>, fd: nat)
    requires |own| <= 2 && forall i :: 0 <= i < |own| ==> own[i].fd >= fd
    ensures CallsBelow(calls + own, fd) == CallsBelow(calls, fd)
  {
    if own == [] {
      assert calls + own == calls;
    } else if |own| == 1 {
      BelowPush(calls, own[0], fd);
      assert own == [own[0]];
    } else {
      BelowPush(calls, own[0], fd);
      BelowPush(calls + [own[0]], own[1], fd);
      assert calls + own == calls + [own[0]] + [own[1]];
    }
  }

  lemma SameBefore(s: Setting, calls: seq<Callback>, more: seq<Callback>, fd: nat)
    requires Tidy(s.table) && fd < |s.table.items| && CallsBelow(more, fd) == CallsBelow(calls, fd)
    ensures forall d: Direction :: Wants(s, more, d, fd) == Wants(s, calls, d, fd)
    ensures forall d: Direction :: Due(s, more, d, fd) == Due(s, calls, d, fd)
  {
  }

  /** What a slot's visit makes of a pass that has not stopped. */
  predicate Visits(s: Setting, p: Pass, r: Pass, fd: nat)
    requires Tidy(s.table) && fd < |s.table.items|
  {
    var toRead, toWrite := Reads(s, p.calls, fd), Writes(s, p.calls, fd);
    var read, write := Due(s, p.calls, Reading, fd), Due(s, p.calls, Writing, fd);
    && r.table == TableAfter(s.table, s.script, |r.calls|)
    && r.script == Left(s, r.calls)
    && if toRead && !HasCallback(read.slot, Reading) then r.aborted && r.calls == p.calls
       else if toWrite && !HasCallback(write.slot, Writing) then
         r.aborted && r.calls == p.calls + if toRead then [read] else []
       else !r.aborted && r.calls == p.calls + Own(s, p.calls, fd)
  }

  /** The pass after fd has been read from, if it was to be. */
  ghost predicate HasRead(s: Setting, p: Pass, q: Pass, fd: nat)
    requires Tidy(s.table) && fd < |s.table.items|
  {
    var toRead, read := Reads(s, p.calls, fd), Due(s, p.calls, Reading, fd);
    if toRead && !HasCallback(read.slot, Reading) then q == p.(aborted := true)
    else q == Pass(Between(s, p.calls, fd), p.calls + (if toRead then [read] else []), Left(s, q.calls), false)
  }

  lemma ReadFirst(s: Setting, p: Pass, fd: nat)
    requires Tidy(s.table) && fd < |s.table.items| && At(s, p, fd) && !p.aborted && Used(p.table, fd)
    ensures var data := p.table.items[fd].data;
            HasRead(s, p, if Reads(s, p.calls, fd) then Invoke(p, Reading, fd, data) else p, fd)
  {
    NoneYet(s, p.calls, fd);
    EmptyConcat(p.calls);
    if Reads(s, p.calls, fd) && HasCallback(p.table.items[fd], Reading) {
      InvokeGoesOn(s, p, Reading, fd, p.table.items[fd].data);
    }
  }

  lemma WriteNext(s: Setting, p: Pass, q: Pass, fd: nat)
    requires Tidy(s.table) && fd < |s.table.items| && At(s, p, fd) && !p.aborted && Used(p.table, fd)
    requires HasRead(s, p, q, fd) && !q.aborted && Tidy(q.table)
    ensures var r := if Writes(s, p.calls, fd) then Invoke(q, Writing, fd, p.table.items[fd].data) else q;
            Visits(s, p, r, fd)
  {
    NoneYet(s, p.calls, fd);
    EmptyConcat(q.calls);
    if Writes(s, p.calls, fd) {
      if HasCallback(q.table.items[fd], Writing) {
        InvokeGoesOn(s, q, Writing, fd, p.table.items[fd].data);
        Assoc(p.calls, if Reads(s, p.calls, fd) then [Due(s, p.calls, Reading, fd)] else [], [Due(s, p.calls, Writing, fd)]);
      }
    }
  }

  lemma SlotVisits(s: Setting, p: Pass, fd: nat)
    requires Tidy(s.table) && fd < |s.table.items| && At(s, p, fd) && !p.aborted && Tidy(p.table)
    ensures Visits(s, p, VisitSlot(p, fd, s.slave_r, s.slave_w), fd)
  {
    NoneYet(s, p.calls, fd);
    if Used(p.table, fd) {
      var q := if Reads(s, p.calls, fd) then Invoke(p, Reading, fd, p.table.items[fd].data) else p;
      ReadFirst(s, p, fd);
      if !q.aborted {
        WriteNext(s, p, q, fd);
      }
    } else {
      EmptyConcat(p.calls);
    }
  }

  lemma ServedMore(s: Setting, calls: seq<Callback>, own: seq<Callback>, fd: nat)
    requires Tidy(s.table) && fd < |s.table.items| && Served(s, calls, fd)
    requires |own| <= 2 && forall i :: 0 <= i < |own| ==> own[i].fd > fd
    ensures Served(s, calls + own, fd)
  {
    BelowMore(calls, own, fd);
    SameBefore(s, calls, calls + own, fd);
    CallsMore(calls, own);
    forall d: Direction
      ensures Calls(calls + own, d, fd) <==> Wants(s, calls + own, d, fd)
      ensures Calls(calls + own, d, fd) ==>
                Due(s, calls + own, d, fd) in calls + own && HasCallback(Due(s, calls + own, d, fd).slot, d)
    {
      assert !Calls(own, d, fd);
    }
  }

  lemma CallsMore(calls: seq<Callback>, own: seq<Callback>)
    ensures forall d: Direction, fd: nat :: Calls(calls + own, d, fd) <==> Calls(calls, d, fd) || Calls(own, d, fd)
  {
    forall d: Direction, fd: nat
      ensures Calls(calls + own, d, fd) <==> Calls(calls, d, fd) || Calls(own, d, fd)
    {
      if Calls(calls, d, fd) {
        var i :| 0 <= i < |calls| && calls[i].direction == d && calls[i].fd == fd;
        assert (calls + own)[i] == calls[i];
      }
      if Calls(own, d, fd) {
        var i :| 0 <= i < |own| && own[i].direction == d && own[i].fd == fd;
        assert (calls + own)[|calls| + i] == own[i];
      }
    }
  }

  lemma OwnAre(s: Setting, calls: seq<Callback>, d: Direction, fd: nat)
    requires Tidy(s.table) && fd < |s.table.items|
    ensures Calls(Own(s, calls, fd), d, fd) <==> Wants(s, calls, d, fd)
    ensures Wants(s, calls, d, fd) ==> Due(s, calls, d, fd) in Own(s, calls, fd)
  {
    var own := Own(s, calls, fd);
    assert Reads(s, calls, fd) ==> own[0] == Due(s, calls, Reading, fd);
    assert Writes(s, calls, fd) ==> own[|own| - 1] == Due(s, calls, Writing, fd);
  }

  lemma ServedHere(s: Setting, calls: seq<Callback>, fd: nat)
    requires Tidy(s.table) && fd < |s.table.items| && forall i :: 0 <= i < |calls| ==> calls[i].fd < fd
    requires forall d: Direction :: Wants(s, calls, d, fd) ==> HasCallback(Due(s, calls, d, fd).slot, d)
    ensures Served(s, calls + Own(s, calls, fd), fd)
  {
    var own := Own(s, calls, fd);
    var all := calls + own;
    NoneYet(s, calls, fd);
    BelowMore(calls, own, fd);
    SameBefore(s, calls, all, fd);
    CallsMore(calls, own);
    forall d: Direction
      ensures Calls(all, d, fd) <==> Wants(s, all, d, fd)
      ensures Calls(all, d, fd) ==> Due(s, all, d, fd) in all && HasCallback(Due(s, all, d, fd).slot, d)
    {
      OwnAre(s, calls, d, fd);
      assert Wants(s, all, d, fd) == Wants(s, calls, d, fd) && Due(s, all, d, fd) == Due(s, calls, d, fd);
    }
  }

  lemma NotMade(calls: seq<Callback>, own: seq<Callback>, d: Direction, fd: nat)
    requires forall i :: 0 <= i < |calls| ==> calls[i].fd < fd
    requires forall i :: 0 <= i < |own| ==> own[i].direction != d
    ensures !Calls(calls + own, d, fd)
  {
    CallsMore(calls, own);
  }

  lemma StoppedHere(s: Setting, calls: seq<Callback>, own: seq<Callback>, d: Direction, fd: nat)
    requires Tidy(s.table) && fd < |s.table.items| && forall i :: 0 <= i < |calls| ==> calls[i].fd < fd
    requires |own| <= 1 && forall i :: 0 <= i < |own| ==> own[i].fd == fd && own[i].direction != d
    requires Wants(s, calls, d, fd) && !HasCallback(Due(s, calls, d, fd).slot, d)
    ensures Stopped(s, calls + own, fd)
  {
    AllBelow(calls + own, fd + 1);
    NotMade(calls, own, d, fd);
    BelowMore(calls, own, fd);
    SameBefore(s, calls, calls + own, fd);
    assert Wants(s, calls + own, d, fd);
  }

  lemma OwnCalls(s: Setting, p: Pass, r: Pass, fd: nat)
    requires Tidy(s.table) && fd < |s.table.items| && Visits(s, p, r, fd)
    ensures p.calls <= r.calls
    ensures var own := r.calls[|p.calls|..];
            && r.calls == p.calls + own && |own| <= 2 && (r.aborted ==> |own| <= 1)
            && (forall i :: 0 <= i < |own| ==> own[i].fd == fd)
            && (r.aborted ==> forall i :: 0 <= i < |own| ==> own[i].direction == Reading)
  {
  }

  lemma SlotKeepsAt(s: Setting, p: Pass, r: Pass, fd: nat)
    requires Tidy(s.table) && fd < |s.table.items| && At(s, p, fd) && !p.aborted && Visits(s, p, r, fd)
    ensures At(s, r, fd + 1)
  {
    var own := r.calls[|p.calls|..];
    OwnCalls(s, p, r, fd);
    var read, write := Due(s, p.calls, Reading, fd), Due(s, p.calls, Writing, fd);
    forall n: nat | n < fd
      ensures Served(s, r.calls, n)
    {
      ServedMore(s, p.calls, own, n);
    }
    if !r.aborted {
      ServedHere(s, p.calls, fd);
    } else if Reads(s, p.calls, fd) && !HasCallback(read.slot, Reading) {
      StoppedHere(s, p.calls, own, Reading, fd);
    } else {
      StoppedHere(s, p.calls, own, Writing, fd);
    }
  }

  lemma {:induction false} PassIsAt(s: Setting, k: nat)
    requires Tidy(s.table) && k <= |s.table.items|
    ensures At(s, Visit(Pass(s.table, [], s.script, false), k, s.slave_r, s.slave_w), k)
    decreases k
  {
    var start := Pass(s.table, [], s.script, false);
    if k == 0 {
      assert s.script[0..] == s.script;
    } else {
      PassIsAt(s, k - 1);
      var p := Visit(start, k - 1, s.slave_r, s.slave_w);
      if !p.aborted {
        SlotVisits(s, p, k - 1);
        SlotKeepsAt(s, p, VisitSlot(p, k - 1, s.slave_r, s.slave_w), k - 1);
      }
    }
  }

  /**
   * Whatever the callbacks do to the table: a pass that is not stopped has made, for each descriptor and direction, its
   * callback exactly if in the table as it stood when the pass came there it was wanted, with the data and the slot of that
   * moment; and it is stopped exactly by the first wanted callback that is not there, all before it having been made.
   */
  lemma PassIsComplete(s: Setting, k: nat)
    requires Tidy(s.table) && k <= |s.table.items|
    ensures var r := Visit(Pass(s.table, [], s.script, false), k, s.slave_r, s.slave_w);
            && r.table == TableAfter(s.table, s.script, |r.calls|)
            && (!r.aborted ==> forall fd: nat :: fd < k ==> Served(s, r.calls, fd))
            && (r.aborted ==> exists fd: nat :: fd < k && Stopped(s, r.calls, fd) && forall n: nat :: n < fd ==> Served(s, r.calls, n))
            && (r.aborted <==> exists d: Direction, fd: nat ::
                  fd < k && Wants(s, r.calls, d, fd) && !HasCallback(Due(s, r.calls, d, fd).slot, d))
  {
    PassIsAt(s, k);
    var r := Visit(Pass(s.table, [], s.script, false), k, s.slave_r, s.slave_w);
    if r.aborted {
      var fd: nat :| fd < k && Stopped(s, r.calls, fd);
      var d: Direction :| Wants(s, r.calls, d, fd) && !HasCallback(Due(s, r.calls, d, fd).slot, d) && !Calls(r.calls, d, fd);
    } else {
      forall d: Direction, fd: nat | fd < k && Wants(s, r.calls, d, fd)
        ensures HasCallback(Due(s, r.calls, d, fd).slot, d)
      {
        assert Served(s, r.calls, fd);
      }
    }
  }
}
