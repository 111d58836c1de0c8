/** The selector as the program has it: an array of slots that grows, and what is derived from it (selector.c). */
module Selectors {
  import opened Bytes
  import opened Options
  import opened Capacity
  import opened SelectorTable
  import D = Dispatch

  class Selector {
    var fds: array?<Item>
    var fd_size: nat
    var max_fd: nat
    var master_r: set<nat>
    var master_w: set<nat>
    var slave_r: set<nat>
    var slave_w: set<nat>
    /** The close callbacks made so far: descriptor and data. */
    ghost var closed: seq<(nat, nat)>

    ghost predicate Valid()
      reads this
    {
      && (fds == null ==> fd_size == 0)
      && (fds != null ==> fds.Length == fd_size)
    }

    /** The slots as a sequence. */
    ghost function Items(): seq<Item>
      requires Valid()
      reads this, fds
    {
      if fds == null then [] else fds[..]
    }

    ghost function Abs(): Table
      requires Valid()
      reads this, fds
    {
      Table(Items(), max_fd, master_r, master_w)
    }

    /** What selector_new sets up and every operation keeps. */
    ghost predicate Sound()
      reads this, fds
    {
      Valid() && fds != null && Inv(Abs()) && Sized(Abs())
    }

    /** The struct, cleared. */
    constructor ()
      ensures Valid() && fds == null && Abs() == Table([], 0, {}, {}) && closed == []
    {
      fds := null;
      fd_size := 0;
      max_fd := 0;
      master_r, master_w := {}, {};
      slave_r, slave_w := {}, {};
      closed := [];
    }

    /** Marks the slots from last on as unused, and touches nothing else in them. */
    method ItemsInit(last: nat)
      requires Valid() && fds != null && last <= fd_size
      modifies fds
      ensures fds[..last] == old(fds[..last])
      ensures forall i :: last <= i < fd_size ==> fds[i] == old(fds[i]).(fd := FD_UNUSED)
    {
      for i := last to fd_size
        invariant fds[..last] == old(fds[..last])
        invariant forall j :: last <= j < i ==> fds[j] == old(fds[j]).(fd := FD_UNUSED)
        invariant forall j :: i <= j < fd_size ==> fds[j] == old(fds[j])
      {
        fds[i] := fds[i].(fd := FD_UNUSED);
      }
    }

    /** granted tells whether calloc or realloc gives the memory asked for. */
    method EnsureCapacity(n: nat, granted: bool) returns (ret: Status)
      requires Valid()
      modifies `fds, `fd_size
      ensures Valid() && (fds != old(fds) ==> fresh(fds))
      ensures ret == if n < old(fd_size) then Success
                     else if n > ITEMS_MAX_SIZE then MaxFd
                     else if !granted then ENoMem
                     else Success
      ensures ret != Success || n < old(fd_size) ==> fds == old(fds) && fd_size == old(fd_size)
      ensures ret == Success ==> n < fd_size
      ensures ret == Success && n >= old(fd_size) ==>
                && (exists p: nat :: LeastPowerAbove(p, n) && fd_size == (if p > ITEMS_MAX_SIZE then ITEMS_MAX_SIZE else p) + 1)
                && Items()[..old(fd_size)] == old(Items())
                && (forall i :: old(fd_size) <= i < fd_size ==> Items()[i].fd == FD_UNUSED)
                && (old(fds) == null ==> forall i :: 0 <= i < fd_size ==> Items()[i] == BLANK)
    {
      if n < fd_size {
        return Success;
      }
      if n > ITEMS_MAX_SIZE {
        return MaxFd;
      }
      var new_size := NextCapacity(n);
      if !granted {
        return ENoMem;
      }
      if fds == null {
        fds := new Item[new_size](_ => Item(0, OP_NOOP, None, 0));
        fd_size := new_size;
        ItemsInit(0);
      } else {
        var tmp := new Item[new_size];
        forall i | 0 <= i < fd_size {
          tmp[i] := fds[i];
        }
        ghost var kept := fds[..];
        assert tmp[..fd_size] == kept;
        var old_size := fd_size;
        fds := tmp;
        fd_size := new_size;
        ItemsInit(old_size);
      }
      return Success;
    }

    method ItemsMaxFd() returns (max: nat)
      requires Valid() && fds != null && max_fd < fd_size
      requires SlotsAgree(Abs())
      ensures max == Largest(Items(), max_fd + 1)
    {
      max := 0;
      var i := 0;
      while i <= max_fd
        invariant 0 <= i <= max_fd + 1
        invariant max == Largest(Items(), i)
      {
        if fds[i].fd != FD_UNUSED {
          if fds[i].fd > max {
            max := fds[i].fd;
          }
        }
        i := i + 1;
      }
    }

    method ItemsUpdateFdset(fd: nat)
      requires Valid() && fds != null && fd < fd_size
      modifies `master_r, `master_w
      ensures Abs() == UpdateSets(old(Abs()), fd)
    {
      var item := fds[fd];
      master_r := master_r - {fd};
      master_w := master_w - {fd};
      if item.fd != FD_UNUSED {
        if item.interest.read {
          master_r := master_r + {fd};
        }
        if item.interest.write {
          master_w := master_w + {fd};
        }
      }
    }

    /**
     * granted tells whether there is memory where the table has to grow, which it does for descriptors above fd_size;
     * for fd_size itself the original reads and writes behind the table.
     */
    method Register(fd: int, handler: Option<FdHandler>, interest: Interest, data: nat, granted: bool)
      returns (ret: Status, ghost grown: Table)
      requires Sound() && (InvalidFd(fd) || handler.None? || fd != fd_size)
      modifies `fds, `fd_size, `max_fd, `master_r, `master_w, fds
      ensures Sound() && (fds == old(fds) || fresh(fds))
      ensures var refused := InvalidFd(fd) || handler.None?;
              var growing := !refused && fd > old(fd_size);
              && (if growing && granted then Grows(old(Abs()), grown, fd) else grown == old(Abs()) && fds == old(fds))
              && (refused ==> ret == IArgs && Abs() == grown)
              && (growing && !granted ==> ret == ENoMem && Abs() == grown)
              && (!refused && (growing ==> granted) ==>
                    fd < |grown.items| && (Abs(), ret) == SelectorTable.Register(grown, fd, handler, interest, data))
    {
      grown := Abs();
      if InvalidFd(fd) || handler.None? {
        return IArgs, grown;
      }
      if fd > fd_size {
        var status := EnsureCapacity(fd, granted);
        if status != Success {
          return status, grown;
        }
        GrownKeeps(grown, Abs(), fd);
        grown := Abs();
      }
      RegisterKeeps(grown, fd, handler, interest, data);
      if fds[fd].fd != FD_UNUSED {
        return FdInUse, grown;
      }
      fds[fd] := Item(fd, interest, handler, data);
      if fd > max_fd {
        max_fd := fd;
      }
      ItemsUpdateFdset(fd);
      return Success, grown;
    }

    method UnregisterFd(fd: int) returns (ret: Status)
      requires Sound() && (!InvalidFd(fd) ==> fd < fd_size)
      modifies `max_fd, `master_r, `master_w, `closed, fds
      ensures Sound()
      ensures (Abs(), ret) == Unregister(old(Abs()), fd)
      ensures closed == old(closed) +
                if ret == Success && old(fds[fd]).handler.Some? && old(fds[fd]).handler.value.close
                then [(fd as nat, old(fds[fd]).data)] else []
    {
      UnregisterKeeps(Abs(), fd);
      if InvalidFd(fd) {
        return IArgs;
      }
      if fds[fd].fd == FD_UNUSED {
        return IArgs;
      }
      if fds[fd].handler.Some? && fds[fd].handler.value.close {
        closed := closed + [(fd, fds[fd].data)];
      }
      fds[fd] := fds[fd].(interest := OP_NOOP);
      ItemsUpdateFdset(fd);
      fds[fd] := BLANK;
      max_fd := ItemsMaxFd();
      return Success;
    }

    method SetInterest(fd: int, interest: Interest) returns (ret: Status)
      requires Sound() && (!InvalidFd(fd) ==> fd < fd_size)
      modifies `master_r, `master_w, fds
      ensures Sound()
      ensures (Abs(), ret) == SelectorTable.SetInterest(old(Abs()), fd, interest)
    {
      SetInterestKeeps(Abs(), fd, interest);
      if InvalidFd(fd) {
        return IArgs;
      }
      if fds[fd].fd == FD_UNUSED {
        return IArgs;
      }
      fds[fd] := fds[fd].(interest := interest);
      ItemsUpdateFdset(fd);
      return Success;
    }

    /** With a slot for every descriptor, and none of the unused ones asking for anything. */
    ghost predicate Settled()
      reads this, fds
    {
      Sound() && Tidy(Abs())
    }

    /** What one callback does to the selector. */
    method Execute(ops: seq<Op>)
      requires Settled()
      modifies `fds, `fd_size, `max_fd, `master_r, `master_w, `closed, fds
      ensures Settled() && fds == old(fds)
      ensures Abs() == ApplyAll(old(Abs()), ops)
    {
      for i := 0 to |ops|
        invariant Settled() && fds == old(fds) && Abs() == ApplyAll(old(Abs()), ops[..i])
      {
        assert Front(ops[..i + 1]) == ops[..i];
        ghost var before := Abs();
        match ops[i] {
          case DoRegister(fd, handler, interest, data) =>
            var r, grown := Register(fd, handler, interest, data, true);
          case DoUnregister(fd) => var r := UnregisterFd(fd);
          case DoSetInterest(fd, interest) => var r := SetInterest(fd, interest);
        }
        ApplyKeeps(before, ops[i]);
      }
      assert ops[..|ops|] == ops;
    }

    /** One callback: it is noted down with its slot, and does what the script has next; without it the program is aborted. */
    method Callback(direction: Direction, fd: nat, data: nat, calls: seq<SelectorTable.Callback>, script: seq<seq<Op>>)
      returns (calls': seq<SelectorTable.Callback>, script': seq<seq<Op>>, aborted: bool)
      requires Settled() && fd < fd_size
      modifies `fds, `fd_size, `max_fd, `master_r, `master_w, `closed, fds
      ensures Settled() && fds == old(fds)
      ensures Pass(Abs(), calls', script', aborted) == Invoke(Pass(old(Abs()), calls, script, false), direction, fd, data)
    {
      calls', script', aborted := calls, script, false;
      if !HasCallback(fds[fd], direction) {
        aborted := true;
        return;
      }
      calls' := calls + [SelectorTable.Callback(direction, fd, data, fds[fd])];
      if |script| > 0 {
        Execute(script[0]);
        script' := script[1..];
      }
    }

    /** The body of the loop of handle_iteration. */
    method HandleSlot(i: nat, calls: seq<SelectorTable.Callback>, script: seq<seq<Op>>)
      returns (calls': seq<SelectorTable.Callback>, script': seq<seq<Op>>, aborted: bool)
      requires Settled() && i < fd_size
      modifies `fds, `fd_size, `max_fd, `master_r, `master_w, `closed, fds
      ensures Settled() && fds == old(fds)
      ensures Pass(Abs(), calls', script', aborted) ==
              VisitSlot(Pass(old(Abs()), calls, script, false), i, slave_r, slave_w)
    {
      calls', script', aborted := calls, script, false;
      if fds[i].fd != FD_UNUSED {
        var data := fds[i].data;
        if i in slave_r {
          if fds[i].interest.read {
            calls', script', aborted := Callback(Reading, i, data, calls', script');
          }
        }
        if !aborted && i in slave_w {
          if fds[i].interest.write {
            calls', script', aborted := Callback(Writing, i, data, calls', script');
          }
        }
      }
    }

    /** The slots up to n; script says what each callback does to the table in turn. */
    method HandleSlots(n: nat, script: seq<seq<Op>>) returns (calls: seq<SelectorTable.Callback>, aborted: bool)
      requires Settled() && n < fd_size
      modifies `fds, `fd_size, `max_fd, `master_r, `master_w, `closed, fds
      ensures Settled() && fds == old(fds)
      ensures var r := Visit(Pass(old(Abs()), [], script, false), n + 1, slave_r, slave_w);
              Abs() == r.table && calls == r.calls && aborted == r.aborted
    {
      ghost var start := Pass(Abs(), [], script, false);
      calls, aborted := [], false;
      var rest, i := script, 0;
      while i <= n && !aborted
        invariant 0 <= i <= n + 1
        invariant Settled() && fds == old(fds)
        invariant Pass(Abs(), calls, rest, aborted) == Visit(start, i, slave_r, slave_w)
      {
        calls, rest, aborted := HandleSlot(i, calls, rest);
        i := i + 1;
      }
      if aborted {
        VisitAborted(start, i, n + 1, slave_r, slave_w);
      }
    }

    /** One pass over the selector's slots after select() has filled in the snapshot. */
    method HandleIteration(script: seq<seq<Op>>) returns (calls: seq<SelectorTable.Callback>, aborted: bool)
      requires Settled()
      modifies `fds, `fd_size, `max_fd, `master_r, `master_w, `closed, fds
      ensures Settled() && fds == old(fds)
      ensures var r := Visit(Pass(old(Abs()), [], script, false), old(max_fd) + 1, slave_r, slave_w);
              Abs() == r.table && calls == r.calls && aborted == r.aborted
      ensures Safe(calls, old(max_fd) + 1, slave_r, slave_w)
      ensures !aborted ==>
                forall fd: nat :: Used(old(Abs()), fd) ==> D.Served(D.Setting(old(Abs()), script, slave_r, slave_w), calls, fd)
    {
      ghost var start, n := Pass(Abs(), [], script, false), max_fd + 1;
      ghost var setting := D.Setting(Abs(), script, slave_r, slave_w);
      calls, aborted := HandleSlots(max_fd, script);
      DispatchSafe(start, n, slave_r, slave_w);
      D.PassIsComplete(setting, n);
    }
  }

  /** selector_new; granted tells whether calloc gives the memory. */
  method SelectorNew(initial: nat, granted: bool) returns (s: Selector?)
    ensures s != null <==> initial <= ITEMS_MAX_SIZE && granted
    ensures s != null ==>
              && fresh(s) && s.Sound() && fresh(s.fds) && s.closed == [] && s.fd_size > initial
              && s.Abs() == Table(seq(s.fd_size, _ => BLANK), 0, {}, {})
              && (initial == 1024 ==> s.Abs() == New() && s.Settled())
  {
    var ret := new Selector();
    var status := ret.EnsureCapacity(initial, granted);
    if status != Success {
      return null;
    }
    assert ret.Items() == seq(ret.fd_size, _ => BLANK);
    if initial == 1024 {
      CapacityOf1024(ret.fd_size);
    }
    return ret;
  }

  lemma CapacityOf1024(size: nat)
    requires exists p: nat ::
               LeastPowerAbove(p, 1024) && size == (if p > ITEMS_MAX_SIZE then ITEMS_MAX_SIZE else p) + 1
    ensures size == CAPACITY
  {
  }
}
