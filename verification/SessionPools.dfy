/** The sessions' structs and the list of those to be used again, updated in place (pop3_client_nio.c). */
module SessionPools {
  import opened Options
  import opened SessionLifetime

  /** What counts here of struct pop3. */
  class Node {
    var client_fd: int
    var origin_fd: int
    var references: int
    var next: Node?

    constructor ()
    {
      client_fd, origin_fd, references, next := 0, 0, 0, null;
    }
  }

  ghost function At(nodes: seq<Node>, i: nat): Node? {
    if i < |nodes| then nodes[i] else null
  }

  class Pool {
    var pool: Node?
    var pool_size: nat
    /** What the selector holds: which session each descriptor is for. */
    var entries: map<nat, Node>
    ghost var live: set<Node>
    ghost var nodes: seq<Node>
    ghost var made: set<Node>
    ghost var freed: set<Node>
    ghost var reused: nat

    /** The list from pool on holds the nodes, in order. */
    ghost predicate Linked()
      reads this, nodes
    {
      pool == At(nodes, 0) && forall i :: 0 <= i < |nodes| ==> nodes[i].next == At(nodes, i + 1)
    }

    /** What is in the pool is there once, and not in use. */
    ghost predicate Apart()
      reads this
    {
      Distinct(nodes) && forall n :: n in nodes ==> n !in live
    }

    ghost function Abs(): World<Node>
      reads this, live
    {
      World(entries, map s | s in live :: Struct(s.client_fd, s.origin_fd, s.references),
            nodes, pool_size, made, freed, reused)
    }

    ghost predicate Valid()
      reads this, live, nodes
    {
      Linked() && Inv(Abs())
    }

    constructor ()
      ensures Valid() && Wired(Abs()) && Abs() == Start()
    {
      pool := null;
      pool_size := 0;
      entries := map[];
      live, nodes, made, freed, reused := {}, [], {}, {}, 0;
      new;
      RunKeeps<Node>([]);
    }

    /** The first of the pool's list comes off it. */
    method Pop() returns (ret: Node)
      requires Linked() && Distinct(nodes) && nodes != []
      modifies `pool, `nodes, nodes
      ensures Linked() && Distinct(nodes) && ret !in nodes && ret == old(nodes)[0] && nodes == old(nodes)[1..]
    {
      ret := pool;
      ghost var all := nodes;
      pool := pool.next;
      ret.next := null;
      nodes := nodes[1..];
      assert forall i :: 0 <= i < |nodes| ==> nodes[i] == all[i + 1] && nodes[i].next == old(all[i + 1].next);
    }

    method Begin(s: Node, client_fd: nat)
      modifies `live, s`origin_fd, s`client_fd, s`references
      ensures s in live && live == old(live) + {s}
      ensures Abs() == old(Abs()).(sessions := old(Abs()).sessions[s := Struct(client_fd, NO_FD, 1)])
    {
      ghost var before := Abs();
      live := live + {s};
      s.origin_fd := NO_FD;
      s.client_fd := client_fd;
      s.references := 1;
      assert Abs().sessions == before.sessions[s := Struct(client_fd, NO_FD, 1)];
    }

    /** pop3_new; granted tells whether malloc gives memory. */
    method New(client_fd: nat, granted: bool) returns (ret: Node?)
      requires Linked() && Apart()
      modifies `pool, `live, `nodes, `made, `reused, nodes
      ensures Linked() && Apart() && (ret != null ==> ret in live) && (ret != null && old(nodes) == [] ==> fresh(ret))
      ensures ret == null <==> old(nodes) == [] && !granted
      ensures ret == null ==> Abs() == old(Abs())
      ensures ret != null && old(nodes) != [] ==> ret == old(nodes)[0]
      ensures ret != null ==> Abs() == SessionLifetime.New(old(Abs()), client_fd, Some(ret)).0
    {
      if pool == null {
        if !granted {
          return null;
        }
        ghost var before := Abs().sessions;
        ret := new Node();
        made := made + {ret};
        assert Abs().sessions == before;
      } else {
        assert nodes[0] in nodes;
        ghost var before := Abs().sessions;
        ret := Pop();
        assert Abs().sessions == before;
        reused := reused + 1;
      }
      Begin(ret, client_fd);
    }

    /** s goes before the pool's list. */
    method Push(s: Node)
      requires Linked() && s !in nodes
      modifies `pool, `pool_size, `nodes, s`next
      ensures Linked() && nodes == [s] + old(nodes) && pool_size == old(pool_size) + 1
    {
      ghost var all := nodes;
      s.next := pool;
      pool := s;
      pool_size := pool_size + 1;
      nodes := [s] + nodes;
      assert forall i :: 1 <= i < |nodes| ==> nodes[i] == all[i - 1] && nodes[i].next == old(all[i - 1].next);
    }

    /** destroy_suscription */
    method Destroy(s: Node)
      requires Linked() && s in live && s !in nodes
      modifies `pool, `pool_size, `live, `nodes, `freed, s`references, s`next
      ensures Linked() && live <= old(live)
      ensures Abs() == SessionLifetime.Destroy(old(Abs()), s)
    {
      ghost var before := Abs();
      if s.references == 1 {
        live := live - {s};
        if pool_size < MAX_POOL {
          Push(s);
        } else {
          freed := freed + {s};
        }
        assert Abs().sessions == before.sessions - {s};
      } else {
        s.references := s.references - 1;
        assert Abs().sessions == before.sessions[s := Struct(s.client_fd, s.origin_fd, s.references)];
      }
    }

    method TakeIn(fd: nat, granted: bool, registered: bool) returns (ghost memory: Option<Node>)
      requires Linked() && Apart()
      modifies this, live, nodes
      ensures Linked()
      ensures memory.Some? <==> old(nodes) == [] && granted
      ensures memory.Some? ==> fresh(memory.value)
      ensures Abs() == SessionLifetime.Accept(old(Abs()), fd, memory, registered)
    {
      memory := None;
      ghost var empty := nodes == [];
      var s := New(fd, granted);
      if s != null {
        memory := if empty then Some(s) else None;
        if registered {
          entries := entries[fd := s];
        } else {
          Destroy(s);
        }
      }
    }

    /**
     * pop3_passive_accept: nio tells whether fcntl succeeds on the new descriptor, granted whether malloc gives memory,
     * registered whether the selector takes the descriptor.
     */
    method Accept(fd: nat, nio: bool, granted: bool, registered: bool) returns (ghost memory: Option<Node>)
      requires Valid() && Wired(Abs()) && NotOpen(Abs(), fd)
      modifies this, live, nodes
      ensures Valid() && Wired(Abs())
      ensures !nio ==> memory.None? && Abs() == old(Abs())
      ensures nio ==>
                && (memory.Some? <==> old(nodes) == [] && granted)
                && (memory.Some? ==> fresh(memory.value))
                && Abs() == SessionLifetime.Accept(old(Abs()), fd, memory, registered)
    {
      memory := None;
      if !nio {
        return;
      }
      ghost var before := Abs();
      assert live == before.sessions.Keys;
      memory := TakeIn(fd, granted, registered);
      assert memory.Some? ==> memory.value !in before.made;
      if registered {
        AcceptRegistered(before, fd, memory);
      } else {
        AcceptRefused(before, fd, memory);
      }
      AcceptWires(before, fd, memory, registered);
    }

    method Refer(s: Node, attempt: Attempt)
      requires Linked() && s in live && !attempt.AtOnce?
      modifies `entries, s`origin_fd, s`references
      ensures Linked() && Abs() == SessionLifetime.Connect(old(Abs()), s, attempt)
    {
      ghost var before := Abs();
      match attempt {
        case Failed => s.origin_fd := NO_FD;
        case Registered(fd) =>
          s.origin_fd := fd;
          entries := entries[fd := s];
          s.references := s.references + 1;
        case LeftOpen(fd) => s.origin_fd := fd;
        case AtOnce =>
      }
      assert Abs().sessions == before.sessions[s := Struct(s.client_fd, s.origin_fd, s.references)];
    }

    /** attempt_connection, on the part of the origin's descriptor; aborted tells whether it stops the program. */
    method Connect(s: Node, attempt: Attempt) returns (aborted: bool)
      requires Valid() && Wired(Abs()) && s in live && s.origin_fd == NO_FD && CanAttempt(Abs(), attempt)
      modifies `entries, s`origin_fd, s`references
      ensures Valid() && Wired(Abs())
      ensures aborted <==> attempt.AtOnce?
      ensures Abs() == if aborted then old(Abs()) else SessionLifetime.Connect(old(Abs()), s, attempt)
    {
      if attempt.AtOnce? {
        return true;
      }
      ConnectKeeps(Abs(), s, attempt);
      ConnectWires(Abs(), s, attempt);
      Refer(s, attempt);
      return false;
    }

    method Drop(fd: nat)
      requires Linked() && Apart() && fd in entries && entries[fd] in live
      modifies this, live
      ensures Linked() && live <= old(live)
      ensures Abs() == SessionLifetime.Unregister(old(Abs()), fd)
    {
      Destroy(entries[fd]);
      entries := entries - {fd};
    }

    /** selector_unregister_fd with the close callback; whether there was such an entry. */
    method Unregister(fd: int) returns (found: bool)
      requires Valid()
      modifies this, live
      ensures Valid() && live <= old(live) && found == (fd >= 0 && fd in old(entries))
      ensures !found ==> Abs() == old(Abs())
      ensures found ==> Abs() == SessionLifetime.Unregister(old(Abs()), fd)
    {
      if fd < 0 || fd !in entries {
        return false;
      }
      UnregisterKeeps(Abs(), fd);
      assert live == Abs().sessions.Keys;
      Drop(fd);
      return true;
    }

    /** finished_suscription; aborted tells whether it stops the program. */
    method Finish(s: Node) returns (aborted: bool)
      requires Valid() && Wired(Abs()) && s in live
      modifies this, live
      ensures aborted <==> old(Loose(Abs(), s))
      ensures !aborted ==>
                && Valid() && Wired(Abs()) && Returned(old(Abs()), Abs(), s)
                && SessionLifetime.Finish(old(Abs()), s) == Some(Abs())
    {
      ghost var before := Abs();
      HoldersOf(before, s);
      FinishReturns(before, s);
      if before.sessions[s].origin_fd == NO_FD {
        OnlyClosed(before, s);
        FinishWires(before, s);
      } else if !Loose(before, s) {
        FirstClosed(before, s);
        FinishWires(before, s);
      } else {
        OnlyClosed(before, s);
      }
      var client_fd, origin_fd := s.client_fd, s.origin_fd;
      aborted := false;
      if client_fd != NO_FD {
        var found := Unregister(client_fd);
        aborted := !found;
      }
      if !aborted && origin_fd != NO_FD {
        var found := Unregister(origin_fd);
        aborted := !found;
      }
    }

    /** selector_destroy, of a selector with n slots: no session is left, and none is lost. */
    method UnregisterAll(n: nat)
      requires Valid() && forall fd :: fd in entries ==> fd < n
      modifies this, live
      ensures Valid() && entries == map[] && live == {}
      ensures made == old(made) == (set s | s in nodes) + freed
    {
      for i := 0 to n
        invariant Valid() && made == old(made) && live <= old(live)
        invariant forall fd :: fd in entries ==> i <= fd < n
      {
        if i in entries {
          UnregisterKeeps(Abs(), i);
        }
        var found := Unregister(i);
      }
      assert entries == map[];
      NoEntriesNoSessions(Abs());
      assert live == Abs().sessions.Keys;
    }
  }
}
