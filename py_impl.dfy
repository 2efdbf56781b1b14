/**
  The first draft's objects (inet.py), with their fields updated in place.
  Every method is proved to leave the state that the functions of module
  PyNet compute, so the lemmas of PyNetProofs carry over to the objects.
*/
module PyNetImpl {
  import opened Options
  import opened PyNet
  import opened PyNetProofs

  /**
    `ArestaMap` (inet.py:24-38): a dict whose writes and deletions act on
    both ends of a wire.
  */
  class ArestaMap {
    var entries: map<Porta, Porta>

    /** `ArestaMap(*args)` (inet.py:26-27): the entries it is built from, as given. */
    constructor (initial: map<Porta, Porta>)
      ensures entries == initial
    {
      entries := initial;
    }

    /** `__setitem__` (inet.py:29-33): both directions are written, no other key changes. */
    method SetItem(key: Porta, value: Porta)
      modifies this
      ensures entries == Mirrored(old(entries), key, value)
      ensures key in entries && entries[key] == value && value in entries && entries[value] == key
      ensures entries.Keys == old(entries).Keys + {key, value}
      ensures forall p :: p in old(entries) && p != key && p != value ==> entries[p] == old(entries)[p]
    {
      entries := entries[key := value];
      entries := entries[value := key];
    }

    /**
      `__delitem__` (inet.py:35-38): look up the value, delete the key, then
      the value; a missing key or value raises `KeyError`.
    */
    method DelItem(key: Porta) returns (raised: Option<PyError>)
      modifies this
      ensures (entries, raised) == Unmirror(old(entries), key)
    {
      if key !in entries {
        return Some(KeyError(key));
      }
      var val := entries[key];
      entries := entries - {key};
      if val !in entries {
        return Some(KeyError(val));
      }
      entries := entries - {val};
      raised := None;
    }
  }

  /** `InteractionNet` (inet.py:41-153). */
  class InteractionNet {
    var arestas: map<Porta, Porta>
    var nodeCount: nat
    var talvez: seq<Porta>

    /** The three fields as one value. */
    function Snapshot(): State
      reads this
    {
      State(arestas, nodeCount, talvez)
    }

    /** `__init__` (inet.py:43-46): no wires, counter at 0, empty list. */
    constructor ()
      ensures Snapshot() == Initial
    {
      arestas := map[];
      nodeCount := 0;
      talvez := [];
    }

    /** `add_node` (inet.py:142-145): the node numbered by the counter, and the counter one up. */
    method AddNode(kind: Label) returns (n: Node)
      modifies this
      ensures (Snapshot(), n) == PyNet.AddNode(old(Snapshot()), kind)
      ensures n == Node(old(nodeCount), kind) && nodeCount == old(nodeCount) + 1
      ensures arestas == old(arestas) && talvez == old(talvez)
    {
      n := Node(nodeCount, kind);
      nodeCount := nodeCount + 1;
    }

    /**
      `connect_ports` (inet.py:147-153) as a builder calls it: neither port
      may be wired yet; both directions are written and both ports queued.
    */
    method ConnectPorts(left: Porta, right: Porta)
      requires ConnectGuard(arestas, left, right)
      modifies this
      ensures Snapshot() == Connect(old(Snapshot()), left, right)
      ensures arestas[left] == right && arestas[right] == left
      ensures talvez == old(talvez) + [left, right] && nodeCount == old(nodeCount)
    {
      arestas := arestas[left := right];
      arestas := arestas[right := left];
      talvez := talvez + [left];
      talvez := talvez + [right];
    }

    /**
      `connect_ports` (inet.py:150-153) as the rewrite rules call it, without
      the guard of inet.py:148-149: the right port may still be wired and is
      rewired to the left one.
    */
    method Link(left: Porta, right: Porta)
      modifies this
      ensures Snapshot() == Connect(old(Snapshot()), left, right)
      ensures arestas.Keys == old(arestas).Keys + {left, right}
    {
      arestas := arestas[left := right];
      arestas := arestas[right := left];
      talvez := talvez + [left];
      talvez := talvez + [right];
    }

    /** `del self.arestas[k]`. */
    method Delete(k: Porta) returns (raised: Option<PyError>)
      modifies this
      ensures Run(Snapshot(), raised) == PyNet.Delete(old(Snapshot()), k)
    {
      if k !in arestas {
        return Some(KeyError(k));
      }
      arestas := arestas - {k};
      raised := None;
    }

    /** The three `del` statements for the ports of a binary node, in order. */
    method DeleteNode(n: Node) returns (raised: Option<PyError>)
      modifies this
      ensures Run(Snapshot(), raised) == DeleteAll(old(Snapshot()), Consumed(n))
    {
      ghost var s0 := Snapshot();
      DeleteAllAppend(s0, [Porta(n, 0)], [Porta(n, 1), Porta(n, 2)]);
      DeleteAllAppend(PyNet.Delete(s0, Porta(n, 0)).state, [Porta(n, 1)], [Porta(n, 2)]);
      raised := Delete(Porta(n, 0));
      if raised.Some? {
        return;
      }
      ghost var s1 := Snapshot();
      raised := Delete(Porta(n, 1));
      if raised.Some? {
        return;
      }
      assert Run(Snapshot(), raised) == DeleteAll(s1, [Porta(n, 1)]);
      raised := Delete(Porta(n, 2));
    }

    /** The two `del` statements of the annihilation arm (inet.py:60-61). */
    method Annihilate(left: Node, right: Node) returns (raised: Option<PyError>)
      modifies this
      ensures Run(Snapshot(), raised) == DeleteAll(old(Snapshot()), [Porta(left, 0), Porta(right, 0)])
    {
      DeleteAllAppend(Snapshot(), [Porta(left, 0)], [Porta(right, 0)]);
      raised := Delete(Porta(left, 0));
      if raised.Some? {
        return;
      }
      ghost var s1 := Snapshot();
      raised := Delete(Porta(right, 0));
      assert Run(Snapshot(), raised) == DeleteAll(s1, [Porta(right, 0)]);
    }

    /**
      A duplication arm (inet.py:63-73 and inet.py:76-86): two nodes
      labelled `freshKind`, the two lookups, the two connections, and the
      four deletions.
    */
    method DuplicateNodes(nullary: Node, binary: Node, freshKind: Label) returns (raised: Option<PyError>)
      modifies this
      ensures Run(Snapshot(), raised) == Duplicate(old(Snapshot()), nullary, binary, freshKind)
    {
      var fresh1 := AddNode(freshKind);
      var fresh2 := AddNode(freshKind);
      if Porta(binary, 1) !in arestas {
        return Some(KeyError(Porta(binary, 1)));
      }
      var conn1 := arestas[Porta(binary, 1)];
      if Porta(binary, 2) !in arestas {
        return Some(KeyError(Porta(binary, 2)));
      }
      var conn2 := arestas[Porta(binary, 2)];
      Link(Porta(fresh1, 0), conn1);
      Link(Porta(fresh2, 0), conn2);
      ghost var s3 := Snapshot();
      DeleteAllAppend(s3, [Porta(nullary, 0)], Consumed(binary));
      raised := Delete(Porta(nullary, 0));
      if raised.Some? {
        return;
      }
      raised := DeleteNode(binary);
    }

    /**
      A commutation arm (inet.py:89-113 and inet.py:116-140): four fresh
      nodes, the four lookups, the eight connections of DiamondWires, then
      the three ports of `first` and the three of `second` deleted.
    */
    method CommuteNodes(plus: Node, copy: Node, first: Node, second: Node) returns (raised: Option<PyError>)
      modifies this
      ensures Run(Snapshot(), raised) == Commute(old(Snapshot()), plus, copy, Consumed(first) + Consumed(second))
    {
      ghost var count := nodeCount;
      var pls1 := AddNode(Plus);
      var pls2 := AddNode(Plus);
      var cpy1 := AddNode(Copy);
      var cpy2 := AddNode(Copy);
      if Porta(copy, 1) !in arestas {
        return Some(KeyError(Porta(copy, 1)));
      }
      var conn1 := arestas[Porta(copy, 1)];
      if Porta(copy, 2) !in arestas {
        return Some(KeyError(Porta(copy, 2)));
      }
      var conn2 := arestas[Porta(copy, 2)];
      if Porta(plus, 1) !in arestas {
        return Some(KeyError(Porta(plus, 1)));
      }
      var conn3 := arestas[Porta(plus, 1)];
      if Porta(plus, 2) !in arestas {
        return Some(KeyError(Porta(plus, 2)));
      }
      var conn4 := arestas[Porta(plus, 2)];
      ghost var s4, doomed := Snapshot(), Consumed(first) + Consumed(second);
      ghost var ws := DiamondWires(count, conn1, conn2, conn3, conn4);
      CommuteUnfolds(old(Snapshot()), plus, copy, doomed);
      assert s4 == old(Snapshot()).(nodeCount := count + 4);
      assert Commute(old(Snapshot()), plus, copy, doomed) == DeleteAll(ConnectAll(s4, ws), doomed);
      LinkDiamond(pls1, pls2, cpy1, cpy2, conn1, conn2, conn3, conn4);
      ghost var s5 := Snapshot();
      assert s5 == ConnectAll(s4, ws);
      DeleteAllAppend(s5, Consumed(first), Consumed(second));
      raised := DeleteNode(first);
      if raised.Some? {
        assert Run(Snapshot(), raised) == DeleteAll(s5, doomed);
        return;
      }
      ghost var s6 := Snapshot();
      assert DeleteAll(s5, doomed) == DeleteAll(s6, Consumed(second));
      raised := DeleteNode(second);
    }

    /** The eight `connect_ports` calls of the commutation arms (inet.py:98-106 and inet.py:125-133). */
    method LinkDiamond(pls1: Node, pls2: Node, cpy1: Node, cpy2: Node, conn1: Porta, conn2: Porta, conn3: Porta, conn4: Porta)
      requires nodeCount >= 4
      requires pls1 == Node(nodeCount - 4, Plus) && pls2 == Node(nodeCount - 3, Plus)
      requires cpy1 == Node(nodeCount - 2, Copy) && cpy2 == Node(nodeCount - 1, Copy)
      modifies this
      ensures Snapshot() == ConnectAll(old(Snapshot()), DiamondWires(old(nodeCount) - 4, conn1, conn2, conn3, conn4))
    {
      ConnectAllDiamond(Snapshot(), nodeCount - 4, conn1, conn2, conn3, conn4);
      LinkPeers(Porta(pls1, 0), Porta(pls2, 0), Porta(cpy1, 0), Porta(cpy2, 0), conn1, conn2, conn3, conn4);
      LinkPeers(Porta(pls1, 1), Porta(pls1, 2), Porta(pls2, 1), Porta(pls2, 2),
                Porta(cpy1, 1), Porta(cpy2, 1), Porta(cpy1, 2), Porta(cpy2, 2));
    }

    /** Four `connect_ports` calls in a row. */
    method LinkPeers(l1: Porta, l2: Porta, l3: Porta, l4: Porta, r1: Porta, r2: Porta, r3: Porta, r4: Porta)
      modifies this
      ensures Snapshot() == Connect(Connect(Connect(Connect(old(Snapshot()), l1, r1), l2, r2), l3, r3), l4, r4)
      ensures arestas.Keys == old(arestas).Keys + {l1, r1, l2, r2, l3, r3, l4, r4}
    {
      Link(l1, r1);
      Link(l2, r2);
      Link(l3, r3);
      Link(l4, r4);
    }

    /**
      `apply_rewrite` (inet.py:57-140) as written: the duplication arm with
      the binary node on the left labels its fresh nodes after that binary
      node.
    */
    method ApplyRewrite(left: Node, right: Node) returns (raised: Option<PyError>)
      modifies this
      ensures Run(Snapshot(), raised) == Rewrite(old(Snapshot()), left, right, AsWritten)
    {
      match (left.kind, right.kind)
      case (Zero, Erase) | (Erase, Zero) =>
        AnnihilationArm(Snapshot(), left, right, AsWritten);
        raised := Annihilate(left, right);
      case (Zero, Copy) | (Erase, Copy) | (Erase, Plus) | (Zero, Plus) =>
        DuplicationArm(Snapshot(), left, right, AsWritten);
        raised := DuplicateNodes(left, right, left.kind);
      case (Copy, Zero) | (Copy, Erase) | (Plus, Erase) | (Plus, Zero) =>
        MirroredDuplicationArm(Snapshot(), left, right, AsWritten);
        raised := DuplicateNodes(right, left, left.kind);
      case (Plus, Copy) =>
        CommutationArm(Snapshot(), left, right, AsWritten);
        raised := CommuteNodes(left, right, right, left);
      case (Copy, Plus) =>
        CommutationArm(Snapshot(), left, right, AsWritten);
        raised := CommuteNodes(right, left, right, left);
      case _ =>
        UnmatchedPairIsNoop(Snapshot(), left, right, AsWritten);
        raised := None;
    }

    /**
      `normalize` (inet.py:48-55), for at most `fuel` iterations of its
      loop: each iteration pops the last port, looks up its peer, removes the
      peer from the list and rewrites a pair of principal ports.
    */
    method Normalize(fuel: nat) returns (exit: Exit)
      modifies this
      ensures (Snapshot(), exit) == Normalized(old(Snapshot()), fuel, AsWritten)
    {
      var f := fuel;
      while |talvez| > 0 && f > 0
        invariant Normalized(Snapshot(), f, AsWritten) == Normalized(old(Snapshot()), fuel, AsWritten)
        decreases f
      {
        var left := talvez[|talvez| - 1];
        talvez := talvez[..|talvez| - 1];
        if left !in arestas {
          return Raised(KeyError(left));
        }
        var right := arestas[left];
        if right !in talvez {
          return Raised(ValueError(right));
        }
        talvez := RemoveFirst(talvez, right);
        if left.port == right.port && right.port == 0 {
          var raised := ApplyRewrite(left.node, right.node);
          if raised.Some? {
            return Raised(raised.value);
          }
        }
        f := f - 1;
      }
      if |talvez| == 0 {
        exit := Drained;
      } else {
        exit := OutOfFuel;
      }
    }
  }
}
