/**
  What the first draft (inet.py) guarantees, proved about the functions of
  module PyNet: the symmetric dict writes, id freshness, the effect of each
  rewrite rule on the wiring, and the shape of the `normalize` loop.
*/
module PyNetProofs {
  import opened Options
  import opened PyNet

  /** Removing a set of present keys shrinks a map by the size of that set. */
  lemma MapMinusCard(m: map<Porta, Porta>, d: set<Porta>)
    requires d <= m.Keys
    ensures |m - d| == |m| - |d|
  {
    assert (m - d).Keys == m.Keys - d;
    assert m.Keys == (m.Keys - d) + d;
    assert |m.Keys| == |m|;
    assert |(m - d).Keys| == |m - d|;
  }

  // ---------------------------------------------------------------------
  // The symmetric dict writes (ArestaMap, inet.py:24-38)
  // ---------------------------------------------------------------------

  /** `__setitem__` on two unwired, different ports keeps the dict symmetric. */
  lemma MirroredKeepsSymmetry(m: map<Porta, Porta>, k: Porta, v: Porta)
    requires Symmetric(m) && k !in m && v !in m && k != v
    ensures Symmetric(Mirrored(m, k, v))
    ensures |Mirrored(m, k, v)| == |m| + 2
  {
    var r := Mirrored(m, k, v);
    forall p | p in r ensures r[p] in r && r[r[p]] == p {
      if p != k && p != v {
        assert m[p] != k && m[p] != v;
      }
    }
    assert r == m[k := v][v := k];
  }

  /**
    `__setitem__` over a key that is already wired to a third port leaves
    that port pointing at `k` while `k` points elsewhere: the dict is no
    longer symmetric.  This is what the commented-out check at inet.py:30-31
    would have guarded against.
  */
  lemma MirroredOverwriteBreaksSymmetry(m: map<Porta, Porta>, k: Porta, v: Porta)
    requires Symmetric(m) && k in m && m[k] != k && m[k] != v
    ensures !Symmetric(Mirrored(m, k, v))
  {
    var r := Mirrored(m, k, v);
    var old_peer := m[k];
    assert old_peer in r && r[old_peer] == m[old_peer] == k;
    assert r[r[old_peer]] == v;
  }

  /**
    `__delitem__` of a port wired to a different port removes both
    entries, keeps every other entry, and keeps the dict symmetric.
  */
  lemma UnmirrorKeepsSymmetry(m: map<Porta, Porta>, k: Porta)
    requires Symmetric(m) && k in m && m[k] != k
    ensures Unmirror(m, k).1 == None
    ensures Unmirror(m, k).0 == m - {k, m[k]}
    ensures Symmetric(Unmirror(m, k).0)
    ensures |Unmirror(m, k).0| == |m| - 2
  {
    var r := Unmirror(m, k).0;
    assert r == m - {k} - {m[k]};
    assert r == m - {k, m[k]};
    forall p | p in r ensures r[p] in r && r[r[p]] == p {
      assert m[p] != k && m[p] != m[k];
    }
    MapMinusCard(m, {k, m[k]});
  }

  /** A port wired to itself cannot be deleted: the second lookup raises, after the first deletion is done. */
  lemma UnmirrorSelfLoopRaises(m: map<Porta, Porta>, k: Porta)
    requires k in m && m[k] == k
    ensures Unmirror(m, k) == (m - {k}, Some(KeyError(k)))
  {
  }

  // ---------------------------------------------------------------------
  // Node ids (inet.py:142-145)
  // ---------------------------------------------------------------------

  /**
    `add_node` hands out the current counter and raises it by one, so the
    new node's ports are not wired yet and the dict stays allocated.
  */
  lemma AddNodeIsFresh(s: State, kind: Label)
    requires Allocated(s.arestas, s.nodeCount)
    ensures var (t, n) := AddNode(s, kind);
      && n == Node(s.nodeCount, kind)
      && t.nodeCount == s.nodeCount + 1 && t.arestas == s.arestas && t.talvez == s.talvez
      && (forall i :: Porta(n, i) !in s.arestas)
      && Allocated(t.arestas, t.nodeCount)
  {
  }

  /** No port of a node numbered at or above the counter is wired, as key or as value. */
  lemma UnallocatedIsUnwired(m: map<Porta, Porta>, count: int, n: Node)
    requires Allocated(m, count) && n.nodeId >= count
    ensures forall i :: Porta(n, i) !in m
    ensures forall p :: p in m ==> m[p].node != n
  {
  }

  /** Raising the counter keeps the dict allocated. */
  lemma AllocatedGrows(m: map<Porta, Porta>, count: int, count2: int)
    requires Allocated(m, count) && count <= count2
    ensures Allocated(m, count2)
  {
  }

  /** `connect_ports` on two ports of nodes already handed out keeps the dict allocated. */
  lemma ConnectKeepsAllocated(s: State, left: Porta, right: Porta)
    requires Allocated(s.arestas, s.nodeCount)
    requires left.node.nodeId < s.nodeCount && right.node.nodeId < s.nodeCount
    ensures Allocated(Connect(s, left, right).arestas, Connect(s, left, right).nodeCount)
  {
  }

  /** The first element of a sequence and its tail: `ks` is free of repeats exactly when both parts are and the head is not in the tail. */
  lemma DistinctCons(ks: seq<Porta>)
    requires ks != []
    ensures Distinct(ks) <==> ks[0] !in ks[1..] && Distinct(ks[1..])
  {
    if ks[0] !in ks[1..] && Distinct(ks[1..]) {
      forall i, j | 0 <= i < j < |ks| ensures ks[i] != ks[j] {
        if i > 0 { assert ks[i] == ks[1..][i - 1] && ks[j] == ks[1..][j - 1]; }
        else { assert ks[j] == ks[1..][j - 1]; }
      }
    }
    if Distinct(ks) {
      forall i, j | 0 <= i < j < |ks| - 1 ensures ks[1..][i] != ks[1..][j] {
        assert ks[1..][i] == ks[i + 1] && ks[1..][j] == ks[j + 1];
      }
      forall j | 0 <= j < |ks| - 1 ensures ks[1..][j] != ks[0] {
        assert ks[1..][j] == ks[j + 1];
      }
    }
  }

  /**
    A run of deletions finishes without raising exactly when the keys are
    different and all present, and then it removes exactly those keys.
  */
  lemma {:induction false} DeleteAllSucceeds(s: State, ks: seq<Porta>)
    ensures DeleteAll(s, ks).raised == None <==> (Distinct(ks) && forall k :: k in ks ==> k in s.arestas)
    ensures DeleteAll(s, ks).raised == None ==> DeleteAll(s, ks).state.arestas == s.arestas - set k | k in ks
    decreases |ks|
  {
    if ks != [] {
      var k, rest := ks[0], ks[1..];
      DistinctCons(ks);
      assert forall x :: x in ks <==> x == k || x in rest;
      if k in s.arestas {
        var t := s.(arestas := s.arestas - {k});
        assert DeleteAll(s, ks) == DeleteAll(t, rest);
        DeleteAllSucceeds(t, rest);
        assert (forall x :: x in rest ==> x in t.arestas) <==> k !in rest && forall x :: x in rest ==> x in s.arestas;
        assert (set x | x in ks) == {k} + set x | x in rest;
      }
    }
  }

  /** Deleting entries keeps the dict allocated, whether or not the deletions all succeed. */
  lemma DeleteAllKeepsAllocated(s: State, ks: seq<Porta>)
    requires Allocated(s.arestas, s.nodeCount)
    ensures Allocated(DeleteAll(s, ks).state.arestas, DeleteAll(s, ks).state.nodeCount)
  {
    var r := DeleteAll(s, ks).state;
    forall p | p in r.arestas ensures p.node.nodeId < r.nodeCount && r.arestas[p].node.nodeId < r.nodeCount {
      assert p in s.arestas && r.arestas[p] == s.arestas[p];
    }
  }

  /** The two `connect_ports` calls of the duplication rule and the deletions after them keep the dict allocated. */
  lemma ConnectTwoKeepsAllocated(s: State, f1: Porta, c1: Porta, f2: Porta, c2: Porta, ks: seq<Porta>)
    requires Allocated(s.arestas, s.nodeCount)
    requires f1.node.nodeId < s.nodeCount && c1.node.nodeId < s.nodeCount
    requires f2.node.nodeId < s.nodeCount && c2.node.nodeId < s.nodeCount
    ensures var r := DeleteAll(Connect(Connect(s, f1, c1), f2, c2), ks).state; Allocated(r.arestas, r.nodeCount)
  {
    ConnectKeepsAllocated(s, f1, c1);
    ConnectKeepsAllocated(Connect(s, f1, c1), f2, c2);
    DeleteAllKeepsAllocated(Connect(Connect(s, f1, c1), f2, c2), ks);
  }

  /** Duplicate once both auxiliary ports of the binary node are found wired. */
  lemma DuplicateWired(s: State, nullary: Node, binary: Node, kind: Label)
    requires Porta(binary, 1) in s.arestas && Porta(binary, 2) in s.arestas
    ensures var s2 := s.(nodeCount := s.nodeCount + 2);
      Duplicate(s, nullary, binary, kind)
      == DeleteAll(Connect(Connect(s2, Porta(Node(s.nodeCount, kind), 0), s.arestas[Porta(binary, 1)]),
                           Porta(Node(s.nodeCount + 1, kind), 0), s.arestas[Porta(binary, 2)]),
                   [Porta(nullary, 0)] + Consumed(binary))
  {
  }

  /** The duplication rule keeps the dict allocated and raises the counter by two. */
  lemma DuplicateKeepsAllocated(s: State, nullary: Node, binary: Node, freshKind: Label)
    requires Allocated(s.arestas, s.nodeCount)
    ensures var r := Duplicate(s, nullary, binary, freshKind).state;
      Allocated(r.arestas, r.nodeCount) && r.nodeCount == s.nodeCount + 2
  {
    var s2 := s.(nodeCount := s.nodeCount + 2);
    AllocatedGrows(s.arestas, s.nodeCount, s2.nodeCount);
    var p1, p2 := Porta(binary, 1), Porta(binary, 2);
    if p1 in s2.arestas && p2 in s2.arestas {
      var f1, f2 := Porta(Node(s.nodeCount, freshKind), 0), Porta(Node(s.nodeCount + 1, freshKind), 0);
      DuplicateWired(s, nullary, binary, freshKind);
      ConnectTwoKeepsAllocated(s2, f1, s2.arestas[p1], f2, s2.arestas[p2], [Porta(nullary, 0)] + Consumed(binary));
    }
  }

  /** Every end of every wire in `ws` belongs to a node numbered below `count`. */
  ghost predicate WiresBelow(ws: seq<(Porta, Porta)>, count: int) {
    forall i :: 0 <= i < |ws| ==> ws[i].0.node.nodeId < count && ws[i].1.node.nodeId < count
  }

  /** A sequence of `connect_ports` calls on ports of nodes already handed out keeps the dict allocated. */
  lemma {:induction false} ConnectAllKeepsAllocated(s: State, ws: seq<(Porta, Porta)>)
    requires Allocated(s.arestas, s.nodeCount) && WiresBelow(ws, s.nodeCount)
    ensures Allocated(ConnectAll(s, ws).arestas, ConnectAll(s, ws).nodeCount)
    ensures ConnectAll(s, ws).nodeCount == s.nodeCount
    decreases |ws|
  {
    if ws != [] {
      ConnectKeepsAllocated(s, ws[0].0, ws[0].1);
      assert WiresBelow(ws[1..], s.nodeCount) by {
        forall i | 0 <= i < |ws[1..]| ensures ws[1..][i].0.node.nodeId < s.nodeCount && ws[1..][i].1.node.nodeId < s.nodeCount {
          assert ws[1..][i] == ws[i + 1];
        }
      }
      ConnectAllKeepsAllocated(Connect(s, ws[0].0, ws[0].1), ws[1..]);
    }
  }

  /** The eight wires of the commutation rule join ports of nodes already handed out. */
  lemma DiamondBelow(count: int, c1: Porta, c2: Porta, c3: Porta, c4: Porta)
    requires c1.node.nodeId < count + 4 && c2.node.nodeId < count + 4
    requires c3.node.nodeId < count + 4 && c4.node.nodeId < count + 4
    ensures WiresBelow(DiamondWires(count, c1, c2, c3, c4), count + 4)
  {
  }

  /** The commutation rule keeps the dict allocated and raises the counter by four. */
  lemma CommuteKeepsAllocated(s: State, plus: Node, copy: Node, doomed: seq<Porta>)
    requires Allocated(s.arestas, s.nodeCount)
    ensures var r := Commute(s, plus, copy, doomed).state;
      Allocated(r.arestas, r.nodeCount) && r.nodeCount == s.nodeCount + 4
  {
    var s4 := s.(nodeCount := s.nodeCount + 4);
    var m := s4.arestas;
    AllocatedGrows(s.arestas, s.nodeCount, s4.nodeCount);
    if Porta(copy, 1) in m && Porta(copy, 2) in m && Porta(plus, 1) in m && Porta(plus, 2) in m {
      var c1, c2, c3, c4 := m[Porta(copy, 1)], m[Porta(copy, 2)], m[Porta(plus, 1)], m[Porta(plus, 2)];
      var ws := DiamondWires(s.nodeCount, c1, c2, c3, c4);
      DiamondBelow(s.nodeCount, c1, c2, c3, c4);
      ConnectAllKeepsAllocated(s4, ws);
      DeleteAllKeepsAllocated(ConnectAll(s4, ws), doomed);
    }
  }

  /** Every rewrite, even one that raises part-way, keeps the dict allocated and never lowers the counter. */
  lemma RewriteKeepsAllocated(s: State, left: Node, right: Node, rule: MirrorRule)
    requires Allocated(s.arestas, s.nodeCount)
    ensures var r := Rewrite(s, left, right, rule);
      Allocated(r.state.arestas, r.state.nodeCount) && r.state.nodeCount >= s.nodeCount
  {
    match (left.kind, right.kind)
    case (Zero, Erase) | (Erase, Zero) =>
      DeleteAllKeepsAllocated(s, [Porta(left, 0), Porta(right, 0)]);
    case (Zero, Copy) | (Erase, Copy) | (Erase, Plus) | (Zero, Plus) =>
      DuplicateKeepsAllocated(s, left, right, left.kind);
    case (Copy, Zero) | (Copy, Erase) | (Plus, Erase) | (Plus, Zero) =>
      DuplicateKeepsAllocated(s, right, left, if rule == AsWritten then left.kind else right.kind);
    case (Plus, Copy) =>
      CommuteKeepsAllocated(s, left, right, Consumed(right) + Consumed(left));
    case (Copy, Plus) =>
      CommuteKeepsAllocated(s, right, left, Consumed(right) + Consumed(left));
    case _ =>
  }

  // ---------------------------------------------------------------------
  // The rewrite rules (inet.py:57-140)
  // ---------------------------------------------------------------------

  /**
    Replacing a part of a symmetric wiring: drop the entries of `gone` and
    add the symmetric wiring `n`, whose keys are fresh ports or the ports
    that were wired into `gone`.  The result is symmetric again.
  */
  lemma ReplaceKeepsSymmetry(m: map<Porta, Porta>, gone: set<Porta>, n: map<Porta, Porta>)
    requires Symmetric(m) && Symmetric(n) && gone <= m.Keys && n.Keys !! gone
    requires forall p :: p in n && p in m ==> m[p] in gone
    requires forall d :: d in gone && m[d] !in gone ==> m[d] in n
    ensures Symmetric((m - gone) + n)
  {
    var r := (m - gone) + n;
    forall p | p in r ensures r[p] in r && r[r[p]] == p {
      if p in n {
        assert r[p] == n[p] && n[p] in n;
      } else {
        assert p in m && p !in gone && r[p] == m[p];
        var q := m[p];
        assert q in m && m[q] == p;
        assert q !in n;
        assert q !in gone;
        assert r[q] == m[q];
      }
    }
  }

  /** The size of such a replacement: the dropped entries go, the entries on fresh ports come. */
  lemma ReplaceCard(m: map<Porta, Porta>, gone: set<Porta>, n: map<Porta, Porta>)
    requires gone <= m.Keys && n.Keys !! gone
    ensures |(m - gone) + n| == |m| - |gone| + |n.Keys - m.Keys|
  {
    var r := (m - gone) + n;
    assert r.Keys == (m.Keys - gone) + (n.Keys - m.Keys);
    assert (m.Keys - gone) !! (n.Keys - m.Keys);
    MapMinusCard(m, gone);
    assert |(m - gone).Keys| == |m| - |gone|;
    assert |r.Keys| == |r|;
  }

  /** The arm of `apply_rewrite` a Zero/Erase pair takes (inet.py:59-61). */
  lemma AnnihilationArm(s: State, left: Node, right: Node, rule: MirrorRule)
    requires (left.kind == Zero && right.kind == Erase) || (left.kind == Erase && right.kind == Zero)
    ensures Rewrite(s, left, right, rule) == DeleteAll(s, [Porta(left, 0), Porta(right, 0)])
  {
  }

  /** Deleting two different present keys removes exactly those two. */
  lemma DeletePair(s: State, a: Porta, b: Porta)
    requires a in s.arestas && b in s.arestas && a != b
    ensures DeleteAll(s, [a, b]) == Run(s.(arestas := s.arestas - {a, b}), None)
  {
    DeleteAllSucceeds(s, [a, b]);
    assert Distinct([a, b]);
    assert (set k | k in [a, b]) == {a, b};
  }

  /** Zero/Erase annihilation removes exactly the two principal entries (inet.py:59-61). */
  lemma AnnihilationEffect(s: State, left: Node, right: Node, rule: MirrorRule)
    requires (left.kind == Zero && right.kind == Erase) || (left.kind == Erase && right.kind == Zero)
    requires Symmetric(s.arestas)
    requires Porta(left, 0) in s.arestas && s.arestas[Porta(left, 0)] == Porta(right, 0)
    ensures var r := Rewrite(s, left, right, rule);
      && r.raised == None
      && r.state == s.(arestas := s.arestas - {Porta(left, 0), Porta(right, 0)})
      && Symmetric(r.state.arestas)
      && |r.state.arestas| == |s.arestas| - 2
  {
    AnnihilationArm(s, left, right, rule);
    DeletePair(s, Porta(left, 0), Porta(right, 0));
    UnmirrorKeepsSymmetry(s.arestas, Porta(left, 0));
  }

  /** The four entries a duplication deletes: the nullary node's principal port and the binary node's three. */
  function Consumed4(nullary: Node, binary: Node): set<Porta> {
    {Porta(nullary, 0), Porta(binary, 0), Porta(binary, 1), Porta(binary, 2)}
  }

  /** Port 0 of the nullary node and the three ports of a different binary node are four different ports. */
  lemma ConsumedWithNullary(nullary: Node, binary: Node)
    requires nullary != binary
    ensures Distinct([Porta(nullary, 0)] + Consumed(binary))
    ensures (set k | k in [Porta(nullary, 0)] + Consumed(binary)) == Consumed4(nullary, binary)
  {
    var ks := [Porta(nullary, 0)] + Consumed(binary);
    assert ks == [Porta(nullary, 0), Porta(binary, 0), Porta(binary, 1), Porta(binary, 2)];
  }

  lemma Consumed4Card(nullary: Node, binary: Node)
    requires nullary != binary
    ensures |Consumed4(nullary, binary)| == 4
  {
    var a, b, c, d := Porta(nullary, 0), Porta(binary, 0), Porta(binary, 1), Porta(binary, 2);
    assert |{a} + {b}| == 2;
    assert |{a} + {b} + {c}| == 3;
    assert |{a} + {b} + {c} + {d}| == 4;
    assert Consumed4(nullary, binary) == {a} + {b} + {c} + {d};
  }

  /**
    An active pair `nullary`/`binary` in a symmetric dict, the binary
    node's auxiliary ports wired to other nodes, and two different unwired
    ports `f1`, `f2` for the fresh nodes.
  */
  ghost predicate DuplicationRedex(m: map<Porta, Porta>, nullary: Node, binary: Node, f1: Porta, f2: Porta) {
    && Symmetric(m) && nullary != binary
    && Porta(nullary, 0) in m && m[Porta(nullary, 0)] == Porta(binary, 0)
    && Porta(binary, 1) in m && Porta(binary, 2) in m
    && m[Porta(binary, 1)].node != binary && m[Porta(binary, 2)].node != binary
    && f1 !in m && f2 !in m && f1 != f2
  }

  /** The wiring a duplication leaves: the fresh ports take over the binary node's auxiliary peers. */
  function DuplicateMap(m: map<Porta, Porta>, nullary: Node, binary: Node, f1: Porta, f2: Porta): map<Porta, Porta>
    requires Porta(binary, 1) in m && Porta(binary, 2) in m
  {
    var c1, c2 := m[Porta(binary, 1)], m[Porta(binary, 2)];
    (m - Consumed4(nullary, binary)) + map[f1 := c1, c1 := f1, f2 := c2, c2 := f2]
  }

  /** The peers of the binary node's auxiliary ports are wired back to them and survive the deletion. */
  lemma DuplicationPeers(m: map<Porta, Porta>, nullary: Node, binary: Node, f1: Porta, f2: Porta)
    requires DuplicationRedex(m, nullary, binary, f1, f2)
    ensures var c1, c2 := m[Porta(binary, 1)], m[Porta(binary, 2)];
      && c1 in m && m[c1] == Porta(binary, 1) && c2 in m && m[c2] == Porta(binary, 2)
      && c1 != c2 && c1 !in Consumed4(nullary, binary) && c2 !in Consumed4(nullary, binary)
      && m[Porta(binary, 0)] == Porta(nullary, 0)
  {
    assert m[Porta(binary, 0)] == Porta(nullary, 0);
  }

  /** Duplication keeps the dict symmetric. */
  lemma DuplicationSymmetric(m: map<Porta, Porta>, nullary: Node, binary: Node, f1: Porta, f2: Porta)
    requires DuplicationRedex(m, nullary, binary, f1, f2)
    ensures Symmetric(DuplicateMap(m, nullary, binary, f1, f2))
  {
    var c1, c2 := m[Porta(binary, 1)], m[Porta(binary, 2)];
    var gone := Consumed4(nullary, binary);
    DuplicationPeers(m, nullary, binary, f1, f2);
    var n := map[f1 := c1, c1 := f1, f2 := c2, c2 := f2];
    assert Symmetric(n);
    forall p | p in n && p in m ensures m[p] in gone {
      assert p == c1 || p == c2;
    }
    forall d | d in gone && m[d] !in gone ensures m[d] in n {
      assert d == Porta(binary, 1) || d == Porta(binary, 2);
    }
    ReplaceKeepsSymmetry(m, gone, n);
  }

  /** Duplication removes four entries and adds four, two of them on fresh ports: one wire less. */
  lemma DuplicationCard(m: map<Porta, Porta>, nullary: Node, binary: Node, f1: Porta, f2: Porta)
    requires DuplicationRedex(m, nullary, binary, f1, f2)
    ensures |DuplicateMap(m, nullary, binary, f1, f2)| == |m| - 2
  {
    var c1, c2 := m[Porta(binary, 1)], m[Porta(binary, 2)];
    var gone := Consumed4(nullary, binary);
    DuplicationPeers(m, nullary, binary, f1, f2);
    var n := map[f1 := c1, c1 := f1, f2 := c2, c2 := f2];
    assert n.Keys - m.Keys == {f1, f2};
    ReplaceCard(m, gone, n);
    Consumed4Card(nullary, binary);
  }

  /** The statements of the duplication rule build DuplicateMap. */
  lemma DuplicationWrites(m: map<Porta, Porta>, nullary: Node, binary: Node, f1: Porta, f2: Porta)
    requires DuplicationRedex(m, nullary, binary, f1, f2)
    ensures Mirrored(Mirrored(m, f1, m[Porta(binary, 1)]), f2, m[Porta(binary, 2)]) - Consumed4(nullary, binary)
         == DuplicateMap(m, nullary, binary, f1, f2)
  {
    DuplicationPeers(m, nullary, binary, f1, f2);
    MirroredTwiceMinus(m, Consumed4(nullary, binary), f1, m[Porta(binary, 1)], f2, m[Porta(binary, 2)]);
  }

  /** Two mirrored writes on fresh keys, then a deletion that spares the written entries, as one merge. */
  lemma MirroredTwiceMinus(m: map<Porta, Porta>, gone: set<Porta>, f1: Porta, c1: Porta, f2: Porta, c2: Porta)
    requires f1 !in gone && f2 !in gone && c1 !in gone && c2 !in gone
    requires f1 != f2 && c1 != c2 && f1 != c2 && f2 != c1
    ensures Mirrored(Mirrored(m, f1, c1), f2, c2) - gone
         == (m - gone) + map[f1 := c1, c1 := f1, f2 := c2, c2 := f2]
  {
  }

  /** Port 0 of the node `add_node` hands out when the counter stands at `count`. */
  function FreshPort(count: int, kind: Label): Porta {
    Porta(Node(count, kind), 0)
  }

  /** With its ports wired, the duplication rule runs to its end without raising. */
  lemma DuplicateRuns(s: State, nullary: Node, binary: Node, freshKind: Label)
    requires nullary != binary
    requires Porta(nullary, 0) in s.arestas && Porta(binary, 0) in s.arestas
    requires Porta(binary, 1) in s.arestas && Porta(binary, 2) in s.arestas
    ensures var f1, f2 := FreshPort(s.nodeCount, freshKind), FreshPort(s.nodeCount + 1, freshKind);
      var c1, c2 := s.arestas[Porta(binary, 1)], s.arestas[Porta(binary, 2)];
      Duplicate(s, nullary, binary, freshKind) ==
        Run(State(Mirrored(Mirrored(s.arestas, f1, c1), f2, c2) - Consumed4(nullary, binary), s.nodeCount + 2,
                  s.talvez + [f1, c1, f2, c2]), None)
  {
    var m := s.arestas;
    var f1, f2 := FreshPort(s.nodeCount, freshKind), FreshPort(s.nodeCount + 1, freshKind);
    var c1, c2 := m[Porta(binary, 1)], m[Porta(binary, 2)];
    var ks := [Porta(nullary, 0)] + Consumed(binary);
    var s3 := Connect(Connect(s.(nodeCount := s.nodeCount + 2), f1, c1), f2, c2);
    assert s3.arestas == Mirrored(Mirrored(m, f1, c1), f2, c2);
    assert s3.talvez == s.talvez + [f1, c1, f2, c2];
    assert Duplicate(s, nullary, binary, freshKind) == DeleteAll(s3, ks);
    DeleteAllSucceeds(s3, ks);
    ConsumedWithNullary(nullary, binary);
    assert forall k :: k in ks ==> k in s3.arestas;
  }

  /**
    The duplication rule on an active pair: it runs to its end, hands out
    two ids, queues the four new wire ends, leaves DuplicateMap as the
    wiring, keeps the dict symmetric and removes one wire.
  */
  lemma DuplicateEffect(s: State, nullary: Node, binary: Node, freshKind: Label)
    requires DuplicationRedex(s.arestas, nullary, binary,
                              FreshPort(s.nodeCount, freshKind), FreshPort(s.nodeCount + 1, freshKind))
    ensures var f1, f2 := FreshPort(s.nodeCount, freshKind), FreshPort(s.nodeCount + 1, freshKind);
      var c1, c2 := s.arestas[Porta(binary, 1)], s.arestas[Porta(binary, 2)];
      var r := Duplicate(s, nullary, binary, freshKind);
      && r == Run(State(DuplicateMap(s.arestas, nullary, binary, f1, f2), s.nodeCount + 2,
                        s.talvez + [f1, c1, f2, c2]), None)
      && Symmetric(r.state.arestas)
      && |r.state.arestas| == |s.arestas| - 2
  {
    var f1, f2 := FreshPort(s.nodeCount, freshKind), FreshPort(s.nodeCount + 1, freshKind);
    DuplicateRuns(s, nullary, binary, freshKind);
    DuplicationWrites(s.arestas, nullary, binary, f1, f2);
    DuplicationSymmetric(s.arestas, nullary, binary, f1, f2);
    DuplicationCard(s.arestas, nullary, binary, f1, f2);
  }

  /** The arm of `apply_rewrite` a nullary node on the left takes (inet.py:62-73). */
  lemma DuplicationArm(s: State, nullary: Node, binary: Node, rule: MirrorRule)
    requires nullary.kind in {Zero, Erase} && binary.kind in {Plus, Copy}
    ensures Rewrite(s, nullary, binary, rule) == Duplicate(s, nullary, binary, nullary.kind)
  {
  }

  /** The arm of `apply_rewrite` a binary node on the left takes (inet.py:75-86). */
  lemma MirroredDuplicationArm(s: State, binary: Node, nullary: Node, rule: MirrorRule)
    requires nullary.kind in {Zero, Erase} && binary.kind in {Plus, Copy}
    ensures Rewrite(s, binary, nullary, rule)
         == Duplicate(s, nullary, binary, if rule == AsWritten then binary.kind else nullary.kind)
  {
  }

  /**
    Duplication with the nullary node on the left (inet.py:62-73): two fresh
    nodes carrying the nullary node's label take over the binary node's
    auxiliary peers; the dict stays symmetric and loses one wire.
  */
  lemma DuplicationEffect(s: State, nullary: Node, binary: Node, rule: MirrorRule)
    requires nullary.kind in {Zero, Erase} && binary.kind in {Plus, Copy}
    requires Symmetric(s.arestas) && Allocated(s.arestas, s.nodeCount)
    requires Porta(nullary, 0) in s.arestas && s.arestas[Porta(nullary, 0)] == Porta(binary, 0)
    requires Porta(binary, 1) in s.arestas && Porta(binary, 2) in s.arestas
    requires s.arestas[Porta(binary, 1)].node != binary && s.arestas[Porta(binary, 2)].node != binary
    ensures var f1, f2 := FreshPort(s.nodeCount, nullary.kind), FreshPort(s.nodeCount + 1, nullary.kind);
      var r := Rewrite(s, nullary, binary, rule);
      && r.raised == None
      && r.state.nodeCount == s.nodeCount + 2
      && r.state.arestas == DuplicateMap(s.arestas, nullary, binary, f1, f2)
      && Symmetric(r.state.arestas)
      && |r.state.arestas| == |s.arestas| - 2
  {
    DuplicationArm(s, nullary, binary, rule);
    UnallocatedIsUnwired(s.arestas, s.nodeCount, Node(s.nodeCount, nullary.kind));
    UnallocatedIsUnwired(s.arestas, s.nodeCount, Node(s.nodeCount + 1, nullary.kind));
    DuplicateEffect(s, nullary, binary, nullary.kind);
  }

  /**
    The mirrored duplication branch (inet.py:75-86) builds the same wiring
    as the other one, but its fresh nodes carry the binary node's label as
    written, and the nullary node's label only under the intended rule.
  */
  lemma MirroredDuplicationEffect(s: State, binary: Node, nullary: Node, rule: MirrorRule)
    requires nullary.kind in {Zero, Erase} && binary.kind in {Plus, Copy}
    requires Symmetric(s.arestas) && Allocated(s.arestas, s.nodeCount)
    requires Porta(nullary, 0) in s.arestas && s.arestas[Porta(nullary, 0)] == Porta(binary, 0)
    requires Porta(binary, 1) in s.arestas && Porta(binary, 2) in s.arestas
    requires s.arestas[Porta(binary, 1)].node != binary && s.arestas[Porta(binary, 2)].node != binary
    ensures var k := if rule == AsWritten then binary.kind else nullary.kind;
      var f1, f2 := FreshPort(s.nodeCount, k), FreshPort(s.nodeCount + 1, k);
      var r := Rewrite(s, binary, nullary, rule);
      && r.raised == None
      && r.state.nodeCount == s.nodeCount + 2
      && r.state.arestas == DuplicateMap(s.arestas, nullary, binary, f1, f2)
      && Symmetric(r.state.arestas)
      && |r.state.arestas| == |s.arestas| - 2
  {
    var k := if rule == AsWritten then binary.kind else nullary.kind;
    MirroredDuplicationArm(s, binary, nullary, rule);
    UnallocatedIsUnwired(s.arestas, s.nodeCount, Node(s.nodeCount, k));
    UnallocatedIsUnwired(s.arestas, s.nodeCount, Node(s.nodeCount + 1, k));
    DuplicateEffect(s, nullary, binary, k);
  }

  /** The ports `connect_ports` appends to the list for the wires `ws`, in order. */
  function Ends(ws: seq<(Porta, Porta)>): seq<Porta>
    decreases |ws|
  {
    if ws == [] then [] else [ws[0].0, ws[0].1] + Ends(ws[1..])
  }

  /** The entries the wires `ws` write, read as one dict. */
  function WireMap(ws: seq<(Porta, Porta)>): map<Porta, Porta>
    decreases |ws|
  {
    if ws == [] then map[] else Mirrored(WireMap(ws[1..]), ws[0].0, ws[0].1)
  }

  /** No wire of `ws` joins a port to itself, and no port is an end of two wires. */
  ghost predicate Disjoint(ws: seq<(Porta, Porta)>) {
    && (forall i :: 0 <= i < |ws| ==> ws[i].0 != ws[i].1)
    && (forall i, j :: 0 <= i < j < |ws| ==>
          ws[i].0 != ws[j].0 && ws[i].0 != ws[j].1 && ws[i].1 != ws[j].0 && ws[i].1 != ws[j].1)
  }

  /** `p` is an end of some wire of `ws`. */
  ghost predicate IsEnd(ws: seq<(Porta, Porta)>, p: Porta) {
    exists i :: 0 <= i < |ws| && (ws[i].0 == p || ws[i].1 == p)
  }

  /** The first wire of a disjoint sequence shares no end with the rest, which is disjoint too. */
  lemma DisjointTail(ws: seq<(Porta, Porta)>)
    requires Disjoint(ws) && ws != []
    ensures Disjoint(ws[1..]) && ws[0].0 != ws[0].1
    ensures !IsEnd(ws[1..], ws[0].0) && !IsEnd(ws[1..], ws[0].1)
  {
    var t := ws[1..];
    forall i | 0 <= i < |t| ensures t[i].0 != t[i].1 {
      assert t[i] == ws[i + 1];
    }
    forall i, j | 0 <= i < j < |t|
      ensures t[i].0 != t[j].0 && t[i].0 != t[j].1 && t[i].1 != t[j].0 && t[i].1 != t[j].1
    {
      assert t[i] == ws[i + 1] && t[j] == ws[j + 1];
    }
    forall i | 0 <= i < |t|
      ensures t[i].0 != ws[0].0 && t[i].1 != ws[0].0 && t[i].0 != ws[0].1 && t[i].1 != ws[0].1
    {
      assert t[i] == ws[i + 1];
    }
  }

  /** The keys the wires of a disjoint sequence write are exactly their ends. */
  lemma {:induction false} WireMapKeys(ws: seq<(Porta, Porta)>)
    requires Disjoint(ws)
    ensures forall p :: p in WireMap(ws) <==> IsEnd(ws, p)
    decreases |ws|
  {
    if ws != [] {
      var t := ws[1..];
      var a, b := ws[0].0, ws[0].1;
      DisjointTail(ws);
      WireMapKeys(t);
      forall p ensures p in WireMap(ws) <==> IsEnd(ws, p) {
        if IsEnd(ws, p) {
          var i :| 0 <= i < |ws| && (ws[i].0 == p || ws[i].1 == p);
          if i > 0 {
            assert t[i - 1] == ws[i];
          }
        }
        if p in WireMap(ws) && p != a && p != b {
          var i :| 0 <= i < |t| && (t[i].0 == p || t[i].1 == p);
          assert t[i] == ws[i + 1];
        }
      }
    }
  }

  /** The wires of a disjoint sequence form a symmetric dict with two entries per wire. */
  lemma {:induction false} WireMapSymmetric(ws: seq<(Porta, Porta)>)
    requires Disjoint(ws)
    ensures Symmetric(WireMap(ws))
    ensures |WireMap(ws)| == 2 * |ws|
    decreases |ws|
  {
    if ws != [] {
      var t := ws[1..];
      DisjointTail(ws);
      WireMapSymmetric(t);
      WireMapKeys(t);
      MirroredKeepsSymmetry(WireMap(t), ws[0].0, ws[0].1);
    }
  }

  /** Each wire of a disjoint sequence is in the dict it writes, in both directions. */
  lemma {:induction false} WireMapEntries(ws: seq<(Porta, Porta)>)
    requires Disjoint(ws)
    ensures forall i :: 0 <= i < |ws| ==>
      && ws[i].0 in WireMap(ws) && WireMap(ws)[ws[i].0] == ws[i].1
      && ws[i].1 in WireMap(ws) && WireMap(ws)[ws[i].1] == ws[i].0
    decreases |ws|
  {
    if ws != [] {
      var t := ws[1..];
      DisjointTail(ws);
      WireMapEntries(t);
      WireMapKeys(t);
      forall i | 0 < i < |ws|
        ensures ws[i].0 in WireMap(ws) && WireMap(ws)[ws[i].0] == ws[i].1
        ensures ws[i].1 in WireMap(ws) && WireMap(ws)[ws[i].1] == ws[i].0
      {
        assert ws[i] == t[i - 1];
        assert ws[i].0 != ws[0].0 && ws[i].0 != ws[0].1 && ws[i].1 != ws[0].0 && ws[i].1 != ws[0].1;
      }
    }
  }

  /** A mirrored write followed by a merge of entries on other keys is the merge of the written entries. */
  lemma MirroredThenMerge(m: map<Porta, Porta>, w: map<Porta, Porta>, a: Porta, b: Porta)
    requires a !in w && b !in w && a != b
    ensures Mirrored(m, a, b) + w == m + Mirrored(w, a, b)
  {
  }

  /**
    A sequence of `connect_ports` calls on disjoint wires writes exactly
    their entries over the dict and appends their ends to the list.
  */
  lemma {:induction false} ConnectAllWrites(s: State, ws: seq<(Porta, Porta)>)
    requires Disjoint(ws)
    ensures ConnectAll(s, ws) == s.(arestas := s.arestas + WireMap(ws), talvez := s.talvez + Ends(ws))
    decreases |ws|
  {
    if ws != [] {
      var t := ws[1..];
      var a, b := ws[0].0, ws[0].1;
      DisjointTail(ws);
      WireMapKeys(t);
      ConnectAllWrites(Connect(s, a, b), t);
      MirroredThenMerge(s.arestas, WireMap(t), a, b);
      assert s.talvez + [a, b] + Ends(t) == s.talvez + Ends(ws);
    }
  }

  /** The ports the commutation rule deletes: all three of each node of the active pair. */
  function Consumed6(plus: Node, copy: Node): set<Porta> {
    {Porta(plus, 0), Porta(plus, 1), Porta(plus, 2), Porta(copy, 0), Porta(copy, 1), Porta(copy, 2)}
  }

  lemma Consumed6Card(plus: Node, copy: Node)
    requires plus != copy
    ensures |Consumed6(plus, copy)| == 6
  {
    var a, b, c := Porta(plus, 0), Porta(plus, 1), Porta(plus, 2);
    var d, e, f := Porta(copy, 0), Porta(copy, 1), Porta(copy, 2);
    assert |{a} + {b}| == 2;
    assert |{a} + {b} + {c}| == 3;
    assert |{a} + {b} + {c} + {d}| == 4;
    assert |{a} + {b} + {c} + {d} + {e}| == 5;
    assert |{a} + {b} + {c} + {d} + {e} + {f}| == 6;
    assert Consumed6(plus, copy) == {a} + {b} + {c} + {d} + {e} + {f};
  }

  /**
    An active Plus/Copy pair in a symmetric dict, on nodes below the
    counter, the four auxiliary ports wired to other nodes below the
    counter, and the four nodes the rule is about to create not wired yet.
  */
  ghost predicate CommutationRedex(m: map<Porta, Porta>, count: int, plus: Node, copy: Node) {
    && Symmetric(m) && plus != copy && plus.nodeId < count && copy.nodeId < count
    && Porta(plus, 0) in m && m[Porta(plus, 0)] == Porta(copy, 0)
    && Porta(plus, 1) in m && Porta(plus, 2) in m && Porta(copy, 1) in m && Porta(copy, 2) in m
    && m[Porta(plus, 1)].node !in {plus, copy} && m[Porta(plus, 2)].node !in {plus, copy}
    && m[Porta(copy, 1)].node !in {plus, copy} && m[Porta(copy, 2)].node !in {plus, copy}
    && m[Porta(plus, 1)].node.nodeId < count && m[Porta(plus, 2)].node.nodeId < count
    && m[Porta(copy, 1)].node.nodeId < count && m[Porta(copy, 2)].node.nodeId < count
    && Unwired(m, Node(count, Plus)) && Unwired(m, Node(count + 1, Plus))
    && Unwired(m, Node(count + 2, Copy)) && Unwired(m, Node(count + 3, Copy))
  }

  /** No port of `n` is a key of `m`. */
  ghost predicate Unwired(m: map<Porta, Porta>, n: Node) {
    forall i :: Porta(n, i) !in m
  }

  /** The eight wires of the rule share no end. */
  lemma DiamondDisjoint(count: int, c1: Porta, c2: Porta, c3: Porta, c4: Porta)
    requires c1.node.nodeId < count && c2.node.nodeId < count && c3.node.nodeId < count && c4.node.nodeId < count
    requires c1 != c2 && c1 != c3 && c1 != c4 && c2 != c3 && c2 != c4 && c3 != c4
    ensures Disjoint(DiamondWires(count, c1, c2, c3, c4))
  {
  }

  /** The deletion order of either commutation arm: the right node's ports, then the left node's. */
  ghost predicate CommuteOrder(plus: Node, copy: Node, doomed: seq<Porta>) {
    doomed == Consumed(copy) + Consumed(plus) || doomed == Consumed(plus) + Consumed(copy)
  }

  /** The peers of the four auxiliary ports: wired back, pairwise different, and not deleted by the rule. */
  lemma CommutationPeers(m: map<Porta, Porta>, count: int, plus: Node, copy: Node)
    requires CommutationRedex(m, count, plus, copy)
    ensures var c1, c2, c3, c4 := m[Porta(copy, 1)], m[Porta(copy, 2)], m[Porta(plus, 1)], m[Porta(plus, 2)];
      && c1 in m && m[c1] == Porta(copy, 1) && c2 in m && m[c2] == Porta(copy, 2)
      && c3 in m && m[c3] == Porta(plus, 1) && c4 in m && m[c4] == Porta(plus, 2)
      && c1 != c2 && c1 != c3 && c1 != c4 && c2 != c3 && c2 != c4 && c3 != c4
      && c1 !in Consumed6(plus, copy) && c2 !in Consumed6(plus, copy)
      && c3 !in Consumed6(plus, copy) && c4 !in Consumed6(plus, copy)
      && m[Porta(copy, 0)] == Porta(plus, 0)
  {
    assert m[Porta(copy, 0)] == Porta(plus, 0);
  }

  /** The three ports of two different nodes are six different ports. */
  lemma ConsumedBoth(a: Node, b: Node)
    requires a != b
    ensures Distinct(Consumed(a) + Consumed(b))
    ensures (set k | k in Consumed(a) + Consumed(b)) == Consumed6(a, b) == Consumed6(b, a)
  {
    var ks := Consumed(a) + Consumed(b);
    assert forall m :: 0 <= m < 6 ==> ks[m] == Porta(if m < 3 then a else b, m % 3);
  }

  /** Deleting the six ports of the active pair, in either arm's order, when all are wired. */
  lemma DeleteDoomed(t: State, plus: Node, copy: Node, doomed: seq<Porta>)
    requires plus != copy && CommuteOrder(plus, copy, doomed)
    requires Consumed6(plus, copy) <= t.arestas.Keys
    ensures DeleteAll(t, doomed) == Run(t.(arestas := t.arestas - Consumed6(plus, copy)), None)
  {
    if doomed == Consumed(copy) + Consumed(plus) {
      ConsumedBoth(copy, plus);
    } else {
      ConsumedBoth(plus, copy);
    }
    DeleteAllSucceeds(t, doomed);
  }

  /** Once the four auxiliary ports are found wired, the rule is its eight connections and its deletions. */
  lemma CommuteUnfolds(s: State, plus: Node, copy: Node, doomed: seq<Porta>)
    requires Porta(plus, 1) in s.arestas && Porta(plus, 2) in s.arestas
    requires Porta(copy, 1) in s.arestas && Porta(copy, 2) in s.arestas
    ensures var m := s.arestas;
      var ws := DiamondWires(s.nodeCount, m[Porta(copy, 1)], m[Porta(copy, 2)], m[Porta(plus, 1)], m[Porta(plus, 2)]);
      Commute(s, plus, copy, doomed) == DeleteAll(ConnectAll(s.(nodeCount := s.nodeCount + 4), ws), doomed)
  {
  }

  /** With its ports wired and its wires disjoint, the commutation rule runs to its end without raising. */
  lemma CommuteRuns(s: State, plus: Node, copy: Node, doomed: seq<Porta>)
    requires plus != copy && CommuteOrder(plus, copy, doomed)
    requires Consumed6(plus, copy) <= s.arestas.Keys
    requires Disjoint(DiamondWires(s.nodeCount, s.arestas[Porta(copy, 1)], s.arestas[Porta(copy, 2)],
                                   s.arestas[Porta(plus, 1)], s.arestas[Porta(plus, 2)]))
    ensures var m := s.arestas;
      var ws := DiamondWires(s.nodeCount, m[Porta(copy, 1)], m[Porta(copy, 2)], m[Porta(plus, 1)], m[Porta(plus, 2)]);
      Commute(s, plus, copy, doomed)
        == Run(State((m + WireMap(ws)) - Consumed6(plus, copy), s.nodeCount + 4, s.talvez + Ends(ws)), None)
  {
    var m := s.arestas;
    var ws := DiamondWires(s.nodeCount, m[Porta(copy, 1)], m[Porta(copy, 2)], m[Porta(plus, 1)], m[Porta(plus, 2)]);
    var s4 := s.(nodeCount := s.nodeCount + 4);
    CommuteUnfolds(s, plus, copy, doomed);
    ConnectAllWrites(s4, ws);
    DeleteDoomed(ConnectAll(s4, ws), plus, copy, doomed);
  }

  /** The wiring the commutation rule leaves: the consumed entries go, the eight wires come. */
  function CommuteMap(m: map<Porta, Porta>, count: int, plus: Node, copy: Node): map<Porta, Porta>
    requires Porta(plus, 1) in m && Porta(plus, 2) in m && Porta(copy, 1) in m && Porta(copy, 2) in m
  {
    (m - Consumed6(plus, copy))
      + WireMap(DiamondWires(count, m[Porta(copy, 1)], m[Porta(copy, 2)], m[Porta(plus, 1)], m[Porta(plus, 2)]))
  }

  /** Merging entries on keys outside `g`, then deleting `g`, is deleting first. */
  lemma MergeThenMinus(m: map<Porta, Porta>, w: map<Porta, Porta>, g: set<Porta>)
    requires w.Keys !! g
    ensures (m + w) - g == (m - g) + w
  {
  }

  /** Taking away a subset shrinks a set by the subset's size. */
  lemma SetMinusCard(a: set<Porta>, b: set<Porta>)
    requires b <= a
    ensures |a - b| == |a| - |b|
  {
    assert a == (a - b) + b;
    assert (a - b) !! b;
  }

  /** The ends of the eight wires: the twelve fresh ports and the four peers. */
  lemma DiamondEnds(count: int, c1: Porta, c2: Porta, c3: Porta, c4: Porta, p: Porta)
    requires IsEnd(DiamondWires(count, c1, c2, c3, c4), p)
    ensures p in {c1, c2, c3, c4} || count <= p.node.nodeId < count + 4
    ensures p !in {c1, c2, c3, c4} ==> p.node == Node(p.node.nodeId, if p.node.nodeId < count + 2 then Plus else Copy)
  {
  }

  /**
    Replacing part of a symmetric dict by disjoint wires: the deleted ports
    are no wire ends, a wire end already in the dict was wired into the
    deleted part, and every port the deleted part was wired to from outside
    it is a wire end.  The result is symmetric.
  */
  lemma ReplaceByWires(m: map<Porta, Porta>, g: set<Porta>, ws: seq<(Porta, Porta)>)
    requires Symmetric(m) && g <= m.Keys && Disjoint(ws)
    requires forall p :: IsEnd(ws, p) ==> p !in g
    requires forall p :: IsEnd(ws, p) && p in m ==> m[p] in g
    requires forall d :: d in g && m[d] !in g ==> IsEnd(ws, m[d])
    ensures Symmetric((m - g) + WireMap(ws))
  {
    WireMapKeys(ws);
    WireMapSymmetric(ws);
    ReplaceKeepsSymmetry(m, g, WireMap(ws));
  }

  /** No end of the eight wires is one of the six deleted ports. */
  lemma DiamondAvoidsConsumed(m: map<Porta, Porta>, count: int, plus: Node, copy: Node)
    requires CommutationRedex(m, count, plus, copy)
    ensures var ws := DiamondWires(count, m[Porta(copy, 1)], m[Porta(copy, 2)], m[Porta(plus, 1)], m[Porta(plus, 2)]);
      forall p :: IsEnd(ws, p) ==> p !in Consumed6(plus, copy)
  {
    var c1, c2, c3, c4 := m[Porta(copy, 1)], m[Porta(copy, 2)], m[Porta(plus, 1)], m[Porta(plus, 2)];
    forall p | IsEnd(DiamondWires(count, c1, c2, c3, c4), p) ensures p !in Consumed6(plus, copy) {
      DiamondEnds(count, c1, c2, c3, c4, p);
    }
  }

  /** The only wire ends already in the dict are the four peers, which were wired into the deleted ports. */
  lemma DiamondOldEnds(m: map<Porta, Porta>, count: int, plus: Node, copy: Node)
    requires CommutationRedex(m, count, plus, copy)
    ensures var c1, c2, c3, c4 := m[Porta(copy, 1)], m[Porta(copy, 2)], m[Porta(plus, 1)], m[Porta(plus, 2)];
      forall p :: IsEnd(DiamondWires(count, c1, c2, c3, c4), p) && p in m ==> p in {c1, c2, c3, c4} && m[p] in Consumed6(plus, copy)
  {
    var c1, c2, c3, c4 := m[Porta(copy, 1)], m[Porta(copy, 2)], m[Porta(plus, 1)], m[Porta(plus, 2)];
    CommutationPeers(m, count, plus, copy);
    forall p | IsEnd(DiamondWires(count, c1, c2, c3, c4), p) && p in m
      ensures p in {c1, c2, c3, c4} && m[p] in Consumed6(plus, copy)
    {
      DiamondEnds(count, c1, c2, c3, c4, p);
      assert Porta(p.node, p.port) == p;
    }
  }

  /** Every port wired into the deleted part from outside it is one of the four peers, a wire end. */
  lemma DiamondCoversPeers(m: map<Porta, Porta>, count: int, plus: Node, copy: Node)
    requires CommutationRedex(m, count, plus, copy)
    ensures var ws := DiamondWires(count, m[Porta(copy, 1)], m[Porta(copy, 2)], m[Porta(plus, 1)], m[Porta(plus, 2)]);
      forall d :: d in Consumed6(plus, copy) && m[d] !in Consumed6(plus, copy) ==> IsEnd(ws, m[d])
  {
    var c1, c2, c3, c4 := m[Porta(copy, 1)], m[Porta(copy, 2)], m[Porta(plus, 1)], m[Porta(plus, 2)];
    var ws := DiamondWires(count, c1, c2, c3, c4);
    CommutationPeers(m, count, plus, copy);
    assert ws[0].1 == c1 && ws[1].1 == c2 && ws[2].1 == c3 && ws[3].1 == c4;
  }

  /** The new wiring is symmetric. */
  lemma CommutationSymmetric(m: map<Porta, Porta>, count: int, plus: Node, copy: Node)
    requires CommutationRedex(m, count, plus, copy)
    ensures Symmetric(CommuteMap(m, count, plus, copy))
  {
    var c1, c2, c3, c4 := m[Porta(copy, 1)], m[Porta(copy, 2)], m[Porta(plus, 1)], m[Porta(plus, 2)];
    CommutationPeers(m, count, plus, copy);
    DiamondDisjoint(count, c1, c2, c3, c4);
    DiamondAvoidsConsumed(m, count, plus, copy);
    DiamondOldEnds(m, count, plus, copy);
    DiamondCoversPeers(m, count, plus, copy);
    ReplaceByWires(m, Consumed6(plus, copy), DiamondWires(count, c1, c2, c3, c4));
  }

  /** Four different ports make a set of four. */
  lemma FourCard(c1: Porta, c2: Porta, c3: Porta, c4: Porta)
    requires c1 != c2 && c1 != c3 && c1 != c4 && c2 != c3 && c2 != c4 && c3 != c4
    ensures |{c1, c2, c3, c4}| == 4
  {
    assert |{c1} + {c2}| == 2;
    assert |{c1} + {c2} + {c3}| == 3;
    assert |{c1} + {c2} + {c3} + {c4}| == 4;
    assert {c1, c2, c3, c4} == {c1} + {c2} + {c3} + {c4};
  }

  /**
    The size after replacing part of a dict by disjoint wires: the deleted
    entries go and two entries per wire come, less the wire ends `stale`
    that were keys already.
  */
  lemma ReplaceByWiresCard(m: map<Porta, Porta>, g: set<Porta>, ws: seq<(Porta, Porta)>, stale: set<Porta>)
    requires g <= m.Keys && Disjoint(ws)
    requires forall p :: IsEnd(ws, p) ==> p !in g
    requires forall p :: IsEnd(ws, p) && p in m ==> p in stale
    requires forall p :: p in stale ==> p in m && IsEnd(ws, p)
    ensures |(m - g) + WireMap(ws)| == |m| - |g| + 2 * |ws| - |stale|
  {
    var w := WireMap(ws);
    WireMapKeys(ws);
    WireMapSymmetric(ws);
    assert w.Keys - m.Keys == w.Keys - stale;
    SetMinusCard(w.Keys, stale);
    assert |w.Keys| == |w|;
    ReplaceCard(m, g, w);
  }

  /** Commutation removes six entries and adds sixteen, four of them over old keys: three wires more. */
  lemma CommutationCard(m: map<Porta, Porta>, count: int, plus: Node, copy: Node)
    requires CommutationRedex(m, count, plus, copy)
    ensures |CommuteMap(m, count, plus, copy)| == |m| + 6
  {
    var c1, c2, c3, c4 := m[Porta(copy, 1)], m[Porta(copy, 2)], m[Porta(plus, 1)], m[Porta(plus, 2)];
    var ws := DiamondWires(count, c1, c2, c3, c4);
    CommutationPeers(m, count, plus, copy);
    DiamondDisjoint(count, c1, c2, c3, c4);
    DiamondAvoidsConsumed(m, count, plus, copy);
    DiamondOldEnds(m, count, plus, copy);
    assert ws[0].1 == c1 && ws[1].1 == c2 && ws[2].1 == c3 && ws[3].1 == c4;
    assert IsEnd(ws, c1) && IsEnd(ws, c2) && IsEnd(ws, c3) && IsEnd(ws, c4);
    FourCard(c1, c2, c3, c4);
    Consumed6Card(plus, copy);
    ReplaceByWiresCard(m, Consumed6(plus, copy), ws, {c1, c2, c3, c4});
  }

  /** The statements of the commutation rule build CommuteMap. */
  lemma CommutationWrites(m: map<Porta, Porta>, count: int, plus: Node, copy: Node)
    requires CommutationRedex(m, count, plus, copy)
    ensures var ws := DiamondWires(count, m[Porta(copy, 1)], m[Porta(copy, 2)], m[Porta(plus, 1)], m[Porta(plus, 2)]);
      (m + WireMap(ws)) - Consumed6(plus, copy) == CommuteMap(m, count, plus, copy)
  {
    var ws := DiamondWires(count, m[Porta(copy, 1)], m[Porta(copy, 2)], m[Porta(plus, 1)], m[Porta(plus, 2)]);
    CommutationPeers(m, count, plus, copy);
    DiamondDisjoint(count, m[Porta(copy, 1)], m[Porta(copy, 2)], m[Porta(plus, 1)], m[Porta(plus, 2)]);
    WireMapKeys(ws);
    DiamondAvoidsConsumed(m, count, plus, copy);
    MergeThenMinus(m, WireMap(ws), Consumed6(plus, copy));
  }

  /** After the replacement, each of the disjoint wires is in the dict in both directions. */
  lemma ReplaceByWiresEntries(m: map<Porta, Porta>, g: set<Porta>, ws: seq<(Porta, Porta)>)
    requires Disjoint(ws)
    ensures forall i :: 0 <= i < |ws| ==>
      && ws[i].0 in (m - g) + WireMap(ws) && ((m - g) + WireMap(ws))[ws[i].0] == ws[i].1
      && ws[i].1 in (m - g) + WireMap(ws) && ((m - g) + WireMap(ws))[ws[i].1] == ws[i].0
  {
    WireMapEntries(ws);
  }

  /**
    The commutation rule on an active pair: it runs to its end, hands out
    four ids, queues the sixteen new wire ends, leaves CommuteMap as the
    wiring, in which each of the eight wires of DiamondWires is present in
    both directions; the dict stays symmetric and gains three wires.
  */
  lemma CommuteEffect(s: State, plus: Node, copy: Node, doomed: seq<Porta>)
    requires CommutationRedex(s.arestas, s.nodeCount, plus, copy) && CommuteOrder(plus, copy, doomed)
    ensures var m := s.arestas;
      var ws := DiamondWires(s.nodeCount, m[Porta(copy, 1)], m[Porta(copy, 2)], m[Porta(plus, 1)], m[Porta(plus, 2)]);
      var r := Commute(s, plus, copy, doomed);
      && r == Run(State(CommuteMap(m, s.nodeCount, plus, copy), s.nodeCount + 4, s.talvez + Ends(ws)), None)
      && (forall i :: 0 <= i < |ws| ==>
            && ws[i].0 in r.state.arestas && r.state.arestas[ws[i].0] == ws[i].1
            && ws[i].1 in r.state.arestas && r.state.arestas[ws[i].1] == ws[i].0)
      && Symmetric(r.state.arestas)
      && |r.state.arestas| == |m| + 6
  {
    var m := s.arestas;
    var c1, c2, c3, c4 := m[Porta(copy, 1)], m[Porta(copy, 2)], m[Porta(plus, 1)], m[Porta(plus, 2)];
    var ws := DiamondWires(s.nodeCount, c1, c2, c3, c4);
    CommutationPeers(m, s.nodeCount, plus, copy);
    DiamondDisjoint(s.nodeCount, c1, c2, c3, c4);
    assert Consumed6(plus, copy) <= m.Keys;
    CommuteRuns(s, plus, copy, doomed);
    CommutationWrites(m, s.nodeCount, plus, copy);
    ReplaceByWiresEntries(m, Consumed6(plus, copy), ws);
    CommutationSymmetric(m, s.nodeCount, plus, copy);
    CommutationCard(m, s.nodeCount, plus, copy);
  }

  /** The arm of `apply_rewrite` a Plus/Copy pair takes, in either order (inet.py:88-140). */
  lemma CommutationArm(s: State, left: Node, right: Node, rule: MirrorRule)
    requires (left.kind == Plus && right.kind == Copy) || (left.kind == Copy && right.kind == Plus)
    ensures left.kind == Plus ==> Rewrite(s, left, right, rule) == Commute(s, left, right, Consumed(right) + Consumed(left))
    ensures left.kind == Copy ==> Rewrite(s, left, right, rule) == Commute(s, right, left, Consumed(right) + Consumed(left))
  {
  }

  /** In an allocated dict, an active Plus/Copy pair whose auxiliary ports lead elsewhere is a redex. */
  lemma CommutationRedexFromAllocated(m: map<Porta, Porta>, count: int, plus: Node, copy: Node)
    requires plus.kind == Plus && copy.kind == Copy
    requires Symmetric(m) && Allocated(m, count)
    requires Porta(plus, 0) in m && m[Porta(plus, 0)] == Porta(copy, 0)
    requires Porta(plus, 1) in m && Porta(plus, 2) in m && Porta(copy, 1) in m && Porta(copy, 2) in m
    requires m[Porta(plus, 1)].node !in {plus, copy} && m[Porta(plus, 2)].node !in {plus, copy}
    requires m[Porta(copy, 1)].node !in {plus, copy} && m[Porta(copy, 2)].node !in {plus, copy}
    ensures CommutationRedex(m, count, plus, copy)
  {
    UnallocatedIsUnwired(m, count, Node(count, Plus));
    UnallocatedIsUnwired(m, count, Node(count + 1, Plus));
    UnallocatedIsUnwired(m, count, Node(count + 2, Copy));
    UnallocatedIsUnwired(m, count, Node(count + 3, Copy));
  }

  /**
    Commutation of an active Plus/Copy pair, in either order (inet.py:88-140):
    two fresh Plus nodes take over the Copy node's auxiliary peers, two fresh
    Copy nodes the Plus node's, the four are wired in the diamond of
    DiamondWires; the dict stays symmetric and gains three wires.
  */
  lemma CommutationEffect(s: State, left: Node, right: Node, rule: MirrorRule)
    requires (left.kind == Plus && right.kind == Copy) || (left.kind == Copy && right.kind == Plus)
    requires Symmetric(s.arestas) && Allocated(s.arestas, s.nodeCount)
    requires Porta(left, 0) in s.arestas && s.arestas[Porta(left, 0)] == Porta(right, 0)
    requires Porta(left, 1) in s.arestas && Porta(left, 2) in s.arestas
    requires Porta(right, 1) in s.arestas && Porta(right, 2) in s.arestas
    requires forall i :: 1 <= i <= 2 ==> s.arestas[Porta(left, i)].node !in {left, right}
    requires forall i :: 1 <= i <= 2 ==> s.arestas[Porta(right, i)].node !in {left, right}
    ensures var plus, copy := if left.kind == Plus then left else right, if left.kind == Plus then right else left;
      var m := s.arestas;
      var ws := DiamondWires(s.nodeCount, m[Porta(copy, 1)], m[Porta(copy, 2)], m[Porta(plus, 1)], m[Porta(plus, 2)]);
      var r := Rewrite(s, left, right, rule);
      && r.raised == None
      && r.state.nodeCount == s.nodeCount + 4
      && r.state.arestas == CommuteMap(m, s.nodeCount, plus, copy)
      && (forall i :: 0 <= i < |ws| ==>
            && ws[i].0 in r.state.arestas && r.state.arestas[ws[i].0] == ws[i].1
            && ws[i].1 in r.state.arestas && r.state.arestas[ws[i].1] == ws[i].0)
      && Symmetric(r.state.arestas)
      && |r.state.arestas| == |m| + 6
  {
    var m := s.arestas;
    var plus, copy := if left.kind == Plus then left else right, if left.kind == Plus then right else left;
    assert s.arestas[Porta(left, 1)].node !in {left, right} && s.arestas[Porta(left, 2)].node !in {left, right};
    assert s.arestas[Porta(right, 1)].node !in {left, right} && s.arestas[Porta(right, 2)].node !in {left, right};
    assert {plus, copy} == {left, right};
    assert m[Porta(plus, 0)] == Porta(copy, 0);
    CommutationRedexFromAllocated(m, s.nodeCount, plus, copy);
    CommutationArm(s, left, right, rule);
    CommuteEffect(s, plus, copy, Consumed(right) + Consumed(left));
  }

  /** Two runs of deletions in a row: the second runs only when the first did not raise. */
  lemma {:induction false} DeleteAllAppend(s: State, a: seq<Porta>, b: seq<Porta>)
    ensures DeleteAll(s, a + b)
         == (var r := DeleteAll(s, a); if r.raised.Some? then r else DeleteAll(r.state, b))
    decreases |a|
  {
    if a != [] {
      assert (a + b)[0] == a[0] && (a + b)[1..] == a[1..] + b;
      var first := Delete(s, a[0]);
      if first.raised.None? {
        DeleteAllAppend(first.state, a[1..], b);
      }
    } else {
      assert a + b == b;
    }
  }

  /** One more `connect_ports` call of a sequence, taken off its front. */
  lemma ConnectAllStep(s: State, ws: seq<(Porta, Porta)>, k: int)
    requires 0 <= k < |ws|
    ensures ConnectAll(s, ws[k..]) == ConnectAll(Connect(s, ws[k].0, ws[k].1), ws[k + 1..])
  {
    assert ws[k..][0] == ws[k];
    assert ws[k..][1..] == ws[k + 1..];
  }

  /** The eight connections of DiamondWires, one call after the other. */
  lemma ConnectAllDiamond(s: State, count: int, c1: Porta, c2: Porta, c3: Porta, c4: Porta)
    ensures var pls1, pls2 := Node(count, Plus), Node(count + 1, Plus);
      var cpy1, cpy2 := Node(count + 2, Copy), Node(count + 3, Copy);
      ConnectAll(s, DiamondWires(count, c1, c2, c3, c4))
        == Connect(Connect(Connect(Connect(Connect(Connect(Connect(Connect(s,
             Porta(pls1, 0), c1), Porta(pls2, 0), c2), Porta(cpy1, 0), c3), Porta(cpy2, 0), c4),
             Porta(pls1, 1), Porta(cpy1, 1)), Porta(pls1, 2), Porta(cpy2, 1)),
             Porta(pls2, 1), Porta(cpy1, 2)), Porta(pls2, 2), Porta(cpy2, 2))
  {
    var ws := DiamondWires(count, c1, c2, c3, c4);
    var t0 := s;
    assert ws[0..] == ws;
    ConnectAllStep(t0, ws, 0);
    var t1 := Connect(t0, ws[0].0, ws[0].1);
    ConnectAllStep(t1, ws, 1);
    var t2 := Connect(t1, ws[1].0, ws[1].1);
    ConnectAllStep(t2, ws, 2);
    var t3 := Connect(t2, ws[2].0, ws[2].1);
    ConnectAllStep(t3, ws, 3);
    var t4 := Connect(t3, ws[3].0, ws[3].1);
    ConnectAllStep(t4, ws, 4);
    var t5 := Connect(t4, ws[4].0, ws[4].1);
    ConnectAllStep(t5, ws, 5);
    var t6 := Connect(t5, ws[5].0, ws[5].1);
    ConnectAllStep(t6, ws, 6);
    var t7 := Connect(t6, ws[6].0, ws[6].1);
    ConnectAllStep(t7, ws, 7);
    var t8 := Connect(t7, ws[7].0, ws[7].1);
    assert ws[8..] == [];
  }

  /**
    The guard of `connect_ports` (inet.py:148-149), read as a test on
    `self.arestas`: neither port is wired yet.
  */
  ghost predicate ConnectGuard(m: map<Porta, Porta>, left: Porta, right: Porta) {
    left !in m && right !in m
  }

  /**
    The duplication rule (inet.py:62-67, 75-80) reaches its first
    `connect_ports` with the dict it started from and passes the peer of
    the binary node's port 1 as the right port. In a symmetric dict that
    peer is still a key, so the guard read as `self.arestas` fails there,
    while the rule without the guard runs to the end without raising (this
    is the as-written half of a finding).
  */
  lemma GuardRejectsDuplication(s: State, nullary: Node, binary: Node, freshKind: Label)
    requires Symmetric(s.arestas) && nullary != binary
    requires Porta(nullary, 0) in s.arestas && Porta(binary, 0) in s.arestas
    requires Porta(binary, 1) in s.arestas && Porta(binary, 2) in s.arestas
    ensures var before := s.(nodeCount := s.nodeCount + 2);
      !ConnectGuard(before.arestas, FreshPort(s.nodeCount, freshKind), before.arestas[Porta(binary, 1)])
    ensures Duplicate(s, nullary, binary, freshKind).raised == None
  {
    assert s.arestas[Porta(binary, 1)] in s.arestas;
    DuplicateRuns(s, nullary, binary, freshKind);
  }

  /**
    The commutation rule (inet.py:97 and 124) fails the same guard: its
    first `connect_ports`, the first of DiamondWires, passes the peer of the
    Copy node's port 1, which is still a key of the dict the four `add_node`
    calls leave. Without the guard the rule runs to the end.
  */
  lemma GuardRejectsCommutation(s: State, plus: Node, copy: Node, doomed: seq<Porta>)
    requires Symmetric(s.arestas)
    requires plus != copy && CommuteOrder(plus, copy, doomed)
    requires Consumed6(plus, copy) <= s.arestas.Keys
    requires Disjoint(DiamondWires(s.nodeCount, s.arestas[Porta(copy, 1)], s.arestas[Porta(copy, 2)],
                                   s.arestas[Porta(plus, 1)], s.arestas[Porta(plus, 2)]))
    ensures var before := s.(nodeCount := s.nodeCount + 4);
      var m := before.arestas;
      var ws := DiamondWires(s.nodeCount, m[Porta(copy, 1)], m[Porta(copy, 2)], m[Porta(plus, 1)], m[Porta(plus, 2)]);
      !ConnectGuard(m, ws[0].0, ws[0].1)
    ensures Commute(s, plus, copy, doomed).raised == None
  {
    assert Porta(copy, 1) in Consumed6(plus, copy);
    assert s.arestas[Porta(copy, 1)] in s.arestas;
    CommuteRuns(s, plus, copy, doomed);
  }

  /** Label pairs with no `case` arm change nothing (inet.py:57-140). */
  lemma UnmatchedPairIsNoop(s: State, left: Node, right: Node, rule: MirrorRule)
    requires left.kind == Root || right.kind == Root || left.kind == right.kind
    ensures Rewrite(s, left, right, rule) == Run(s, None)
  {
  }

  // ---------------------------------------------------------------------
  // The normalize loop (inet.py:48-55)
  // ---------------------------------------------------------------------

  /**
    An iteration that does not raise took the last port and the port it is
    wired to off the list; when the two are not both principal it
    changes nothing else.
  */
  lemma StepPopsPair(s: State, rule: MirrorRule)
    requires |s.talvez| > 0
    ensures var left := s.talvez[|s.talvez| - 1];
      var rest := s.talvez[..|s.talvez| - 1];
      var r := Step(s, rule);
      r.raised == None ==>
        && left in s.arestas && s.arestas[left] in rest
        && (!(left.port == 0 && s.arestas[left].port == 0) ==>
              && r.state.arestas == s.arestas && r.state.nodeCount == s.nodeCount
              && multiset(r.state.talvez) == multiset(s.talvez) - multiset{left, s.arestas[left]})
  {
    var left := s.talvez[|s.talvez| - 1];
    var rest := s.talvez[..|s.talvez| - 1];
    assert s.talvez == rest + [left];
  }

  /** Each iteration keeps the dict allocated. */
  lemma StepKeepsAllocated(s: State, rule: MirrorRule)
    requires |s.talvez| > 0 && Allocated(s.arestas, s.nodeCount)
    ensures Allocated(Step(s, rule).state.arestas, Step(s, rule).state.nodeCount)
  {
    var left := s.talvez[|s.talvez| - 1];
    if left in s.arestas {
      var right := s.arestas[left];
      var s1 := s.(talvez := s.talvez[..|s.talvez| - 1]);
      if right in s1.talvez {
        RewriteKeepsAllocated(s1.(talvez := RemoveFirst(s1.talvez, right)), left.node, right.node, rule);
      }
    }
  }

  /** `list.remove` of the last element, when it occurs only there. */
  lemma {:induction false} RemoveFirstLast(t: seq<Porta>, x: Porta)
    requires x !in t
    ensures RemoveFirst(t + [x], x) == t
  {
    if t != [] {
      assert (t + [x])[0] == t[0] && (t + [x])[1..] == t[1..] + [x];
      RemoveFirstLast(t[1..], x);
    }
  }

  /**
    An iteration whose popped port's peer is the port queued just before
    it: both leave the list, and the pair is rewritten when both are
    principal ports.
  */
  lemma StepOnLastPair(s: State, rule: MirrorRule, rest: seq<Porta>, right: Porta, left: Porta)
    requires s.talvez == rest + [right, left] && right !in rest
    requires left in s.arestas && s.arestas[left] == right
    ensures Step(s, rule)
         == if left.port == right.port && right.port == 0 then Rewrite(s.(talvez := rest), left.node, right.node, rule)
            else Run(s.(talvez := rest), None)
  {
    assert s.talvez[..|s.talvez| - 1] == rest + [right];
    RemoveFirstLast(rest, right);
  }

  /** An iteration that does not raise hands the rest of the run to the next state. */
  lemma NormalizedStep(s: State, fuel: nat, rule: MirrorRule, t: State)
    requires |s.talvez| > 0 && fuel > 0 && Step(s, rule) == Run(t, None)
    ensures Normalized(s, fuel, rule) == Normalized(t, fuel - 1, rule)
  {
  }

  /**
    `normalize` only stops without an exception once the list is empty,
    and calling it again on what it left is a no-op.
  */
  lemma {:induction false} DrainedIsTerminal(s: State, fuel: nat, rule: MirrorRule, again: nat)
    requires Normalized(s, fuel, rule).1 == Drained
    ensures Normalized(s, fuel, rule).0.talvez == []
    ensures Normalized(Normalized(s, fuel, rule).0, again, rule) == (Normalized(s, fuel, rule).0, Drained)
    decreases fuel
  {
    if |s.talvez| != 0 {
      DrainedIsTerminal(Step(s, rule).state, fuel - 1, rule, again);
    }
  }

  /** Whatever one iteration of `normalize` preserves, even one that raises, a bounded run preserves. */
  lemma {:induction false} NormalizedKeeps(inv: State -> bool, s: State, fuel: nat, rule: MirrorRule)
    requires inv(s)
    requires forall u: State {:trigger Step(u, rule)} :: |u.talvez| > 0 && inv(u) ==> inv(Step(u, rule).state)
    ensures inv(Normalized(s, fuel, rule).0)
    decreases fuel
  {
    if |s.talvez| != 0 && fuel != 0 {
      var r, f1 := Step(s, rule), fuel - 1;
      assert inv(r.state);
      if r.raised.None? {
        NormalizedStep(s, fuel, rule, r.state);
        NormalizedKeeps(inv, r.state, f1, rule);
      } else {
        assert Normalized(s, fuel, rule).0 == r.state;
      }
    } else {
      assert Normalized(s, fuel, rule).0 == s;
    }
  }

  /** A bounded run keeps the dict allocated, whatever way it ends. */
  lemma NormalizedKeepsAllocated(s: State, fuel: nat, rule: MirrorRule)
    requires Allocated(s.arestas, s.nodeCount)
    ensures Allocated(Normalized(s, fuel, rule).0.arestas, Normalized(s, fuel, rule).0.nodeCount)
  {
    var inv := (u: State) => Allocated(u.arestas, u.nodeCount);
    forall u: State | |u.talvez| > 0 && inv(u)
      ensures inv(Step(u, rule).state)
    {
      StepKeepsAllocated(u, rule);
    }
    NormalizedKeeps(inv, s, fuel, rule);
  }
}
