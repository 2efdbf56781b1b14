/**
  Properties of the Rust draft's model: the vector operations behind
  `get_connected` and `get_auxiliary_ports`, the routing of wires into the
  two vectors, freshness of node ids, the wire accounting of each rule and
  the exit condition of `normalize`.
*/
module RsNetProofs {
  import opened Options
  import opened RsNet

  /** `swap_remove(i)` moves the last element into slot `i` and keeps every other element in place. */
  lemma SwapRemoveOrder(ws: seq<Wire>, i: nat)
    requires i < |ws|
    ensures var r := SwapRemove(ws, i);
      && |r| == |ws| - 1
      && (forall j :: 0 <= j < |r| && j != i ==> r[j] == ws[j])
      && (i < |r| ==> r[i] == ws[|ws| - 1])
  {
  }

  /** Taking out the one copy of `x` put between `a` and `b`. */
  lemma MultisetCancel(a: multiset<Wire>, x: Wire, b: multiset<Wire>)
    ensures (a + multiset{x} + b) - multiset{x} == a + b
  {
  }

  /** `swap_remove(i)` drops exactly one occurrence of element `i`. */
  lemma SwapRemoveContents(ws: seq<Wire>, i: nat)
    requires i < |ws|
    ensures multiset(SwapRemove(ws, i)) == multiset(ws) - multiset{ws[i]}
  {
    var n := |ws|;
    var last := ws[n - 1];
    if i == n - 1 {
      assert SwapRemove(ws, i) == ws[..i];
      assert ws == ws[..i] + [ws[i]];
      MultisetCancel(multiset(ws[..i]), ws[i], multiset{});
    } else {
      var mid := ws[i + 1..n - 1];
      assert SwapRemove(ws, i) == ws[..i] + [last] + mid;
      assert ws == ws[..i] + [ws[i]] + (mid + [last]);
      MultisetCancel(multiset(ws[..i]), ws[i], multiset(mid + [last]));
      assert multiset(mid + [last]) == multiset(mid) + multiset{last};
    }
  }

  /** The scan of `get_connected` stops at the first wire touching `p`, and runs off the end when there is none. */
  lemma {:induction false} IndexOfTouchingSpec(ws: seq<Wire>, p: Porta)
    ensures var i := IndexOfTouching(ws, p);
      && (forall j :: 0 <= j < i ==> !Touches(ws[j], p))
      && (i < |ws| ==> Touches(ws[i], p))
      && (i == |ws| <==> forall j :: 0 <= j < |ws| ==> !Touches(ws[j], p))
  {
    if ws != [] && !Touches(ws[0], p) {
      IndexOfTouchingSpec(ws[1..], p);
      assert forall j :: 1 <= j < |ws| ==> ws[j] == ws[1..][j - 1];
    }
  }

  /**
    `get_connected(p)` succeeds exactly when some wire touches `p`; it then
    returns the other end of the first such wire, removes that one wire
    and changes nothing else.
  */
  lemma GetConnectedSpec(s: Net, p: Porta)
    ensures GetConnected(s, p).Some? <==> exists j :: 0 <= j < |s.arestas| && Touches(s.arestas[j], p)
    ensures GetConnected(s, p).Some? ==>
      var (t, q) := GetConnected(s, p).value;
      var w := s.arestas[IndexOfTouching(s.arestas, p)];
      && Touches(w, p) && q == Other(w, p)
      && |t.arestas| == |s.arestas| - 1
      && multiset(t.arestas) == multiset(s.arestas) - multiset{w}
      && t.ativas == s.ativas && t.nodeCount == s.nodeCount
  {
    var i := IndexOfTouching(s.arestas, p);
    IndexOfTouchingSpec(s.arestas, p);
    if i < |s.arestas| {
      SwapRemoveOrder(s.arestas, i);
      SwapRemoveContents(s.arestas, i);
    }
  }

  /** A wire of a multiset-smaller vector is a wire of the larger one. */
  lemma SubWire(small: seq<Wire>, large: seq<Wire>, w: Wire)
    requires multiset(small) <= multiset(large) && w in small
    ensures w in large
  {
    assert w in multiset(small);
  }

  /**
    The first `k` iterations of `get_auxiliary_ports`'s loop, when none
    panics: one peer per port, exactly `k` wires gone, and nothing else
    changed.
  */
  lemma {:induction false} AuxLoopCounts(s: Net, node: Node, k: nat)
    requires AuxLoop(s, node, k).Some?
    ensures var (t, ps) := AuxLoop(s, node, k).value;
      && |ps| == k
      && t.ativas == s.ativas && t.nodeCount == s.nodeCount
      && |t.arestas| == |s.arestas| - k
      && multiset(t.arestas) <= multiset(s.arestas)
  {
    if k > 0 {
      var r := AuxLoop(s, node, k - 1);
      AuxLoopCounts(s, node, k - 1);
      GetConnectedSpec(r.value.0, Porta(node, k));
    }
  }

  /** The wires the first `k` iterations of `get_auxiliary_ports`'s loop take out of the net, in order. */
  ghost function Taken(s: Net, node: Node, k: nat): seq<Wire>
    requires AuxLoop(s, node, k).Some?
  {
    if k == 0 then []
    else
      var t := AuxLoop(s, node, k - 1).value.0;
      Taken(s, node, k - 1) + [t.arestas[IndexOfTouching(t.arestas, Porta(node, k))]]
  }

  /** The last of `k` iterations of `get_auxiliary_ports`'s loop, and the wire it takes. */
  lemma AuxLoopLast(s: Net, node: Node, k: nat)
    requires k > 0 && AuxLoop(s, node, k).Some?
    ensures var r := AuxLoop(s, node, k - 1);
      && r.Some?
      && GetConnected(r.value.0, Porta(node, k)).Some?
      && AuxLoop(s, node, k).value.0 == GetConnected(r.value.0, Porta(node, k)).value.0
      && AuxLoop(s, node, k).value.1 == r.value.1 + [GetConnected(r.value.0, Porta(node, k)).value.1]
      && Taken(s, node, k) == Taken(s, node, k - 1) + [r.value.0.arestas[IndexOfTouching(r.value.0.arestas, Porta(node, k))]]
  {
  }

  /** One wire taken per iteration of `get_auxiliary_ports`'s loop. */
  lemma {:induction false} TakenLength(s: Net, node: Node, k: nat)
    requires AuxLoop(s, node, k).Some?
    ensures |Taken(s, node, k)| == k
  {
    if k > 0 {
      var k1 := k - 1;
      AuxLoopLast(s, node, k);
      TakenLength(s, node, k1);
    }
  }

  /** Taking one more wire `w` out of the net keeps the accounting exact. */
  lemma MultisetStep(a: seq<Wire>, ws1: seq<Wire>, b: seq<Wire>, orig: seq<Wire>, w: Wire)
    requires multiset(a) + multiset(ws1) == multiset(orig)
    requires w in a && multiset(b) == multiset(a) - multiset{w}
    ensures multiset(b) + multiset(ws1 + [w]) == multiset(orig)
  {
    assert multiset(ws1 + [w]) == multiset(ws1) + multiset{w};
  }

  /** The wires the first `k` iterations of `get_auxiliary_ports`'s loop remove are exactly the ones `Taken` names. */
  lemma {:induction false} TakenMultiset(s: Net, node: Node, k: nat)
    requires AuxLoop(s, node, k).Some?
    ensures multiset(AuxLoop(s, node, k).value.0.arestas) + multiset(Taken(s, node, k)) == multiset(s.arestas)
  {
    if k > 0 {
      var k1 := k - 1;
      AuxLoopLast(s, node, k);
      TakenMultiset(s, node, k1);
      var t1 := AuxLoop(s, node, k1).value.0;
      var p := Porta(node, k);
      GetConnectedSpec(t1, p);
      var w := t1.arestas[IndexOfTouching(t1.arestas, p)];
      MultisetStep(t1.arestas, Taken(s, node, k1), GetConnected(t1, p).value.0.arestas, s.arestas, w);
    }
  }

  /** Appending one more port and its taken wire keeps every peer the other end of its wire. */
  lemma PeersStep(ws1: seq<Wire>, ps1: seq<Porta>, w: Wire, q: Porta, node: Node, k: nat)
    requires k > 0 && |ws1| == k - 1 && |ps1| == k - 1
    requires forall i :: 0 <= i < k - 1 ==> Touches(ws1[i], Porta(node, i + 1)) && ps1[i] == Other(ws1[i], Porta(node, i + 1))
    requires Touches(w, Porta(node, k)) && q == Other(w, Porta(node, k))
    ensures forall i :: 0 <= i < k ==>
      Touches((ws1 + [w])[i], Porta(node, i + 1)) && (ps1 + [q])[i] == Other((ws1 + [w])[i], Porta(node, i + 1))
  {
  }

  /** Each peer the first `k` iterations of `get_auxiliary_ports`'s loop return is the other end of the wire taken for its port. */
  lemma {:induction false} TakenPeers(s: Net, node: Node, k: nat)
    requires AuxLoop(s, node, k).Some?
    ensures |Taken(s, node, k)| == k && |AuxLoop(s, node, k).value.1| == k
    ensures forall i :: 0 <= i < k ==>
      && Touches(Taken(s, node, k)[i], Porta(node, i + 1))
      && AuxLoop(s, node, k).value.1[i] == Other(Taken(s, node, k)[i], Porta(node, i + 1))
  {
    if k > 0 {
      var k1 := k - 1;
      AuxLoopLast(s, node, k);
      TakenPeers(s, node, k1);
      var t1 := AuxLoop(s, node, k1).value.0;
      var p := Porta(node, k);
      GetConnectedSpec(t1, p);
      var ws1, ps1 := Taken(s, node, k1), AuxLoop(s, node, k1).value.1;
      var w, q := t1.arestas[IndexOfTouching(t1.arestas, p)], GetConnected(t1, p).value.1;
      PeersStep(ws1, ps1, w, q, node, k);
    }
  }

  /** A loop that runs `k` iterations without panicking ran its first `j` without panicking. */
  lemma {:induction false} AuxLoopPrefix(s: Net, node: Node, j: nat, k: nat)
    requires j <= k && AuxLoop(s, node, k).Some?
    ensures AuxLoop(s, node, j).Some?
    decreases k - j
  {
    if j < k {
      AuxLoopPrefix(s, node, j + 1, k);
    }
  }

  /**
    `get_auxiliary_ports(p)` returns `arity + 1` ports, `p` first; it
    removes exactly `arity` wires and leaves the active pairs and the
    counter alone.
  */
  lemma AuxPortsSpec(s: Net, p: Porta)
    requires AuxPorts(s, p).Some?
    ensures var (t, ps) := AuxPorts(s, p).value;
      && |ps| == Arity(p.node.kind) + 1 && ps[0] == p
      && t.ativas == s.ativas && t.nodeCount == s.nodeCount
      && |t.arestas| == |s.arestas| - Arity(p.node.kind)
      && multiset(t.arestas) <= multiset(s.arestas)
  {
    AuxLoopCounts(s, p.node, Arity(p.node.kind));
  }

  /**
    Element `i > 0` of what `get_auxiliary_ports(p)` returns is the peer of
    port `i` of `p`'s node: the other end of the wire taken for that port,
    and the wires taken are exactly the ones that leave the net.
  */
  lemma AuxPortsPeers(s: Net, p: Porta)
    requires AuxPorts(s, p).Some?
    ensures var (t, ps) := AuxPorts(s, p).value;
      var ws := Taken(s, p.node, Arity(p.node.kind));
      && |ws| == |ps| - 1
      && multiset(t.arestas) + multiset(ws) == multiset(s.arestas)
      && forall i :: 1 <= i < |ps| ==> Touches(ws[i - 1], Porta(p.node, i)) && ps[i] == Other(ws[i - 1], Porta(p.node, i))
  {
    var k := Arity(p.node.kind);
    TakenMultiset(s, p.node, k);
    TakenPeers(s, p.node, k);
    var (t, ps1) := AuxLoop(s, p.node, k).value;
    var ps := [p] + ps1;
    assert forall i :: 1 <= i < |ps| ==> ps[i] == ps1[i - 1];
  }

  /** The routing `connect_ports` keeps: only principal pairs are active, and no ordinary wire joins two principal ports. */
  ghost predicate Routed(s: Net) {
    && (forall w :: w in s.ativas ==> w.0.port == 0 && w.1.port == 0)
    && (forall w :: w in s.arestas ==> !(w.0.port == 0 && w.1.port == 0))
  }

  /** Every port in either vector belongs to a node the counter has handed out. */
  ghost predicate Allocated(s: Net) {
    && (forall w :: w in s.ativas ==> w.0.node.id < s.nodeCount && w.1.node.id < s.nodeCount)
    && (forall w :: w in s.arestas ==> w.0.node.id < s.nodeCount && w.1.node.id < s.nodeCount)
  }

  /** A wire stays routed, whatever `connect_ports` is given. */
  lemma ConnectKeepsRouted(s: Net, left: Porta, right: Porta)
    ensures Routed(s) ==> Routed(Connect(s, left, right))
    ensures Total(Connect(s, left, right)) == Total(s) + 1
  {
  }

  /** `connect_ports` appends its pair to exactly one vector, and which one is decided by the two port indices. */
  lemma ConnectRoutes(s: Net, left: Porta, right: Porta)
    ensures var t := Connect(s, left, right);
      && t.nodeCount == s.nodeCount
      && (t.ativas == s.ativas + [(left, right)] <==> left.port == 0 && right.port == 0)
      && (t.arestas == s.arestas + [(left, right)] <==> !(left.port == 0 && right.port == 0))
      && (t.ativas == s.ativas || t.arestas == s.arestas)
  {
    var t := Connect(s, left, right);
    if left.port == 0 && right.port == 0 {
      assert |t.arestas| != |s.arestas + [(left, right)]|;
    } else {
      assert |t.ativas| != |s.ativas + [(left, right)]|;
    }
  }

  /** `add_node` hands out an id that no wire of an allocated net mentions, and raises the counter by one. */
  lemma AddNodeFresh(s: Net, kind: GLA)
    requires Allocated(s)
    ensures var (t, ps) := AddNode(s, kind);
      && t.nodeCount == s.nodeCount + 1 && t.arestas == s.arestas && t.ativas == s.ativas
      && |ps| == Arity(kind) + 1
      && (forall i :: 0 <= i < |ps| ==> ps[i] == Porta(Node(s.nodeCount, kind), i))
      && (forall w :: w in s.arestas + s.ativas ==> w.0.node.id != s.nodeCount && w.1.node.id != s.nodeCount)
      && Allocated(t)
  {
  }

  /** `connect_ports` of all the wires, in order, raises the total by their number and keeps the routing. */
  lemma {:induction false} ConnectAllKeepsRouted(s: Net, ws: seq<Wire>)
    ensures Routed(s) ==> Routed(ConnectAll(s, ws))
    ensures Total(ConnectAll(s, ws)) == Total(s) + |ws|
    ensures ConnectAll(s, ws).nodeCount == s.nodeCount
    decreases |ws|
  {
    if ws != [] {
      ConnectKeepsRouted(s, ws[0].0, ws[0].1);
      ConnectAllKeepsRouted(Connect(s, ws[0].0, ws[0].1), ws[1..]);
    }
  }

  /** Every end of every wire of `ws` is a port of a node below `bound`. */
  ghost predicate WiresBelow(ws: seq<Wire>, bound: nat) {
    forall w :: w in ws ==> w.0.node.id < bound && w.1.node.id < bound
  }

  /** `connect_ports` of wires between allocated ports keeps the net allocated. */
  lemma {:induction false} ConnectAllKeepsAllocated(s: Net, ws: seq<Wire>)
    requires Allocated(s) && WiresBelow(ws, s.nodeCount)
    ensures Allocated(ConnectAll(s, ws))
    decreases |ws|
  {
    if ws != [] {
      var t := Connect(s, ws[0].0, ws[0].1);
      assert ws[0] in ws;
      assert forall w :: w in ws[1..] ==> w in ws;
      ConnectAllKeepsAllocated(t, ws[1..]);
    }
  }

  /** The pops `normalize` starts each iteration with keep the routing and the allocation. */
  lemma PopKeeps(s: Net)
    requires |s.ativas| > 0
    ensures var s0 := s.(ativas := s.ativas[..|s.ativas| - 1]);
      (Routed(s) ==> Routed(s0)) && (Allocated(s) ==> Allocated(s0)) && Total(s0) == Total(s) - 1
  {
    var n := |s.ativas|;
    assert forall w :: w in s.ativas[..n - 1] ==> w in s.ativas;
  }

  /** Removing wires keeps the routing and the allocation. */
  lemma FewerWiresKeep(s: Net, t: Net)
    requires multiset(t.arestas) <= multiset(s.arestas) && t.ativas == s.ativas && t.nodeCount == s.nodeCount
    ensures Routed(s) ==> Routed(t)
    ensures Allocated(s) ==> Allocated(t)
  {
    forall w | w in t.arestas
      ensures w in s.arestas
    {
      SubWire(t.arestas, s.arestas, w);
    }
  }

  /** The ports `get_auxiliary_ports` returns for an allocated port of an allocated net are allocated. */
  lemma AuxPortsAllocated(s: Net, p: Porta)
    requires AuxPorts(s, p).Some? && Allocated(s) && p.node.id < s.nodeCount
    ensures var (t, ps) := AuxPorts(s, p).value;
      Allocated(t) && forall i :: 0 <= i < |ps| ==> ps[i].node.id < s.nodeCount
  {
    AuxPortsSpec(s, p);
    AuxPortsPeers(s, p);
    var (t, ps) := AuxPorts(s, p).value;
    var ws := Taken(s, p.node, Arity(p.node.kind));
    FewerWiresKeep(s, t);
    forall i | 0 <= i < |ps|
      ensures ps[i].node.id < s.nodeCount
    {
      if i > 0 {
        assert ws[i - 1] in multiset(s.arestas);
      }
    }
  }

  /** The effect of `get_auxiliary_ports` on the two vectors' routing and on the total. */
  lemma AuxPortsKeeps(s: Net, p: Porta)
    requires AuxPorts(s, p).Some?
    ensures var (t, ps) := AuxPorts(s, p).value;
      (Routed(s) ==> Routed(t)) && Total(t) == Total(s) - Arity(p.node.kind) && t.nodeCount == s.nodeCount
  {
    AuxPortsSpec(s, p);
    var (t, ps) := AuxPorts(s, p).value;
    FewerWiresKeep(s, t);
  }

  /** The duplication arm's two wires, spelt out. */
  lemma DuplicateWires(s: Net, kind: GLA, aux: seq<Porta>)
    requires |aux| >= 2
    ensures Duplicate(s, kind, aux)
         == Some(Connect(Connect(s.(nodeCount := s.nodeCount + 2), aux[0], Porta(Node(s.nodeCount, kind), 0)),
                         aux[1], Porta(Node(s.nodeCount + 1, kind), 0)))
  {
  }

  /** The commutation arm's eight wires, spelt out on the fresh ids `c` .. `c + 3`. */
  lemma CommuteWiresAt(s: Net, plusAux: seq<Porta>, copyAux: seq<Porta>)
    requires |plusAux| >= 2 && |copyAux| >= 2
    ensures var c := s.nodeCount;
      var pls1, pls2, cpy1, cpy2 := Node(c, Plus), Node(c + 1, Plus), Node(c + 2, Copy), Node(c + 3, Copy);
      Commute(s, plusAux, copyAux)
      == Some(ConnectAll(s.(nodeCount := c + 4),
               [ (Porta(pls1, 0), copyAux[0]), (Porta(pls2, 0), copyAux[1]),
                 (Porta(cpy1, 0), plusAux[0]), (Porta(cpy2, 0), plusAux[1]),
                 (Porta(pls1, 1), Porta(cpy1, 1)), (Porta(pls1, 2), Porta(cpy2, 1)),
                 (Porta(pls2, 1), Porta(cpy1, 2)), (Porta(pls2, 2), Porta(cpy2, 2)) ]))
  {
  }

  /**
    `rewrite` panics exactly on the `todo!()` label pairs, given vectors of
    the lengths `get_auxiliary_ports` builds.
  */
  lemma RewritePanicsExactly(s: Net, left: seq<Porta>, right: seq<Porta>)
    requires |left| > 0 && |right| > 0
    requires |left| == Arity(left[0].node.kind) + 1 && |right| == Arity(right[0].node.kind) + 1
    ensures Rewrite(s, left, right).Some? <==> Supported(left[0].node.kind, right[0].node.kind)
  {
  }

  /**
    One iteration of `normalize` panics exactly when a port it needs is not
    wired or the popped pair is one of the `todo!()` label pairs.
  */
  lemma StepPanicsExactly(s: Net)
    requires |s.ativas| > 0
    ensures var pair := s.ativas[|s.ativas| - 1];
      var s0 := s.(ativas := s.ativas[..|s.ativas| - 1]);
      Step(s).Some? <==>
        && AuxPorts(s0, pair.0).Some?
        && AuxPorts(AuxPorts(s0, pair.0).value.0, pair.1).Some?
        && Supported(pair.0.node.kind, pair.1.node.kind)
  {
    var pair := s.ativas[|s.ativas| - 1];
    var s0 := s.(ativas := s.ativas[..|s.ativas| - 1]);
    var a := AuxPorts(s0, pair.0);
    if a.Some? {
      AuxPortsSpec(s0, pair.0);
      var b := AuxPorts(a.value.0, pair.1);
      if b.Some? {
        AuxPortsSpec(a.value.0, pair.1);
        RewritePanicsExactly(b.value.0, a.value.1, b.value.1);
      }
    }
  }

  /** The state just before `rewrite` runs in one iteration of `normalize`. */
  ghost function BeforeRewrite(s: Net): (Net, seq<Porta>, seq<Porta>)
    requires |s.ativas| > 0 && Step(s).Some?
  {
    var pair := s.ativas[|s.ativas| - 1];
    var s0 := s.(ativas := s.ativas[..|s.ativas| - 1]);
    var a := AuxPorts(s0, pair.0).value;
    var b := AuxPorts(a.0, pair.1).value;
    (b.0, a.1, b.1)
  }

  /** The iteration before the rewrite: both vectors built, the pair popped, `arity` wires gone per side. */
  lemma BeforeRewriteSpec(s: Net)
    requires |s.ativas| > 0 && Step(s).Some?
    ensures var pair := s.ativas[|s.ativas| - 1];
      var (u, lp, rp) := BeforeRewrite(s);
      && Step(s) == Rewrite(u, lp, rp)
      && |lp| == Arity(pair.0.node.kind) + 1 && lp[0] == pair.0
      && |rp| == Arity(pair.1.node.kind) + 1 && rp[0] == pair.1
      && u.nodeCount == s.nodeCount
      && Total(u) == Total(s) - 1 - Arity(pair.0.node.kind) - Arity(pair.1.node.kind)
      && (Routed(s) ==> Routed(u))
  {
    var pair := s.ativas[|s.ativas| - 1];
    var s0 := s.(ativas := s.ativas[..|s.ativas| - 1]);
    PopKeeps(s);
    AuxPortsSpec(s0, pair.0);
    AuxPortsKeeps(s0, pair.0);
    var a := AuxPorts(s0, pair.0).value;
    AuxPortsSpec(a.0, pair.1);
    AuxPortsKeeps(a.0, pair.1);
  }

  /** An annihilation step (Zero against Erase) only pops the pair: the total falls by one. */
  lemma AnnihilationStep(s: Net)
    requires |s.ativas| > 0 && Step(s).Some?
    requires var pair := s.ativas[|s.ativas| - 1];
      (pair.0.node.kind, pair.1.node.kind) in {(Zero, Erase), (Erase, Zero)}
    ensures Step(s).value == s.(ativas := s.ativas[..|s.ativas| - 1])
    ensures Total(Step(s).value) == Total(s) - 1
  {
    var pair := s.ativas[|s.ativas| - 1];
    var s0 := s.(ativas := s.ativas[..|s.ativas| - 1]);
    assert Arity(pair.0.node.kind) == 0 && Arity(pair.1.node.kind) == 0;
    assert AuxLoop(s0, pair.0.node, 0) == Some((s0, [])) && AuxLoop(s0, pair.1.node, 0) == Some((s0, []));
    assert [pair.0] + [] == [pair.0] && [pair.1] + [] == [pair.1];
    assert AuxPorts(s0, pair.0) == Some((s0, [pair.0]));
    assert AuxPorts(s0, pair.1) == Some((s0, [pair.1]));
  }

  /**
    A duplication step (Zero against Copy, Erase against Plus) consumes the
    pair and the binary node's two wires and adds two wires to two fresh
    nodes: the total falls by one and the counter rises by two.
  */
  lemma DuplicationStep(s: Net)
    requires |s.ativas| > 0 && Step(s).Some?
    requires var pair := s.ativas[|s.ativas| - 1];
      (pair.0.node.kind, pair.1.node.kind) in {(Zero, Copy), (Erase, Plus)}
    ensures Total(Step(s).value) == Total(s) - 1
    ensures Step(s).value.nodeCount == s.nodeCount + 2
    ensures Routed(s) ==> Routed(Step(s).value)
  {
    BeforeRewriteSpec(s);
    var (u, lp, rp) := BeforeRewrite(s);
    DuplicateWires(u, lp[0].node.kind, rp[1..]);
    var u2 := u.(nodeCount := u.nodeCount + 2);
    var v := Connect(u2, rp[1], Porta(Node(u.nodeCount, lp[0].node.kind), 0));
    assert rp[1..][0] == rp[1] && rp[1..][1] == rp[2];
    ConnectKeepsRouted(u2, rp[1], Porta(Node(u.nodeCount, lp[0].node.kind), 0));
    ConnectKeepsRouted(v, rp[2], Porta(Node(u.nodeCount + 1, lp[0].node.kind), 0));
  }

  /** The commutation arm adds eight wires and four nodes, and keeps the routing. */
  lemma CommuteCounts(s: Net, plusAux: seq<Porta>, copyAux: seq<Porta>)
    requires |plusAux| >= 2 && |copyAux| >= 2
    ensures Commute(s, plusAux, copyAux).Some?
    ensures Total(Commute(s, plusAux, copyAux).value) == Total(s) + 8
    ensures Commute(s, plusAux, copyAux).value.nodeCount == s.nodeCount + 4
    ensures Routed(s) ==> Routed(Commute(s, plusAux, copyAux).value)
  {
    var (s1, pls1) := AddNode(s, Plus);
    var (s2, pls2) := AddNode(s1, Plus);
    var (s3, cpy1) := AddNode(s2, Copy);
    var (s4, cpy2) := AddNode(s3, Copy);
    ConnectAllKeepsRouted(s4, CommuteWires(pls1, pls2, cpy1, cpy2, plusAux, copyAux));
  }

  /**
    A commutation step (Plus against Copy) consumes the pair and four wires
    and adds eight: the total rises by three and the counter by four.
  */
  lemma CommutationStep(s: Net)
    requires |s.ativas| > 0 && Step(s).Some?
    requires var pair := s.ativas[|s.ativas| - 1];
      pair.0.node.kind == Plus && pair.1.node.kind == Copy
    ensures Total(Step(s).value) == Total(s) + 3
    ensures Step(s).value.nodeCount == s.nodeCount + 4
    ensures Routed(s) ==> Routed(Step(s).value)
  {
    BeforeRewriteSpec(s);
    var (u, lp, rp) := BeforeRewrite(s);
    assert Step(s) == Commute(u, lp[1..], rp[1..]);
    CommuteCounts(u, lp[1..], rp[1..]);
  }

  /** Every port of `ps` is a port of a node below `bound`. */
  ghost predicate PortsBelow(ps: seq<Porta>, bound: nat) {
    forall i :: 0 <= i < |ps| ==> ps[i].node.id < bound
  }

  /** The duplication arm wires allocated peers to its two fresh nodes only. */
  lemma DuplicateKeepsAllocated(s: Net, kind: GLA, aux: seq<Porta>)
    requires |aux| >= 2 && Allocated(s) && PortsBelow(aux, s.nodeCount)
    ensures Duplicate(s, kind, aux).Some? && Allocated(Duplicate(s, kind, aux).value)
  {
    DuplicateWires(s, kind, aux);
    var c := s.nodeCount;
    var ws := [(aux[0], Porta(Node(c, kind), 0)), (aux[1], Porta(Node(c + 1, kind), 0))];
    var s2 := s.(nodeCount := c + 2);
    var t1 := Connect(s2, aux[0], Porta(Node(c, kind), 0));
    var t2 := Connect(t1, aux[1], Porta(Node(c + 1, kind), 0));
    assert ws[1..] == [ws[1]] && ws[1..][1..] == [];
    assert ConnectAll(t2, []) == t2;
    assert ConnectAll(t1, [ws[1]]) == t2;
    assert ConnectAll(s2, ws) == ConnectAll(t1, [ws[1]]);
    ConnectAllKeepsAllocated(s.(nodeCount := c + 2), ws);
  }

  /** The commutation arm wires allocated peers to its four fresh nodes only. */
  lemma CommuteKeepsAllocated(s: Net, plusAux: seq<Porta>, copyAux: seq<Porta>)
    requires |plusAux| >= 2 && |copyAux| >= 2 && Allocated(s)
    requires PortsBelow(plusAux, s.nodeCount) && PortsBelow(copyAux, s.nodeCount)
    ensures Commute(s, plusAux, copyAux).Some? && Allocated(Commute(s, plusAux, copyAux).value)
  {
    var (s1, pls1) := AddNode(s, Plus);
    var (s2, pls2) := AddNode(s1, Plus);
    var (s3, cpy1) := AddNode(s2, Copy);
    var (s4, cpy2) := AddNode(s3, Copy);
    ConnectAllKeepsAllocated(s4, CommuteWires(pls1, pls2, cpy1, cpy2, plusAux, copyAux));
  }

  /** Whatever `rewrite` connects is allocated once it has allocated its fresh nodes. */
  lemma RewriteKeepsAllocated(s: Net, left: seq<Porta>, right: seq<Porta>)
    requires Rewrite(s, left, right).Some? && Allocated(s)
    requires PortsBelow(left, s.nodeCount) && PortsBelow(right, s.nodeCount)
    ensures Allocated(Rewrite(s, left, right).value)
  {
    var l, r := left[0].node.kind, right[0].node.kind;
    if (l, r) == (Zero, Copy) || (l, r) == (Erase, Plus) {
      DuplicateKeepsAllocated(s, l, right[1..]);
    } else if (l, r) == (Plus, Copy) {
      CommuteKeepsAllocated(s, left[1..], right[1..]);
    }
  }

  /** Every iteration of `normalize` keeps the net allocated: fresh ids are never reused. */
  lemma StepKeepsAllocated(s: Net)
    requires |s.ativas| > 0 && Step(s).Some? && Allocated(s)
    ensures Allocated(Step(s).value) && Step(s).value.nodeCount >= s.nodeCount
  {
    var pair := s.ativas[|s.ativas| - 1];
    var s0 := s.(ativas := s.ativas[..|s.ativas| - 1]);
    assert pair in s.ativas;
    PopKeeps(s);
    AuxPortsAllocated(s0, pair.0);
    var a := AuxPorts(s0, pair.0).value;
    AuxPortsSpec(s0, pair.0);
    AuxPortsAllocated(a.0, pair.1);
    AuxPortsSpec(a.0, pair.1);
    var b := AuxPorts(a.0, pair.1).value;
    assert PortsBelow(a.1, b.0.nodeCount) && PortsBelow(b.1, b.0.nodeCount);
    RewriteKeepsAllocated(b.0, a.1, b.1);
    StepCounter(s);
  }

  /** The counter never goes down in an iteration of `normalize`. */
  lemma StepCounter(s: Net)
    requires |s.ativas| > 0 && Step(s).Some?
    ensures Step(s).value.nodeCount >= s.nodeCount
  {
    var pair := s.ativas[|s.ativas| - 1];
    StepPanicsExactly(s);
    var l, r := pair.0.node.kind, pair.1.node.kind;
    if (l, r) == (Zero, Copy) || (l, r) == (Erase, Plus) {
      DuplicationStep(s);
    } else if (l, r) == (Plus, Copy) {
      CommutationStep(s);
    } else {
      AnnihilationStep(s);
    }
  }

  /** Every iteration of `normalize` keeps the routing of wires into the two vectors. */
  lemma StepKeepsRouted(s: Net)
    requires |s.ativas| > 0 && Step(s).Some? && Routed(s)
    ensures Routed(Step(s).value)
  {
    var pair := s.ativas[|s.ativas| - 1];
    StepPanicsExactly(s);
    var l, r := pair.0.node.kind, pair.1.node.kind;
    if (l, r) == (Zero, Copy) || (l, r) == (Erase, Plus) {
      DuplicationStep(s);
    } else if (l, r) == (Plus, Copy) {
      CommutationStep(s);
    } else {
      AnnihilationStep(s);
      PopKeeps(s);
    }
  }

  /** One iteration of `normalize` when there is an active pair and fuel left. */
  lemma NormalizedUnfold(s: Net, fuel: nat)
    requires |s.ativas| > 0 && fuel > 0
    ensures Normalized(s, fuel) == if Step(s).None? then None else Normalized(Step(s).value, fuel - 1)
  {
  }

  /** `normalize` stops with `Drained` exactly when no active pair is left, and never lowers the counter. */
  lemma {:induction false} NormalizedExit(s: Net, fuel: nat)
    requires Normalized(s, fuel).Some?
    ensures var (t, e) := Normalized(s, fuel).value;
      (e == Drained <==> |t.ativas| == 0) && t.nodeCount >= s.nodeCount
    decreases fuel
  {
    if |s.ativas| > 0 && fuel > 0 {
      NormalizedUnfold(s, fuel);
      var t, f1 := Step(s).value, fuel - 1;
      StepCounter(s);
      NormalizedExit(t, f1);
      assert Normalized(s, fuel) == Normalized(t, f1);
    } else {
      assert Normalized(s, fuel).value.0 == s;
    }
  }

  /** Whatever one iteration of `normalize` preserves, a whole run that does not panic preserves. */
  lemma {:induction false} NormalizedKeeps(inv: Net -> bool, s: Net, fuel: nat)
    requires Normalized(s, fuel).Some? && inv(s)
    requires forall u: Net {:trigger Step(u)} :: |u.ativas| > 0 && Step(u).Some? && inv(u) ==> inv(Step(u).value)
    ensures inv(Normalized(s, fuel).value.0)
    decreases fuel
  {
    if |s.ativas| > 0 && fuel > 0 {
      NormalizedUnfold(s, fuel);
      var t, f1 := Step(s).value, fuel - 1;
      assert inv(t);
      NormalizedKeeps(inv, t, f1);
    } else {
      assert Normalized(s, fuel).value.0 == s;
    }
  }

  /** A run of `normalize` that does not panic keeps the routing of wires into the two vectors. */
  lemma NormalizedKeepsRouted(s: Net, fuel: nat)
    requires Normalized(s, fuel).Some? && Routed(s)
    ensures Routed(Normalized(s, fuel).value.0)
  {
    forall u: Net | |u.ativas| > 0 && Step(u).Some? && Routed(u)
      ensures Routed(Step(u).value)
    {
      StepKeepsRouted(u);
    }
    NormalizedKeeps(Routed, s, fuel);
  }

  /** A run of `normalize` that does not panic keeps every wire on allocated nodes. */
  lemma NormalizedKeepsAllocated(s: Net, fuel: nat)
    requires Normalized(s, fuel).Some? && Allocated(s)
    ensures Allocated(Normalized(s, fuel).value.0)
  {
    forall u: Net | |u.ativas| > 0 && Step(u).Some? && Allocated(u)
      ensures Allocated(Step(u).value)
    {
      StepKeepsAllocated(u);
    }
    NormalizedKeeps(Allocated, s, fuel);
  }

  /** The `k`-th call of a run of `connect_ports` calls: what is left of the run is the rest of the list. */
  lemma ConnectAllStep(s: Net, ws: seq<Wire>, k: nat)
    requires k < |ws|
    ensures ConnectAll(s, ws[k..]) == ConnectAll(Connect(s, ws[k].0, ws[k].1), ws[k + 1..])
  {
    assert ws[k..][1..] == ws[k + 1..];
  }
}
