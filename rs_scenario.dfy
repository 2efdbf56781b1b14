/**
  The `main` function of the Rust draft (inets-rs/src/main.rs:164-185): a
  Zero node facing a Copy node whose auxiliary ports lead to two Erase
  nodes. It is stated on the values of module RsNet, then run on the
  class of module RsNetImpl.
*/
module RsNetScenario {
  import opened Options
  import opened RsNet
  import opened RsNetProofs
  import opened RsNetImpl

  /** Port `port` of the node numbered `id` and labelled `kind`. */
  function At(id: nat, kind: GLA, port: nat): Porta {
    Porta(Node(id, kind), port)
  }

  /** The four `add_node` calls of `main` (inets-rs/src/main.rs:165-169): the state and the four port vectors. */
  function MainNodes(): (Net, seq<seq<Porta>>) {
    var (s1, zero) := AddNode(New(), Zero);
    var (s2, copy) := AddNode(s1, Copy);
    var (s3, era1) := AddNode(s2, Erase);
    var (s4, era2) := AddNode(s3, Erase);
    (s4, [zero, copy, era1, era2])
  }

  /**
    The three `connect_ports` calls of `main` (inets-rs/src/main.rs:171-173):
    each `remove(0)` takes the next port of its vector.
  */
  function MainWires(vs: seq<seq<Porta>>): seq<Wire>
    requires |vs| == 4 && |vs[0]| >= 1 && |vs[1]| >= 3 && |vs[2]| >= 1 && |vs[3]| >= 1
  {
    [(vs[0][0], vs[1][0]), (vs[2][0], vs[1][1]), (vs[3][0], vs[1][2])]
  }

  /** Both ends of every wire, in order. */
  function Ends(ws: seq<Wire>): (ps: seq<Porta>)
    ensures |ps| == 2 * |ws|
    decreases |ws|
  {
    if ws == [] then [] else [ws[0].0, ws[0].1] + Ends(ws[1..])
  }

  /** The four port vectors `main` receives. */
  lemma MainNodesValue()
    ensures MainNodes() == (Net([], [], 4), [[At(0, Zero, 0)], [At(1, Copy, 0), At(1, Copy, 1), At(1, Copy, 2)],
                                             [At(2, Erase, 0)], [At(3, Erase, 0)]])
  {
    assert PortsOf(Node(1, Copy), 3) == [At(1, Copy, 0), At(1, Copy, 1), At(1, Copy, 2)];
    assert PortsOf(Node(0, Zero), 1) == [At(0, Zero, 0)];
    assert PortsOf(Node(2, Erase), 1) == [At(2, Erase, 0)];
    assert PortsOf(Node(3, Erase), 1) == [At(3, Erase, 0)];
  }

  lemma EndsOfThree(a: Wire, b: Wire, c: Wire)
    ensures Ends([a, b, c]) == [a.0, a.1, b.0, b.1, c.0, c.1]
  {
    assert [a, b, c][1..] == [b, c];
    assert [b, c][1..] == [c];
    assert [c][1..] == [];
    assert Ends([c]) == [c.0, c.1] + [];
  }

  /** The ends of main's three wires are the ports the wiring takes off the four vectors. */
  lemma EndsOfMainWires(vs: seq<seq<Porta>>)
    requires |vs| == 4 && |vs[0]| == 1 && |vs[1]| == 3 && |vs[2]| == 1 && |vs[3]| == 1
    ensures Ends(MainWires(vs)) == [vs[0][0], vs[1][0], vs[2][0], vs[1][1], vs[3][0], vs[1][2]]
    ensures var ps := Ends(MainWires(vs));
            (forall k, i :: 0 <= k < 4 && 0 <= i < |vs[k]| ==> vs[k][i] in ps) &&
            (forall j :: 0 <= j < |ps| ==> ps[j] in vs[0] || ps[j] in vs[1] || ps[j] in vs[2] || ps[j] in vs[3])
  {
    var ws := MainWires(vs);
    EndsOfThree(ws[0], ws[1], ws[2]);
    var ps := Ends(ws);
    forall k, i | 0 <= k < 4 && 0 <= i < |vs[k]|
      ensures vs[k][i] in ps
    {
      if k == 0 {
        assert vs[k][i] == ps[0];
      } else if k == 2 {
        assert vs[k][i] == ps[2];
      } else if k == 3 {
        assert vs[k][i] == ps[4];
      } else if i == 0 {
        assert vs[k][i] == ps[1];
      } else if i == 1 {
        assert vs[k][i] == ps[3];
      } else {
        assert vs[k][i] == ps[5];
      }
    }
    forall j | 0 <= j < |ps|
      ensures ps[j] in vs[0] || ps[j] in vs[1] || ps[j] in vs[2] || ps[j] in vs[3]
    {
      if j == 0 {
        assert ps[j] == vs[0][0];
      } else if j == 2 {
        assert ps[j] == vs[2][0];
      } else if j == 4 {
        assert ps[j] == vs[3][0];
      } else {
        assert ps[j] == vs[1][j / 2];
      }
    }
  }

  /** Six ports on different (node, port) places are pairwise different. */
  lemma MainEndsDistinct(ps: seq<Porta>)
    requires ps == [At(0, Zero, 0), At(1, Copy, 0), At(2, Erase, 0), At(1, Copy, 1), At(3, Erase, 0), At(1, Copy, 2)]
    ensures forall i, j :: 0 <= i < j < |ps| ==> ps[i] != ps[j]
  {
    forall i, j | 0 <= i < j < |ps|
      ensures ps[i] != ps[j]
    {
      var key := [(0, 0), (1, 0), (2, 0), (1, 1), (3, 0), (1, 2)];
      assert forall m :: 0 <= m < 6 ==> (ps[m].node.id, ps[m].port) == key[m];
      assert key[i] != key[j];
    }
  }

  /**
    Every port the four `add_node` calls return is wired exactly once (the
    `is_empty` checks of inets-rs/src/main.rs:177-180): each port of each
    vector is an end of a wire, each end is a port of some vector, and no
    port is the end of two wires.
  */
  lemma MainPortsUsedOnce()
    ensures var vs := MainNodes().1;
            |vs| == 4 && |vs[0]| == 1 && |vs[1]| == 3 && |vs[2]| == 1 && |vs[3]| == 1 &&
            var ps := Ends(MainWires(vs));
            (forall k, i :: 0 <= k < 4 && 0 <= i < |vs[k]| ==> vs[k][i] in ps) &&
            (forall j :: 0 <= j < |ps| ==> ps[j] in vs[0] || ps[j] in vs[1] || ps[j] in vs[2] || ps[j] in vs[3]) &&
            (forall i, j :: 0 <= i < j < |ps| ==> ps[i] != ps[j])
  {
    MainNodesValue();
    var vs := MainNodes().1;
    EndsOfMainWires(vs);
    MainEndsDistinct(Ends(MainWires(vs)));
  }

  /** The three `connect_ports` calls of `main`: one wire between principal ports, two ordinary ones. */
  lemma ConnectMainWires(s: Net, vs: seq<seq<Porta>>)
    requires |vs| == 4 && |vs[0]| >= 1 && |vs[1]| >= 3 && |vs[2]| >= 1 && |vs[3]| >= 1
    requires vs[0][0].port == 0 && vs[1][0].port == 0 && vs[1][1].port != 0 && vs[1][2].port != 0
    ensures ConnectAll(s, MainWires(vs))
            == s.(arestas := s.arestas + [(vs[2][0], vs[1][1]), (vs[3][0], vs[1][2])],
                  ativas := s.ativas + [(vs[0][0], vs[1][0])])
  {
    var ws := MainWires(vs);
    assert ws[0..] == ws;
    ConnectAllStep(s, ws, 0);
    var s1 := Connect(s, ws[0].0, ws[0].1);
    ConnectAllStep(s1, ws, 1);
    var s2 := Connect(s1, ws[1].0, ws[1].1);
    ConnectAllStep(s2, ws, 2);
    assert ws[3..] == [];
    assert s.arestas + [ws[1]] + [ws[2]] == s.arestas + [ws[1], ws[2]];
  }

  /** The net `main` hands to `normalize`. */
  function MainNet(): Net {
    MainNodesValue();
    var (s, vs) := MainNodes();
    ConnectAll(s, MainWires(vs))
  }

  /** MainNet spelled out: the two Erase nodes hang on the Copy node's auxiliary ports; the Zero/Copy pair is the one active pair. */
  function MainAt0(): Net {
    Net([(At(2, Erase, 0), At(1, Copy, 1)), (At(3, Erase, 0), At(1, Copy, 2))], [(At(0, Zero, 0), At(1, Copy, 0))], 4)
  }

  /** The three wires of `main` land as MainAt0 shows: one active pair and two ordinary wires. */
  lemma MainNetValue()
    ensures MainNet() == MainAt0()
  {
    MainNodesValue();
    ConnectMainWires(MainNodes().0, MainNodes().1);
  }

  /** The three `connect_ports` calls, one after the other, on the state and vectors the `add_node` calls return, build MainNet. */
  lemma MainWiring(s: Net, vs: seq<seq<Porta>>)
    requires (s, vs) == MainNodes()
    ensures |vs| == 4 && |vs[0]| == 1 && |vs[1]| == 3 && |vs[2]| == 1 && |vs[3]| == 1
    ensures Connect(Connect(Connect(s, vs[0][0], vs[1][0]), vs[2][0], vs[1][1]), vs[3][0], vs[1][2]) == MainNet()
  {
    MainNodesValue();
    MainNetValue();
  }

  /** After the first iteration: the Copy node was duplicated through the Zero node; two Erase/Zero pairs are active. */
  function MainAt1(): Net {
    Net([], [(At(2, Erase, 0), At(4, Zero, 0)), (At(3, Erase, 0), At(5, Zero, 0))], 6)
  }

  /** A node without auxiliary ports: `get_auxiliary_ports` returns the port alone and takes no wire. */
  lemma AuxPortsNullary(s: Net, p: Porta)
    requires Arity(p.node.kind) == 0
    ensures AuxPorts(s, p) == Some((s, [p]))
  {
    assert AuxLoop(s, p.node, 0) == Some((s, []));
    assert [p] + [] == [p];
  }

  /** `get_connected` on a port of the first wire takes out that wire. */
  lemma GetConnectedFirst(s: Net, p: Porta)
    requires |s.arestas| > 0 && Touches(s.arestas[0], p)
    ensures GetConnected(s, p) == Some((s.(arestas := SwapRemove(s.arestas, 0)), Other(s.arestas[0], p)))
  {
    assert IndexOfTouching(s.arestas, p) == 0;
  }

  /** A binary node whose two auxiliary wires are all of `arestas`, in port order. */
  lemma BinaryPorts(s: Net, node: Node, w1: Wire, w2: Wire)
    requires Arity(node.kind) == 2 && s.arestas == [w1, w2]
    requires Touches(w1, Porta(node, 1)) && Touches(w2, Porta(node, 2))
    ensures AuxPorts(s, Porta(node, 0))
            == Some((s.(arestas := []), [Porta(node, 0), Other(w1, Porta(node, 1)), Other(w2, Porta(node, 2))]))
  {
    GetConnectedFirst(s, Porta(node, 1));
    assert SwapRemove([w1, w2], 0) == [w2];
    var s1 := s.(arestas := [w2]);
    var o1, o2 := Other(w1, Porta(node, 1)), Other(w2, Porta(node, 2));
    assert [] + [o1] == [o1];
    assert AuxLoop(s, node, 1) == Some((s1, [o1]));
    GetConnectedFirst(s1, Porta(node, 2));
    assert SwapRemove([w2], 0) == [];
    assert [o1] + [o2] == [o1, o2];
    assert [Porta(node, 0)] + [o1, o2] == [Porta(node, 0), o1, o2];
  }

  /** Duplication by a nullary agent into two principal ports: two fresh nodes, two new active pairs. */
  lemma DuplicateIntoPrincipals(s: Net, kind: GLA, aux: seq<Porta>)
    requires Arity(kind) == 0 && |aux| >= 2 && aux[0].port == 0 && aux[1].port == 0
    ensures Duplicate(s, kind, aux)
            == Some(s.(nodeCount := s.nodeCount + 2,
                       ativas := s.ativas + [(aux[0], Porta(Node(s.nodeCount, kind), 0)),
                                             (aux[1], Porta(Node(s.nodeCount + 1, kind), 0))]))
  {
    assert PortsOf(Node(s.nodeCount, kind), 1)[0] == Porta(Node(s.nodeCount, kind), 0);
    assert PortsOf(Node(s.nodeCount + 1, kind), 1)[0] == Porta(Node(s.nodeCount + 1, kind), 0);
    var w1, w2 := (aux[0], Porta(Node(s.nodeCount, kind), 0)), (aux[1], Porta(Node(s.nodeCount + 1, kind), 0));
    assert s.ativas + [w1] + [w2] == s.ativas + [w1, w2];
  }

  /** The first iteration of `normalize` in `main`: the Zero/Copy pair duplicates. */
  lemma MainStep1()
    ensures Step(MainAt0()) == Some(MainAt1())
  {
    var s := MainAt0();
    var s0 := s.(ativas := []);
    assert s.ativas[..0] == [];
    AuxPortsNullary(s0, At(0, Zero, 0));
    BinaryPorts(s0, Node(1, Copy), s.arestas[0], s.arestas[1]);
    var e := Net([], [], 4);
    DuplicateIntoPrincipals(e, Zero, [At(2, Erase, 0), At(3, Erase, 0)]);
    var a4, a5 := (At(2, Erase, 0), At(4, Zero, 0)), (At(3, Erase, 0), At(5, Zero, 0));
    assert [] + [a4, a5] == [a4, a5];
  }

  /** Popping an Erase/Zero pair removes just that pair. */
  lemma EraseZeroStep(s: Net, rest: seq<Wire>, e: Porta, z: Porta)
    requires s.ativas == rest + [(e, z)]
    requires e.node.kind == Erase && z.node.kind == Zero
    ensures Step(s) == Some(s.(ativas := rest))
  {
    var s0 := s.(ativas := rest);
    assert s.ativas[..|s.ativas| - 1] == rest;
    AuxPortsNullary(s0, e);
    AuxPortsNullary(s0, z);
  }

  /** The net of `main` drains in three iterations and ends with no wire and six nodes allocated. */
  lemma MainDrains(fuel: nat)
    requires fuel >= 3
    ensures Normalized(MainNet(), fuel) == Some((Net([], [], 6), Drained))
  {
    var e2, e3, z4, z5 := At(2, Erase, 0), At(3, Erase, 0), At(4, Zero, 0), At(5, Zero, 0);
    MainNetValue();
    MainStep1();
    NormalizedUnfold(MainAt0(), fuel);
    var f1 := fuel - 1;
    var s1 := MainAt1();
    assert s1.ativas == [(e2, z4)] + [(e3, z5)];
    EraseZeroStep(s1, [(e2, z4)], e3, z5);
    NormalizedUnfold(s1, f1);
    var f2 := f1 - 1;
    var s2 := Net([], [(e2, z4)], 6);
    assert s2.ativas == [] + [(e2, z4)];
    EraseZeroStep(s2, [], e2, z4);
    NormalizedUnfold(s2, f2);
    var f3 := f2 - 1;
    assert Normalized(Net([], [], 6), f3) == Some((Net([], [], 6), Drained));
  }

  /**
    `main` on the class: the four nodes are built, each port vector is
    consumed by `remove(0)` (here its first element is taken and the rest
    kept), and `normalize` leaves both vectors empty, which is what the
    closing `println!` shows.
  */
  method RunMain(fuel: nat) returns (arestas: seq<Wire>, ativas: seq<Wire>)
    requires fuel >= 3
    ensures arestas == [] && ativas == []
  {
    var inet := new InteractionNet();
    var zero := inet.AddNode(Zero);
    var copy := inet.AddNode(Copy);
    var era1 := inet.AddNode(Erase);
    var era2 := inet.AddNode(Erase);
    ghost var built, vs := inet.Snapshot(), [zero, copy, era1, era2];
    MainWiring(built, vs);
    inet.ConnectPorts(zero[0], copy[0]);
    zero, copy := zero[1..], copy[1..];
    inet.ConnectPorts(era1[0], copy[0]);
    era1, copy := era1[1..], copy[1..];
    inet.ConnectPorts(era2[0], copy[0]);
    era2, copy := era2[1..], copy[1..];
    assert zero == [] && copy == [] && era1 == [] && era2 == [];
    MainDrains(fuel);
    var exit := inet.Normalize(fuel);
    arestas, ativas := inet.arestas, inet.ativas;
  }
}
