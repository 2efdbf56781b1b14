/**
  The `InteractionNet` struct of the Rust draft as a class whose methods
  update its two vectors and its counter in place, each proved to have
  the effect the pure model in `RsNet` gives it. A panic of the source is
  a precondition here.
*/
module RsNetImpl {
  import opened Options
  import opened RsNet
  import opened RsNetProofs

  class InteractionNet {
    var arestas: seq<Wire>
    var ativas: seq<Wire>
    var nodeCount: nat

    /** The fields as a value of the pure model. */
    function Snapshot(): Net
      reads this
    {
      Net(arestas, ativas, nodeCount)
    }

    /** `InteractionNet::new` (inets-rs/src/main.rs:38-43). */
    constructor ()
      ensures Snapshot() == New()
    {
      arestas := [];
      ativas := [];
      nodeCount := 0;
    }

    /** `add_node` (inets-rs/src/main.rs:45-55). */
    method AddNode(kind: GLA) returns (ret: seq<Porta>)
      modifies this
      ensures (Snapshot(), ret) == RsNet.AddNode(old(Snapshot()), kind)
    {
      var newId := nodeCount;
      nodeCount := nodeCount + 1;
      var arity := Arity(kind);
      ret := [];
      var node := Node(newId, kind);
      for port := 0 to arity + 1
        invariant ret == PortsOf(node, port)
      {
        ret := ret + [Porta(node, port)];
      }
    }

    /** `connect_ports` (inets-rs/src/main.rs:57-63). */
    method ConnectPorts(left: Porta, right: Porta)
      modifies this
      ensures Snapshot() == Connect(old(Snapshot()), left, right)
    {
      if left.port == 0 && right.port == 0 {
        ativas := ativas + [(left, right)];
      } else {
        arestas := arestas + [(left, right)];
      }
    }

    /** `get_connected` (inets-rs/src/main.rs:65-80): the linear scan and the `swap_remove`. */
    method GetConnected(port: Porta) returns (peer: Porta)
      requires RsNet.GetConnected(Snapshot(), port).Some?
      modifies this
      ensures (Snapshot(), peer) == RsNet.GetConnected(old(Snapshot()), port).value
    {
      IndexOfTouchingSpec(arestas, port);
      var i := 0;
      while i < |arestas|
        invariant i <= |arestas|
        invariant Snapshot() == old(Snapshot())
        invariant forall j :: 0 <= j < i ==> !Touches(arestas[j], port)
      {
        var pair := arestas[i];
        if pair.0 == port {
          arestas := SwapRemove(arestas, i);
          return pair.1;
        } else if pair.1 == port {
          arestas := SwapRemove(arestas, i);
          return pair.0;
        }
        i := i + 1;
      }
      assert false;
    }

    /** `get_auxiliary_ports` (inets-rs/src/main.rs:82-90). */
    method GetAuxiliaryPorts(porta: Porta) returns (ports: seq<Porta>)
      requires AuxPorts(Snapshot(), porta).Some?
      modifies this
      ensures (Snapshot(), ports) == AuxPorts(old(Snapshot()), porta).value
    {
      var node := porta.node;
      ports := [porta];
      assert ports[1..] == [];
      for i := 0 to Arity(node.kind)
        invariant |ports| == i + 1 && ports[0] == porta
        invariant AuxLoop(old(Snapshot()), node, i) == Some((Snapshot(), ports[1..]))
      {
        AuxLoopPrefix(old(Snapshot()), node, i + 1, Arity(node.kind));
        var port := GetConnected(Porta(node, i + 1));
        assert (ports + [port])[1..] == ports[1..] + [port];
        ports := ports + [port];
      }
      assert ports == [porta] + ports[1..];
    }

    /**
      `<GLA as Label>::rewrite` (inets-rs/src/main.rs:121-161). Each
      `remove(0)` of the source takes the next element of a vector; here
      the vectors are indexed instead.
    */
    method Rewrite(left: seq<Porta>, right: seq<Porta>)
      requires RsNet.Rewrite(Snapshot(), left, right).Some?
      modifies this
      ensures Snapshot() == RsNet.Rewrite(old(Snapshot()), left, right).value
    {
      var mainLeft, mainRight := left[0], right[0];
      match (mainLeft.node.kind, mainRight.node.kind)
      case (Zero, Erase) =>
      case (Erase, Zero) =>
      case (Zero, Copy) =>
        Duplicate(mainLeft.node.kind, right[1..]);
      case (Erase, Plus) =>
        Duplicate(mainLeft.node.kind, right[1..]);
      case (Plus, Copy) =>
        Commute(left[1..], right[1..]);
      case _ =>
        assert false;
    }

    /** The duplication arm (inets-rs/src/main.rs:126-132). */
    method Duplicate(kind: GLA, aux: seq<Porta>)
      requires |aux| >= 2
      modifies this
      ensures Some(Snapshot()) == RsNet.Duplicate(old(Snapshot()), kind, aux)
    {
      var left1 := AddNode(kind);
      var left2 := AddNode(kind);
      ConnectPorts(aux[0], left1[0]);
      ConnectPorts(aux[1], left2[0]);
    }

    /** The commutation arm (inets-rs/src/main.rs:133-148). */
    method Commute(plusAux: seq<Porta>, copyAux: seq<Porta>)
      requires |plusAux| >= 2 && |copyAux| >= 2
      modifies this
      ensures Some(Snapshot()) == RsNet.Commute(old(Snapshot()), plusAux, copyAux)
    {
      var pls1 := AddNode(Plus);
      var pls2 := AddNode(Plus);
      var cpy1 := AddNode(Copy);
      var cpy2 := AddNode(Copy);
      ghost var ws := CommuteWires(pls1, pls2, cpy1, cpy2, plusAux, copyAux);
      ghost var t := Snapshot();
      assert ws[0..] == ws;
      ConnectPorts(pls1[0], copyAux[0]);
      ConnectAllStep(t, ws, 0);
      t := Snapshot();
      ConnectPorts(pls2[0], copyAux[1]);
      ConnectAllStep(t, ws, 1);
      t := Snapshot();
      ConnectPorts(cpy1[0], plusAux[0]);
      ConnectAllStep(t, ws, 2);
      t := Snapshot();
      ConnectPorts(cpy2[0], plusAux[1]);
      ConnectAllStep(t, ws, 3);
      t := Snapshot();
      ConnectPorts(pls1[1], cpy1[1]);
      ConnectAllStep(t, ws, 4);
      t := Snapshot();
      ConnectPorts(pls1[2], cpy2[1]);
      ConnectAllStep(t, ws, 5);
      t := Snapshot();
      ConnectPorts(pls2[1], cpy1[2]);
      ConnectAllStep(t, ws, 6);
      t := Snapshot();
      ConnectPorts(pls2[2], cpy2[2]);
      ConnectAllStep(t, ws, 7);
      t := Snapshot();
      assert ws[8..] == [];
    }

    /** `normalize` (inets-rs/src/main.rs:92-98), with at most `fuel` iterations. */
    method Normalize(fuel: nat) returns (exit: Exit)
      requires Normalized(Snapshot(), fuel).Some?
      modifies this
      ensures Normalized(old(Snapshot()), fuel) == Some((Snapshot(), exit))
      ensures exit == Drained <==> |ativas| == 0
    {
      var f := fuel;
      while |ativas| > 0 && f > 0
        invariant Normalized(Snapshot(), f) == Normalized(old(Snapshot()), fuel)
        decreases f
      {
        ghost var s := Snapshot();
        var pair := ativas[|ativas| - 1];
        ativas := ativas[..|ativas| - 1];
        var leftPorts := GetAuxiliaryPorts(pair.0);
        var rightPorts := GetAuxiliaryPorts(pair.1);
        Rewrite(leftPorts, rightPorts);
        assert Some(Snapshot()) == Step(s);
        f := f - 1;
      }
      exit := if |ativas| == 0 then Drained else OutOfFuel;
      NormalizedExit(old(Snapshot()), fuel);
    }
  }
}
