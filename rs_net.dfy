/**
  The Rust draft of the interaction-net engine (inets-rs/src/main.rs), as
  pure functions on a value `Net`. Wires are kept in two vectors: ordinary
  wires in `arestas`, wires between two principal ports (active pairs) in
  `portas_ativas`. A Rust panic (a missing wire in `get_connected`, a
  `todo!()` arm, `Vec::remove` on an empty vector) is the result `None`.
*/
module RsNet {
  import opened Options

  /** The four agents of the GLA system (inets-rs/src/main.rs:102-108). */
  datatype GLA = Zero | Erase | Plus | Copy

  /** The number of auxiliary ports of an agent (inets-rs/src/main.rs:112-119). */
  function Arity(g: GLA): (n: nat)
    ensures n == 0 <==> g == Zero || g == Erase
    ensures n == 2 <==> g == Plus || g == Copy
  {
    match g
    case Zero => 0
    case Erase => 0
    case Plus => 2
    case Copy => 2
  }

  /** A node: its id (a `u8` in the source) and its agent. */
  datatype Node = Node(id: nat, kind: GLA)

  /** A port of a node; 0 is the principal port. */
  datatype Porta = Porta(node: Node, port: nat)

  /** A wire, as the pair pushed by `connect_ports`. */
  type Wire = (Porta, Porta)

  /** The fields of `InteractionNet` (inets-rs/src/main.rs:30-34). */
  datatype Net = Net(arestas: seq<Wire>, ativas: seq<Wire>, nodeCount: nat)

  /** How a fuel-bounded `normalize` ends. */
  datatype Exit = Drained | OutOfFuel

  /** `InteractionNet::new` (inets-rs/src/main.rs:38-43). */
  function New(): Net {
    Net([], [], 0)
  }

  /** The first `n` ports of `node`, in order: what the loop of `add_node` pushes. */
  function PortsOf(node: Node, n: nat): (ps: seq<Porta>)
    ensures |ps| == n
    ensures forall i :: 0 <= i < n ==> ps[i] == Porta(node, i)
  {
    if n == 0 then [] else PortsOf(node, n - 1) + [Porta(node, n - 1)]
  }

  /** `add_node` (inets-rs/src/main.rs:45-55): the new state and the port vector. */
  function AddNode(s: Net, kind: GLA): (Net, seq<Porta>) {
    (s.(nodeCount := s.nodeCount + 1), PortsOf(Node(s.nodeCount, kind), Arity(kind) + 1))
  }

  /** `connect_ports` (inets-rs/src/main.rs:57-63). */
  function Connect(s: Net, left: Porta, right: Porta): Net {
    if left.port == 0 && right.port == 0 then s.(ativas := s.ativas + [(left, right)])
    else s.(arestas := s.arestas + [(left, right)])
  }

  /** A sequence of `connect_ports` calls, in order. */
  function ConnectAll(s: Net, ws: seq<Wire>): Net
    decreases |ws|
  {
    if ws == [] then s else ConnectAll(Connect(s, ws[0].0, ws[0].1), ws[1..])
  }

  /** Whether `p` is one end of `w`. */
  predicate Touches(w: Wire, p: Porta) {
    w.0 == p || w.1 == p
  }

  /** The end of `w` that `get_connected` returns: the right end when the left one is `p`. */
  function Other(w: Wire, p: Porta): Porta {
    if w.0 == p then w.1 else w.0
  }

  /**
    The index at which the scan of `get_connected` stops: the first wire
    touching `p`, or `|ws|` when there is none.
  */
  function IndexOfTouching(ws: seq<Wire>, p: Porta): (i: nat)
    ensures i <= |ws|
  {
    if ws == [] then 0
    else if Touches(ws[0], p) then 0
    else 1 + IndexOfTouching(ws[1..], p)
  }

  /** `Vec::swap_remove(i)`: the last element is written over element `i`, then the vector is shortened by one. */
  function SwapRemove(ws: seq<Wire>, i: nat): seq<Wire>
    requires i < |ws|
  {
    ws[i := ws[|ws| - 1]][..|ws| - 1]
  }

  /** `get_connected` (inets-rs/src/main.rs:65-80); `None` where it panics. */
  function GetConnected(s: Net, p: Porta): Option<(Net, Porta)> {
    var i := IndexOfTouching(s.arestas, p);
    if i == |s.arestas| then None
    else Some((s.(arestas := SwapRemove(s.arestas, i)), Other(s.arestas[i], p)))
  }

  /**
    The first `k` iterations of the loop of `get_auxiliary_ports`: the
    peers of ports 1..k of `node`, taken out of the net one at a time.
  */
  function AuxLoop(s: Net, node: Node, k: nat): Option<(Net, seq<Porta>)> {
    if k == 0 then Some((s, []))
    else
      var r := AuxLoop(s, node, k - 1);
      if r.None? then None
      else
        var g := GetConnected(r.value.0, Porta(node, k));
        if g.None? then None else Some((g.value.0, r.value.1 + [g.value.1]))
  }

  /** `get_auxiliary_ports` (inets-rs/src/main.rs:82-90): the port itself, then the peers of its node's auxiliary ports. */
  function AuxPorts(s: Net, porta: Porta): Option<(Net, seq<Porta>)> {
    var r := AuxLoop(s, porta.node, Arity(porta.node.kind));
    if r.None? then None else Some((r.value.0, [porta] + r.value.1))
  }

  /** The label pairs `rewrite` handles; the others end in `todo!()` (inets-rs/src/main.rs:149-159). */
  predicate Supported(l: GLA, r: GLA) {
    (l, r) in {(Zero, Erase), (Erase, Zero), (Zero, Copy), (Erase, Plus), (Plus, Copy)}
  }

  /**
    The duplication arm (inets-rs/src/main.rs:126-132): two nodes labelled
    `kind` (the nullary node's label) take the two peers `aux` of the
    binary node's auxiliary ports.
  */
  function Duplicate(s: Net, kind: GLA, aux: seq<Porta>): Option<Net> {
    var (s1, left1) := AddNode(s, kind);
    var (s2, left2) := AddNode(s1, kind);
    if |aux| < 2 then None
    else Some(Connect(Connect(s2, aux[0], left1[0]), aux[1], left2[0]))
  }

  /**
    The eight wires of the commutation arm: the fresh Plus nodes take the
    Copy node's peers `copyAux`, the fresh Copy nodes the Plus node's peers
    `plusAux`, and the four fresh nodes are wired in a diamond.
  */
  function CommuteWires(pls1: seq<Porta>, pls2: seq<Porta>, cpy1: seq<Porta>, cpy2: seq<Porta>,
                        plusAux: seq<Porta>, copyAux: seq<Porta>): seq<Wire>
    requires |pls1| == |pls2| == |cpy1| == |cpy2| == 3 && |plusAux| >= 2 && |copyAux| >= 2
  {
    [ (pls1[0], copyAux[0]), (pls2[0], copyAux[1]), (cpy1[0], plusAux[0]), (cpy2[0], plusAux[1]),
      (pls1[1], cpy1[1]), (pls1[2], cpy2[1]), (pls2[1], cpy1[2]), (pls2[2], cpy2[2]) ]
  }

  /** The commutation arm (inets-rs/src/main.rs:133-148). */
  function Commute(s: Net, plusAux: seq<Porta>, copyAux: seq<Porta>): Option<Net> {
    var (s1, pls1) := AddNode(s, Plus);
    var (s2, pls2) := AddNode(s1, Plus);
    var (s3, cpy1) := AddNode(s2, Copy);
    var (s4, cpy2) := AddNode(s3, Copy);
    if |copyAux| < 2 || |plusAux| < 2 then None
    else Some(ConnectAll(s4, CommuteWires(pls1, pls2, cpy1, cpy2, plusAux, copyAux)))
  }

  /**
    `<GLA as Label>::rewrite` (inets-rs/src/main.rs:121-161) on the two
    vectors `get_auxiliary_ports` built: element 0 is the principal port,
    the rest its node's auxiliary peers.
  */
  function Rewrite(s: Net, left: seq<Porta>, right: seq<Porta>): Option<Net> {
    if |left| == 0 || |right| == 0 then None
    else
      var mainLeft, mainRight := left[0], right[0];
      match (mainLeft.node.kind, mainRight.node.kind)
      case (Zero, Erase) => Some(s)
      case (Erase, Zero) => Some(s)
      case (Zero, Copy) => Duplicate(s, mainLeft.node.kind, right[1..])
      case (Erase, Plus) => Duplicate(s, mainLeft.node.kind, right[1..])
      case (Plus, Copy) => Commute(s, left[1..], right[1..])
      case _ => None
  }

  /** One iteration of `normalize` (inets-rs/src/main.rs:93-97): the last active pair is popped and rewritten. */
  function Step(s: Net): Option<Net>
    requires |s.ativas| > 0
  {
    var pair := s.ativas[|s.ativas| - 1];
    var s0 := s.(ativas := s.ativas[..|s.ativas| - 1]);
    var a := AuxPorts(s0, pair.0);
    if a.None? then None
    else
      var b := AuxPorts(a.value.0, pair.1);
      if b.None? then None else Rewrite(b.value.0, a.value.1, b.value.1)
  }

  /** `normalize` (inets-rs/src/main.rs:92-98), with at most `fuel` iterations. */
  function Normalized(s: Net, fuel: nat): Option<(Net, Exit)>
    decreases fuel
  {
    if |s.ativas| == 0 then Some((s, Drained))
    else if fuel == 0 then Some((s, OutOfFuel))
    else
      var t := Step(s);
      if t.None? then None else Normalized(t.value, fuel - 1)
  }

  /** The number of wires in both vectors. */
  function Total(s: Net): nat {
    |s.arestas| + |s.ativas|
  }
}
