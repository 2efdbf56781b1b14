/**
  First draft of the engine (inet.py), as values.

  The state of an `InteractionNet` is its wiring dict `arestas`, its node
  counter and its list of "maybe active" ports.  Every operation of the
  draft is written here as a function from the state before to the state
  after; a Python exception is returned beside the state it leaves behind,
  because the effects performed before the `raise` stay in place.  The
  classes in module PyNetImpl are proved to compute exactly these functions.
*/
module PyNet {
  import opened Options

  /** Node kinds (inet.py:5-10). */
  datatype Label = Plus | Copy | Erase | Zero | Root

  /** A node is its id together with its label (inet.py:14-17). */
  datatype Node = Node(nodeId: int, kind: Label)

  /** A port of a node (inet.py:19-22). */
  datatype Porta = Porta(node: Node, port: int)

  /** The exceptions the engine code can raise. */
  datatype PyError =
    | KeyError(key: Porta)      // dict lookup or `del` of a missing key
    | ValueError(item: Porta)   // `list.remove` of a missing element

  /** The three fields of `InteractionNet` (inet.py:43-46). */
  datatype State = State(arestas: map<Porta, Porta>, nodeCount: nat, talvez: seq<Porta>)

  /** The state a statement sequence reaches, and the exception it raised, if any. */
  datatype Run = Run(state: State, raised: Option<PyError>)

  /** How a bounded run of `normalize` ends. */
  datatype Exit = Drained | Raised(error: PyError) | OutOfFuel

  /**
    Which label the mirrored duplication branch (inet.py:75-86) gives its
    fresh nodes: the binary node's label, as the code is written, or the
    nullary node's label, as the other duplication branch does.
  */
  datatype MirrorRule = AsWritten | Intended

  /** A freshly constructed net (inet.py:43-46). */
  const Initial: State := State(map[], 0, [])

  /** Every wired port's peer is wired back to it. */
  ghost predicate Symmetric(m: map<Porta, Porta>) {
    forall p :: p in m ==> m[p] in m && m[m[p]] == p
  }

  /** Every port the dict mentions, as key or value, belongs to a node `add_node` already handed out. */
  ghost predicate Allocated(m: map<Porta, Porta>, count: int) {
    forall p :: p in m ==> p.node.nodeId < count && m[p].node.nodeId < count
  }

  /** The elements of `ks` are pairwise different. */
  ghost predicate Distinct(ks: seq<Porta>) {
    forall i, j :: 0 <= i < j < |ks| ==> ks[i] != ks[j]
  }

  /**
    The two writes `d[k] = v; d[v] = k`: the body of `ArestaMap.__setitem__`
    (inet.py:29-33) and of `connect_ports` (inet.py:150-151).
  */
  function Mirrored(m: map<Porta, Porta>, k: Porta, v: Porta): map<Porta, Porta> {
    m[k := v][v := k]
  }

  /**
    `ArestaMap.__delitem__` (inet.py:35-38): look up the value, delete the
    key, then delete the value.  A missing key or a missing value raises
    `KeyError`; the first deletion stays done in the second case.
  */
  function Unmirror(m: map<Porta, Porta>, k: Porta): (r: (map<Porta, Porta>, Option<PyError>))
    ensures r.1 == None <==> (k in m && m[k] != k && m[k] in m)
    ensures r.1 == None ==> r.0.Keys == m.Keys - {k, m[k]}
    ensures k !in m ==> r == (m, Some(KeyError(k)))
    ensures r.0.Keys <= m.Keys && forall p :: p in r.0 ==> r.0[p] == m[p]
  {
    if k !in m then (m, Some(KeyError(k)))
    else
      var v := m[k];
      var m1 := m - {k};
      if v !in m1 then (m1, Some(KeyError(v))) else (m1 - {v}, None)
  }

  /**
    `add_node` (inet.py:142-145) returns `Node(node_count, label)` and adds
    one to the counter; the rules below call it two or four times in a row,
    which hands out the next two or four ids.
  */
  function AddNode(s: State, kind: Label): (State, Node) {
    (s.(nodeCount := s.nodeCount + 1), Node(s.nodeCount, kind))
  }

  /** The effect of `connect_ports` (inet.py:150-153) on the state. */
  function Connect(s: State, left: Porta, right: Porta): State {
    s.(arestas := Mirrored(s.arestas, left, right), talvez := s.talvez + [left, right])
  }

  /** `del self.arestas[k]` on the plain dict. */
  function Delete(s: State, k: Porta): Run {
    if k !in s.arestas then Run(s, Some(KeyError(k)))
    else Run(s.(arestas := s.arestas - {k}), None)
  }

  /** A sequence of `del self.arestas[k]` statements, stopping at the first `KeyError`. */
  function DeleteAll(s: State, ks: seq<Porta>): (r: Run)
    ensures r.state.nodeCount == s.nodeCount && r.state.talvez == s.talvez
    ensures r.state.arestas.Keys <= s.arestas.Keys
    ensures forall p :: p in r.state.arestas ==> r.state.arestas[p] == s.arestas[p]
    decreases |ks|
  {
    if ks == [] then Run(s, None)
    else
      var first := Delete(s, ks[0]);
      if first.raised.Some? then first
      else DeleteAll(first.state, ks[1..])
  }

  /** The three ports of a binary node. */
  function Consumed(n: Node): seq<Porta> {
    [Porta(n, 0), Porta(n, 1), Porta(n, 2)]
  }

  /**
    The duplication rule (inet.py:62-73, and with the nodes swapped
    inet.py:75-86): two fresh nodes labelled `freshKind` are wired at port 0 to
    the peers of the binary node's ports 1 and 2, then the consumed ports
    are deleted from the dict.
  */
  function Duplicate(s: State, nullary: Node, binary: Node, freshKind: Label): Run {
    var n1, n2 := Node(s.nodeCount, freshKind), Node(s.nodeCount + 1, freshKind);
    var s2 := s.(nodeCount := s.nodeCount + 2);
    var p1, p2 := Porta(binary, 1), Porta(binary, 2);
    if p1 !in s2.arestas then Run(s2, Some(KeyError(p1)))
    else if p2 !in s2.arestas then Run(s2, Some(KeyError(p2)))
    else
      var conn1, conn2 := s2.arestas[p1], s2.arestas[p2];
      var s3 := Connect(Connect(s2, Porta(n1, 0), conn1), Porta(n2, 0), conn2);
      DeleteAll(s3, [Porta(nullary, 0)] + Consumed(binary))
  }

  /** A sequence of `connect_ports` calls, in order. */
  function ConnectAll(s: State, ws: seq<(Porta, Porta)>): State
    decreases |ws|
  {
    if ws == [] then s else ConnectAll(Connect(s, ws[0].0, ws[0].1), ws[1..])
  }

  /**
    The eight wires of the commutation rule, with the counter at `count`
    before the four `add_node` calls: the fresh Plus nodes `count` and
    `count + 1` take the peers `c1`, `c2` of the Copy node's auxiliary
    ports, the fresh Copy nodes `count + 2` and `count + 3` the peers `c3`,
    `c4` of the Plus node's, and the four fresh nodes are wired in a diamond.
  */
  function DiamondWires(count: int, c1: Porta, c2: Porta, c3: Porta, c4: Porta): seq<(Porta, Porta)> {
    var pls1, pls2 := Node(count, Plus), Node(count + 1, Plus);
    var cpy1, cpy2 := Node(count + 2, Copy), Node(count + 3, Copy);
    [ (Porta(pls1, 0), c1), (Porta(pls2, 0), c2), (Porta(cpy1, 0), c3), (Porta(cpy2, 0), c4),
      (Porta(pls1, 1), Porta(cpy1, 1)), (Porta(pls1, 2), Porta(cpy2, 1)),
      (Porta(pls2, 1), Porta(cpy1, 2)), (Porta(pls2, 2), Porta(cpy2, 2)) ]
  }

  /**
    The commutation rule (inet.py:88-113 and inet.py:115-140): four
    `add_node` calls, the four lookups of the auxiliary peers (Copy node
    first), the eight `connect_ports` calls of DiamondWires, and the
    deletion of the `doomed` ports in order.
  */
  function Commute(s: State, plus: Node, copy: Node, doomed: seq<Porta>): Run {
    var s4 := s.(nodeCount := s.nodeCount + 4);
    var m := s4.arestas;
    if Porta(copy, 1) !in m then Run(s4, Some(KeyError(Porta(copy, 1))))
    else if Porta(copy, 2) !in m then Run(s4, Some(KeyError(Porta(copy, 2))))
    else if Porta(plus, 1) !in m then Run(s4, Some(KeyError(Porta(plus, 1))))
    else if Porta(plus, 2) !in m then Run(s4, Some(KeyError(Porta(plus, 2))))
    else
      var ws := DiamondWires(s.nodeCount, m[Porta(copy, 1)], m[Porta(copy, 2)], m[Porta(plus, 1)], m[Porta(plus, 2)]);
      DeleteAll(ConnectAll(s4, ws), doomed)
  }

  /** `apply_rewrite` (inet.py:57-140): dispatch on the two labels; a pair with no `case` arm does nothing. */
  function Rewrite(s: State, left: Node, right: Node, rule: MirrorRule): Run {
    match (left.kind, right.kind)
    case (Zero, Erase) | (Erase, Zero) =>
      DeleteAll(s, [Porta(left, 0), Porta(right, 0)])
    case (Zero, Copy) | (Erase, Copy) | (Erase, Plus) | (Zero, Plus) =>
      Duplicate(s, left, right, left.kind)
    case (Copy, Zero) | (Copy, Erase) | (Plus, Erase) | (Plus, Zero) =>
      Duplicate(s, right, left, if rule == AsWritten then left.kind else right.kind)
    case (Plus, Copy) =>
      Commute(s, left, right, Consumed(right) + Consumed(left))
    case (Copy, Plus) =>
      Commute(s, right, left, Consumed(right) + Consumed(left))
    case _ => Run(s, None)
  }

  /** `list.remove(x)`: drop the first occurrence of `x`. */
  function RemoveFirst(t: seq<Porta>, x: Porta): (r: seq<Porta>)
    requires x in t
    ensures |r| == |t| - 1
    ensures multiset(r) == multiset(t) - multiset{x}
    ensures exists i :: CutsFirst(t, x, r, i)
  {
    assert t == [t[0]] + t[1..];
    if t[0] == x then
      assert CutsFirst(t, x, t[1..], 0);
      t[1..]
    else
      var rest := RemoveFirst(t[1..], x);
      FirstOccurrenceCons(t, x, rest);
      [t[0]] + rest
  }

  /** `r` is `t` with its first occurrence of `x` cut out. */
  ghost predicate CutsFirst(t: seq<Porta>, x: Porta, r: seq<Porta>, i: int) {
    0 <= i < |t| && t[i] == x && x !in t[..i] && r == t[..i] + t[i+1..]
  }

  /** Prepending an element other than `x` moves the first occurrence one place on. */
  lemma FirstOccurrenceCons(t: seq<Porta>, x: Porta, rest: seq<Porta>)
    requires |t| > 0 && t[0] != x
    requires exists j :: CutsFirst(t[1..], x, rest, j)
    ensures exists i :: CutsFirst(t, x, [t[0]] + rest, i)
  {
    var j :| CutsFirst(t[1..], x, rest, j);
    assert t[..j+1] == [t[0]] + t[1..][..j];
    assert t[j+2..] == t[1..][j+1..];
    assert CutsFirst(t, x, [t[0]] + rest, j + 1);
  }

  /**
    One iteration of the `normalize` loop (inet.py:50-55): pop the last
    port, look up its peer, remove the peer from the list, and rewrite when
    both are principal ports.
  */
  function Step(s: State, rule: MirrorRule): Run
    requires |s.talvez| > 0
  {
    var left := s.talvez[|s.talvez| - 1];
    var s1 := s.(talvez := s.talvez[..|s.talvez| - 1]);
    if left !in s1.arestas then Run(s1, Some(KeyError(left)))
    else
      var right := s1.arestas[left];
      if right !in s1.talvez then Run(s1, Some(ValueError(right)))
      else
        var s2 := s1.(talvez := RemoveFirst(s1.talvez, right));
        if left.port == right.port && right.port == 0 then Rewrite(s2, left.node, right.node, rule)
        else Run(s2, None)
  }

  /**
    `normalize` (inet.py:48-55) run for at most `fuel` iterations: it stops
    when the list is empty, when an iteration raises, or when the fuel is
    used up.
  */
  function Normalized(s: State, fuel: nat, rule: MirrorRule): (State, Exit)
    decreases fuel
  {
    if |s.talvez| == 0 then (s, Drained)
    else if fuel == 0 then (s, OutOfFuel)
    else
      var r := Step(s, rule);
      if r.raised.Some? then (r.state, Raised(r.raised.value))
      else Normalized(r.state, fuel - 1, rule)
  }
}
