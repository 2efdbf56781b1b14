/**
  The two checks of inet.py's `__main__` block (inet.py:163-193), on the
  state values of module PyNet, which the objects of PyNetImpl follow.
*/
module PyNetScenarios {
  import opened Options
  import opened PyNet
  import opened PyNetProofs

  /** The net of `zero_erased` (inet.py:185-191) before `normalize`: a Zero node facing an Erase node. */
  function ZeroErasedNet(): State {
    Connect(State(map[], 2, []), Porta(Node(0, Zero), 0), Porta(Node(1, Erase), 0))
  }

  /** `zero_erased` drains in one iteration and leaves no wire, whatever the duplication label rule. */
  lemma ZeroErasedDrains(fuel: nat, rule: MirrorRule)
    requires fuel >= 1
    ensures Normalized(ZeroErasedNet(), fuel, rule) == (State(map[], 2, []), Drained)
  {
    var s := ZeroErasedNet();
    var z, e := Porta(Node(0, Zero), 0), Porta(Node(1, Erase), 0);
    assert s.talvez == [] + [z, e];
    StepOnLastPair(s, rule, [], z, e);
    assert s.arestas - {e, z} == map[];
    assert Step(s, rule) == Run(State(map[], 2, []), None);
  }

  /** Port `port` of the node numbered `id` and labelled `kind`. */
  function At(id: int, kind: Label, port: int): Porta {
    Porta(Node(id, kind), port)
  }

  /**
    The net of `zero_copy_into_erased` (inet.py:164-176) before `normalize`,
    with the counter at `b` before the four `add_node` calls (the test
    itself starts at 0): Zero(b) faces Copy(b+1), whose auxiliary ports
    lead to Erase(b+2) and Erase(b+3).
  */
  function ZeroCopyNet(b: nat): State {
    var s := State(map[], b + 4, []);
    Connect(Connect(Connect(s, At(b, Zero, 0), At(b + 1, Copy, 0)), At(b + 2, Erase, 0), At(b + 1, Copy, 1)),
            At(b + 3, Erase, 0), At(b + 1, Copy, 2))
  }

  /** The dict of ZeroCopyNet: the three wires, each in both directions. */
  function ZeroCopyWires(b: nat): map<Porta, Porta> {
    var z, c0, c1, c2 := At(b, Zero, 0), At(b + 1, Copy, 0), At(b + 1, Copy, 1), At(b + 1, Copy, 2);
    var e2, e3 := At(b + 2, Erase, 0), At(b + 3, Erase, 0);
    map[z := c0, c0 := z, e2 := c1, c1 := e2, e3 := c2, c2 := e3]
  }

  /** ZeroCopyNet after one iteration. */
  function ZeroCopyAt1(b: nat): State {
    State(ZeroCopyWires(b), b + 4, [At(b, Zero, 0), At(b + 1, Copy, 0), At(b + 2, Erase, 0), At(b + 1, Copy, 1)])
  }

  /** ZeroCopyNet after two iterations: only the principal pair is left in the list. */
  function ZeroCopyAt2(b: nat): State {
    State(ZeroCopyWires(b), b + 4, [At(b, Zero, 0), At(b + 1, Copy, 0)])
  }

  /**
    ZeroCopyNet after three iterations: the Copy node has been duplicated
    through the Zero node, and two fresh nodes labelled `kind` face the two
    Erase nodes.
  */
  function AfterDuplication(b: nat, kind: Label): State {
    var n4, n5 := At(b + 4, kind, 0), At(b + 5, kind, 0);
    var e2, e3 := At(b + 2, Erase, 0), At(b + 3, Erase, 0);
    State(map[n4 := e2, e2 := n4, n5 := e3, e3 := n5], b + 6, [n4, e2, n5, e3])
  }

  /** With the nullary label, ZeroCopyNet after four iterations: one Zero/Erase pair is left. */
  function ZeroCopyAt4(b: nat): State {
    var n4, e2 := At(b + 4, Zero, 0), At(b + 2, Erase, 0);
    State(map[n4 := e2, e2 := n4], b + 6, [n4, e2])
  }

  /** The keys a four-element list names. */
  lemma SetOfFour(a: Porta, b: Porta, c: Porta, d: Porta)
    ensures (set k | k in [a, b, c, d]) == {a, b, c, d}
  {
  }

  /** Deleting four different present keys removes exactly those four. */
  lemma DeleteFour(s: State, a: Porta, b: Porta, c: Porta, d: Porta)
    requires a in s.arestas && b in s.arestas && c in s.arestas && d in s.arestas
    requires a != b && a != c && a != d && b != c && b != d && c != d
    ensures DeleteAll(s, [a, b, c, d]) == Run(s.(arestas := s.arestas - {a, b, c, d}), None)
  {
    DeleteAllSucceeds(s, [a, b, c, d]);
    assert Distinct([a, b, c, d]);
    SetOfFour(a, b, c, d);
  }

  /** What the duplication leaves of ZeroCopyWires once the two fresh wires are added. */
  lemma ZeroCopyLeftover(b: nat, kind: Label)
    ensures var n4, n5 := At(b + 4, kind, 0), At(b + 5, kind, 0);
      var e2, e3 := At(b + 2, Erase, 0), At(b + 3, Erase, 0);
      ZeroCopyWires(b)[n4 := e2][e2 := n4][n5 := e3][e3 := n5] - {At(b, Zero, 0), At(b + 1, Copy, 0), At(b + 1, Copy, 1), At(b + 1, Copy, 2)}
        == AfterDuplication(b, kind).arestas
  {
  }

  /**
    ZeroCopyAt2 once the duplication has wired its two fresh nodes
    labelled `kind` and before it deletes the consumed ports.
  */
  function ZeroCopyRewired(b: nat, kind: Label): State {
    var n4, n5 := At(b + 4, kind, 0), At(b + 5, kind, 0);
    var e2, e3 := At(b + 2, Erase, 0), At(b + 3, Erase, 0);
    State(ZeroCopyWires(b)[n4 := e2][e2 := n4][n5 := e3][e3 := n5], b + 6, [n4, e2, n5, e3])
  }

  /** The two wires of the duplication, laid on ZeroCopyAt2's dict. */
  lemma ZeroCopyTwoWires(b: nat, kind: Label)
    ensures Connect(Connect(State(ZeroCopyWires(b), b + 6, []), At(b + 4, kind, 0), At(b + 2, Erase, 0)),
                    At(b + 5, kind, 0), At(b + 3, Erase, 0))
         == ZeroCopyRewired(b, kind)
  {
  }

  /** The duplication of Copy(b+1) through Zero(b) up to its deletions. */
  lemma ZeroCopyDuplicateWires(b: nat, kind: Label)
    ensures Duplicate(ZeroCopyAt2(b).(talvez := []), Node(b, Zero), Node(b + 1, Copy), kind)
         == DeleteAll(ZeroCopyRewired(b, kind), [At(b, Zero, 0), At(b + 1, Copy, 0), At(b + 1, Copy, 1), At(b + 1, Copy, 2)])
  {
    var s := State(ZeroCopyWires(b), b + 4, []);
    assert ZeroCopyAt2(b).(talvez := []) == s;
    assert s.arestas[At(b + 1, Copy, 1)] == At(b + 2, Erase, 0);
    assert s.arestas[At(b + 1, Copy, 2)] == At(b + 3, Erase, 0);
    DuplicateWired(s, Node(b, Zero), Node(b + 1, Copy), kind);
    ZeroCopyTwoWires(b, kind);
    assert [At(b, Zero, 0)] + Consumed(Node(b + 1, Copy)) == [At(b, Zero, 0), At(b + 1, Copy, 0), At(b + 1, Copy, 1), At(b + 1, Copy, 2)];
  }

  /** The deletions of the duplication: the four ports of the consumed pair go. */
  lemma ZeroCopyDeleteConsumed(b: nat, kind: Label)
    ensures DeleteAll(ZeroCopyRewired(b, kind), [At(b, Zero, 0), At(b + 1, Copy, 0), At(b + 1, Copy, 1), At(b + 1, Copy, 2)])
         == Run(AfterDuplication(b, kind), None)
  {
    DeleteFour(ZeroCopyRewired(b, kind), At(b, Zero, 0), At(b + 1, Copy, 0), At(b + 1, Copy, 1), At(b + 1, Copy, 2));
    ZeroCopyLeftover(b, kind);
  }

  /** First iteration: Copy's port 2 and Erase(b+3) leave the list, no rewrite. */
  lemma ZeroCopyPop1(b: nat, rule: MirrorRule)
    ensures Step(ZeroCopyNet(b), rule) == Run(ZeroCopyAt1(b), None)
  {
    var z, c0, c1, c2 := At(b, Zero, 0), At(b + 1, Copy, 0), At(b + 1, Copy, 1), At(b + 1, Copy, 2);
    var e2, e3 := At(b + 2, Erase, 0), At(b + 3, Erase, 0);
    var s := ZeroCopyNet(b);
    assert s == State(ZeroCopyWires(b), b + 4, [z, c0, e2, c1] + [e3, c2]);
    StepOnLastPair(s, rule, [z, c0, e2, c1], e3, c2);
  }

  /** Second iteration: Copy's port 1 and Erase(b+2) leave the list, no rewrite. */
  lemma ZeroCopyPop2(b: nat, rule: MirrorRule)
    ensures Step(ZeroCopyAt1(b), rule) == Run(ZeroCopyAt2(b), None)
  {
    var s := ZeroCopyAt1(b);
    assert s.talvez == [At(b, Zero, 0), At(b + 1, Copy, 0)] + [At(b + 2, Erase, 0), At(b + 1, Copy, 1)];
    StepOnLastPair(s, rule, [At(b, Zero, 0), At(b + 1, Copy, 0)], At(b + 2, Erase, 0), At(b + 1, Copy, 1));
  }

  /** Third iteration: the principal pair Copy/Zero is taken off the list and rewritten. */
  lemma ZeroCopyPop3(b: nat, rule: MirrorRule)
    ensures Step(ZeroCopyAt2(b), rule) == Rewrite(ZeroCopyAt2(b).(talvez := []), Node(b + 1, Copy), Node(b, Zero), rule)
  {
    var s := ZeroCopyAt2(b);
    assert s.talvez == [] + [At(b, Zero, 0), At(b + 1, Copy, 0)];
    StepOnLastPair(s, rule, [], At(b, Zero, 0), At(b + 1, Copy, 0));
  }

  /** The rewrite of the third iteration: the mirrored duplication arm, with its label rule. */
  lemma ZeroCopyRewrite3(b: nat, rule: MirrorRule)
    ensures Rewrite(ZeroCopyAt2(b).(talvez := []), Node(b + 1, Copy), Node(b, Zero), rule)
         == Run(AfterDuplication(b, if rule == AsWritten then Copy else Zero), None)
  {
    var kind := if rule == AsWritten then Copy else Zero;
    MirroredDuplicationArm(ZeroCopyAt2(b).(talvez := []), Node(b + 1, Copy), Node(b, Zero), rule);
    ZeroCopyDuplicateWires(b, kind);
    ZeroCopyDeleteConsumed(b, kind);
  }

  /** Fourth iteration: Erase(b+3) and the fresh node b+5 are taken off the list and rewritten. */
  lemma ZeroCopyPop4(b: nat, kind: Label, rule: MirrorRule)
    ensures Step(AfterDuplication(b, kind), rule)
         == Rewrite(AfterDuplication(b, kind).(talvez := [At(b + 4, kind, 0), At(b + 2, Erase, 0)]), Node(b + 3, Erase), Node(b + 5, kind), rule)
  {
    var s3 := AfterDuplication(b, kind);
    var n4, n5 := At(b + 4, kind, 0), At(b + 5, kind, 0);
    var e2, e3 := At(b + 2, Erase, 0), At(b + 3, Erase, 0);
    assert s3.talvez == [n4, e2] + [n5, e3];
    StepOnLastPair(s3, rule, [n4, e2], n5, e3);
  }

  /** As written the fresh node b+5 is a Copy node, and the duplication arm finds its port 1 unwired. */
  lemma ZeroCopyRewrite4AsWritten(b: nat)
    ensures Rewrite(AfterDuplication(b, Copy).(talvez := [At(b + 4, Copy, 0), At(b + 2, Erase, 0)]), Node(b + 3, Erase), Node(b + 5, Copy), AsWritten).raised
         == Some(KeyError(At(b + 5, Copy, 1)))
  {
    var s := AfterDuplication(b, Copy).(talvez := [At(b + 4, Copy, 0), At(b + 2, Erase, 0)]);
    DuplicationArm(s, Node(b + 3, Erase), Node(b + 5, Copy), AsWritten);
    assert At(b + 5, Copy, 1) !in s.arestas;
  }

  /** With the nullary label the fresh node b+5 is a Zero node, and it annihilates with Erase(b+3). */
  lemma ZeroCopyRewrite4Intended(b: nat)
    ensures Rewrite(AfterDuplication(b, Zero).(talvez := [At(b + 4, Zero, 0), At(b + 2, Erase, 0)]), Node(b + 3, Erase), Node(b + 5, Zero), Intended)
         == Run(ZeroCopyAt4(b), None)
  {
    var s := AfterDuplication(b, Zero).(talvez := [At(b + 4, Zero, 0), At(b + 2, Erase, 0)]);
    var e3, n5 := At(b + 3, Erase, 0), At(b + 5, Zero, 0);
    AnnihilationArm(s, Node(b + 3, Erase), Node(b + 5, Zero), Intended);
    DeletePair(s, e3, n5);
    assert s.arestas - {e3, n5} == ZeroCopyAt4(b).arestas;
  }

  /** Fifth iteration with the nullary label: Erase(b+2) annihilates with the fresh Zero(b+4), and no wire is left. */
  lemma ZeroCopyPop5Intended(b: nat)
    ensures Step(ZeroCopyAt4(b), Intended) == Run(State(map[], b + 6, []), None)
  {
    var n4, e2 := At(b + 4, Zero, 0), At(b + 2, Erase, 0);
    var s4 := ZeroCopyAt4(b);
    assert s4.talvez == [] + [n4, e2];
    StepOnLastPair(s4, Intended, [], n4, e2);
    AnnihilationArm(s4.(talvez := []), Node(b + 2, Erase), Node(b + 4, Zero), Intended);
    DeletePair(s4.(talvez := []), e2, n4);
    assert s4.arestas - {e2, n4} == map[];
  }

  /** The first three iterations, whatever the label rule, end in AfterDuplication. */
  lemma ZeroCopyFirstThree(b: nat, fuel: nat, rule: MirrorRule)
    requires fuel >= 3
    ensures Normalized(ZeroCopyNet(b), fuel, rule)
         == Normalized(AfterDuplication(b, if rule == AsWritten then Copy else Zero), fuel - 3, rule)
  {
    var f1 := fuel - 1;
    var f2 := f1 - 1;
    ZeroCopyPop1(b, rule);
    NormalizedStep(ZeroCopyNet(b), fuel, rule, ZeroCopyAt1(b));
    ZeroCopyPop2(b, rule);
    NormalizedStep(ZeroCopyAt1(b), f1, rule, ZeroCopyAt2(b));
    ZeroCopyPop3(b, rule);
    ZeroCopyRewrite3(b, rule);
    NormalizedStep(ZeroCopyAt2(b), f2, rule, AfterDuplication(b, if rule == AsWritten then Copy else Zero));
  }

  /**
    As written, `zero_copy_into_erased` never reaches its final assertion:
    the fourth iteration pairs Erase(b+3) with the fresh Copy(b+5) and looks
    up Copy(b+5)'s port 1, which was never wired.
  */
  lemma ZeroCopyAsWrittenRaises(b: nat, fuel: nat)
    requires fuel >= 4
    ensures Normalized(ZeroCopyNet(b), fuel, AsWritten).1 == Raised(KeyError(At(b + 5, Copy, 1)))
  {
    ZeroCopyFirstThree(b, fuel, AsWritten);
    ZeroCopyPop4(b, Copy, AsWritten);
    ZeroCopyRewrite4AsWritten(b);
  }

  /**
    With the fresh nodes labelled after the nullary node, the same net
    drains after five iterations and no wire is left, as the test asserts.
  */
  lemma ZeroCopyIntendedDrains(b: nat, fuel: nat)
    requires fuel >= 5
    ensures Normalized(ZeroCopyNet(b), fuel, Intended) == (State(map[], b + 6, []), Drained)
  {
    var f3 := fuel - 3;
    var f4 := f3 - 1;
    ZeroCopyFirstThree(b, fuel, Intended);
    ZeroCopyPop4(b, Zero, Intended);
    ZeroCopyRewrite4Intended(b);
    NormalizedStep(AfterDuplication(b, Zero), f3, Intended, ZeroCopyAt4(b));
    ZeroCopyPop5Intended(b);
    NormalizedStep(ZeroCopyAt4(b), f4, Intended, State(map[], b + 6, []));
  }
}
