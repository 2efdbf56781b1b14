# Interaction-net engine, two drafts, in Dafny

The repository holds a small interaction-net rewriting engine for the
GLA system (agents Zero, Erase, Plus, Copy), written twice: a Python
draft (`inet.py`) and a Rust draft (`inets-rs/src/main.rs`). Each draft
keeps three things:
- a wiring relation between ports `(node, port index)`;
- a node counter;
- a worklist of candidate active pairs.

`normalize` drains the worklist. Each rewrite is one of three kinds:
- annihilation (Zero/Erase);
- duplication (a nullary node meets Plus or Copy);
- commutation (Plus/Copy, four fresh nodes wired in a diamond).

The two drafts are modelled separately. Neither is forced into the
other's shape.

Python draft (inet.py):
- `PyNet` (py_net.dfy): the draft as functions on a `State` value. The
  value holds the dict `arestas`, the counter and the "maybe active"
  list. A Python exception is a `Run(state, raised)`: the effects done
  before the `raise` stay in the state.
- `PyNetProofs` (py_proofs.dfy): what each rule does to the dict:
  - the exact wiring left behind, symmetry of the dict, entry counts;
  - the ports stay allocated;
  - when the rules raise;
  - the worklist behaviour of `normalize`.
- `PyNetImpl` (py_impl.dfy): the classes `ArestaMap` and `InteractionNet`,
  whose fields are updated in place. Each method is proved to leave
  exactly the state the `PyNet` function gives.
- `PyNetScenarios` (py_scenarios.dfy): the two checks of the `__main__`
  block. `zero_copy_into_erased` is stated for any counter value `b`
  before its four `add_node` calls; the test itself starts at 0.

Rust draft (main.rs):
- `RsNet` (rs_net.dfy): the Rust draft as functions on a `Net` value (two
  vectors of wires and the counter). A panic is the result `None`.
- `RsNetProofs` (rs_proofs.dfy):
  - what the linear search and `swap_remove` take out of the vector;
  - the port vector `get_auxiliary_ports` builds;
  - exactly which label pairs panic;
  - wire-count accounting per rule;
  - the routing and allocation invariants `normalize` keeps.
- `RsNetImpl` (rs_impl.dfy): the struct as a class. Its loops carry
  invariants that tie them to `RsNet`. A panic is a precondition there.
- `RsNetScenario` (rs_scenario.dfy): `main`, including "every port is
  used exactly once" and the empty end state.

`Options` (options.dfy) holds the `Option` type both drafts use.

## Model

| member | source | states |
|---|---|---|
| PyNet.Unmirror | inet.py:35-38 | `__delitem__` succeeds iff the key is present, is not wired to itself, and its value is present. On success exactly the key and its former value leave the dict. A missing key raises `KeyError` and leaves the dict as it was. No surviving entry changes. |
| PyNet.DeleteAll | inet.py:70-73 | A run of `del` statements never touches the counter or the list. It only removes keys, and every surviving entry keeps its value. |
| PyNet.RemoveFirst | inet.py:53 | `list.remove(x)` cuts out the first occurrence of `x`: the result is the part before it, which does not hold `x`, followed by the part after it, both in their old order. The list shortens by one and loses exactly one copy of `x`. |
| PyNetImpl.ArestaMap.constructor | inet.py:26-27 | A new ArestaMap holds exactly the entries it is given. |
| PyNetImpl.ArestaMap.SetItem | inet.py:29-33 | After `m[k] = v`: `m[k] == v` and `m[v] == k`; the keys are the old ones plus `k` and `v`; no other key changes its value. |
| PyNetImpl.ArestaMap.DelItem | inet.py:35-38 | Its in-place deletion leaves the entries and the exception that Unmirror gives. |
| PyNetImpl.InteractionNet.constructor | inet.py:43-46 | A new net has an empty dict, counter 0 and an empty list. |
| PyNetImpl.InteractionNet.AddNode | inet.py:142-145 | Returns `Node(old counter, label)`, raises the counter by exactly one, and leaves the dict and the list alone. |
| PyNetImpl.InteractionNet.ConnectPorts | inet.py:147-153 | `connect_ports` with its asserts read as tests on `self.arestas`, as a builder calls it: with neither port wired, both directions are written and both ports are appended, left first. The counter is unchanged. |
| PyNetImpl.InteractionNet.Link | inet.py:150-153 | `connect_ports` as the rules use it, with the asserts of inet.py:148-149 off: on any dict it leaves the Connect state, and the keys grow by exactly the two ports. |
| PyNetImpl.InteractionNet.Delete | inet.py:60 | `del self.arestas[k]` on the plain dict: removes `k`, or raises `KeyError(k)` and changes nothing. |
| PyNetImpl.InteractionNet.DeleteNode | inet.py:107-109 | The three deletions of a binary node's ports have the effect of DeleteAll, stopping at the first `KeyError`. |
| PyNetImpl.InteractionNet.Annihilate | inet.py:59-61 | The two deletions of the annihilation arm have the effect of DeleteAll. |
| PyNetImpl.InteractionNet.DuplicateNodes | inet.py:62-86 | The duplication arm in place: two fresh nodes, two lookups, two connections, four deletions. It leaves the `Duplicate` state and exception. |
| PyNetImpl.InteractionNet.CommuteNodes | inet.py:88-140 | The commutation arm in place: four fresh nodes, four lookups, eight connections, six deletions. It leaves the `Commute` state and exception. |
| PyNetImpl.InteractionNet.LinkDiamond | inet.py:97-105 | The eight `connect_ports` calls of a commutation, in source order, leave ConnectAll of the eight diamond wires. |
| PyNetImpl.InteractionNet.LinkPeers | inet.py:97-100 | Four connections in a row leave the four Connect steps, and the keys grow by exactly the eight ports. |
| PyNetImpl.InteractionNet.ApplyRewrite | inet.py:57-140 | `apply_rewrite` in place leaves the state and exception that `Rewrite` gives for the code as written, with the asserts of inet.py:148-149 off. |
| PyNetImpl.InteractionNet.Normalize | inet.py:48-55 | The `while` loop leaves the state and exit of `Normalized` (drained, raised, or out of fuel); NormalizedKeepsAllocated then says every port stays allocated. |
| PyNetProofs.MirroredKeepsSymmetry | inet.py:29-33 | Writing both directions for two distinct unwired ports keeps the dict symmetric and adds exactly two entries. |
| PyNetProofs.MirroredOverwriteBreaksSymmetry | inet.py:29-33 | Re-wiring an already wired key to a new peer leaves the old peer pointing back, so the dict is no longer symmetric. This is why the check in the comment at inet.py:30-31 matters. |
| PyNetProofs.UnmirrorKeepsSymmetry | inet.py:35-38 | In a symmetric dict, deleting a key not wired to itself succeeds. It removes exactly the key and its peer (two entries) and keeps symmetry. |
| PyNetProofs.UnmirrorSelfLoopRaises | inet.py:35-38 | A port wired to itself: the second `del` raises `KeyError` after the first one has already removed the key. |
| PyNetProofs.AddNodeIsFresh | inet.py:142-145 | The new node has no port in the dict, and the dict stays allocated under the raised counter. |
| PyNetProofs.UnallocatedIsUnwired | inet.py:142-145 | A node numbered at or above the counter has no port among the keys, and no entry points at it. |
| PyNetProofs.ConnectKeepsAllocated | inet.py:147-153 | Connecting ports of nodes already handed out keeps every port in the dict allocated. |
| PyNetProofs.DeleteAllSucceeds | inet.py:70-73 | A run of deletions raises nothing iff the keys are pairwise different and all present. It then removes exactly those keys. |
| PyNetProofs.DeleteAllKeepsAllocated | inet.py:70-73 | Deletions keep the dict allocated, whether or not they all succeed. |
| PyNetProofs.DuplicateKeepsAllocated | inet.py:62-86 | A duplication keeps the dict allocated and raises the counter by exactly two, even when it raises. |
| PyNetProofs.ConnectAllKeepsAllocated | inet.py:97-105 | A series of connections between allocated ports keeps the dict allocated and leaves the counter alone. |
| PyNetProofs.CommuteKeepsAllocated | inet.py:88-140 | A commutation keeps the dict allocated and raises the counter by exactly four, even when it raises. |
| PyNetProofs.RewriteKeepsAllocated | inet.py:57-140 | Every arm of `apply_rewrite` keeps the dict allocated and never lowers the counter. |
| PyNetProofs.AnnihilationArm | inet.py:59-61 | A Zero/Erase pair, in either order, dispatches to the deletion of the two principal ports. |
| PyNetProofs.DeletePair | inet.py:60-61 | Deleting two different present keys succeeds and removes exactly those two. |
| PyNetProofs.AnnihilationEffect | inet.py:59-61 | On a symmetric dict where the two principal ports face each other: nothing is raised, exactly the two entries go, nothing else changes, and symmetry is kept. |
| PyNetProofs.DuplicationSymmetric | inet.py:62-73 | The wiring a duplication leaves is symmetric. |
| PyNetProofs.DuplicationCard | inet.py:62-73 | A duplication leaves the dict two entries smaller: one wire fewer. |
| PyNetProofs.DuplicationWrites | inet.py:67-73 | The two connections followed by the four deletions yield DuplicateMap: the fresh ports take over the binary node's auxiliary peers. |
| PyNetProofs.DuplicateRuns | inet.py:63-73 | With all consumed ports wired, a duplication raises nothing. It writes the two fresh wires, deletes exactly the four consumed ports, counts two new ids and queues the four new wire ends. |
| PyNetProofs.DuplicateEffect | inet.py:62-86 | On a duplication redex: the rule succeeds and leaves DuplicateMap, two new ids and the four queued ends. It keeps symmetry and removes one wire. |
| PyNetProofs.DuplicationArm | inet.py:62 | A nullary node on the left of Plus or Copy dispatches to a duplication whose fresh nodes carry the nullary node's label. |
| PyNetProofs.MirroredDuplicationArm | inet.py:75-77 | A binary node on the left dispatches to a duplication whose fresh nodes carry the binary node's label as written, or the nullary node's label as intended. |
| PyNetProofs.DuplicationEffect | inet.py:62-73 | A nullary node on the left, facing a binary node in a symmetric allocated dict, duplicates it. It raises nothing and leaves the binary node's peers wired to two fresh nodes with the nullary label. Symmetry is kept and the dict loses one wire. |
| PyNetProofs.MirroredDuplicationEffect | inet.py:75-86 | The same outcome for the mirrored arm, with the fresh nodes labelled by the rule in force (binary label as written, nullary label as intended). |
| PyNetProofs.ConnectAllWrites | inet.py:97-105 | Connections over wires that share no end add exactly their two-way map to the dict and queue their ends in order. |
| PyNetProofs.DiamondDisjoint | inet.py:97-105 | The eight commutation wires share no end, given four different outside peers. |
| PyNetProofs.DeleteDoomed | inet.py:107-113 | The six deletions of the commutation arm, in either arm's order, succeed and remove exactly the six ports of the pair. |
| PyNetProofs.CommuteRuns | inet.py:88-113 | With all six consumed ports wired, a commutation raises nothing. It adds the diamond, deletes exactly the six ports, counts four ids and queues the sixteen new wire ends. |
| PyNetProofs.CommutationSymmetric | inet.py:88-113 | The wiring a commutation leaves is symmetric. |
| PyNetProofs.CommutationCard | inet.py:88-113 | A commutation leaves the dict six entries larger: the six consumed ports leave, the twelve ports of the fresh nodes arrive, and the four outside peers only change partner. |
| PyNetProofs.CommutationWrites | inet.py:97-113 | The eight connections followed by the six deletions yield CommuteMap. |
| PyNetProofs.CommuteEffect | inet.py:88-113 | On a commutation redex: the rule succeeds and leaves CommuteMap, with every diamond wire present in both directions. It keeps symmetry and grows the dict by six entries. |
| PyNetProofs.CommutationArm | inet.py:88-140 | Plus/Copy in either order dispatches to the commutation with the Plus and Copy roles kept apart and the source's deletion order. |
| PyNetProofs.CommutationEffect | inet.py:88-140 | Plus facing Copy (in either order) in a symmetric allocated dict commutes. The fresh Plus nodes take the Copy node's peers, the fresh Copy nodes the Plus node's, and the diamond is wired. Symmetry is kept and the dict grows by six entries. |
| PyNetProofs.GuardRejectsDuplication | inet.py:62-67 | Read as `self.arestas`, the guard of `connect_ports` (inet.py:148-149) fails on the first connection of a duplication in a symmetric dict: the dict the two `add_node` calls leave still holds the peer `conn1`. Without the guard the same rule raises nothing. |
| PyNetProofs.GuardRejectsCommutation | inet.py:89-97 | The same guard fails on the first connection of a commutation: the first of its eight wires passes the Copy node's peer `conn1`, still a key after the four `add_node` calls. Without the guard the rule raises nothing. |
| PyNetProofs.UnmatchedPairIsNoop | inet.py:57-140 | A pair with no `case` arm (Root involved, or both labels equal) leaves the state unchanged and raises nothing. |
| PyNetProofs.StepPopsPair | inet.py:49-55 | An iteration that raises nothing popped a wired port whose peer was in the list. When the two are not both principal, it only takes the two ports off the list (multiset). |
| PyNetProofs.StepKeepsAllocated | inet.py:49-55 | One iteration keeps the dict allocated. |
| PyNetProofs.StepOnLastPair | inet.py:50-55 | When the list ends with a wired pair `right, left`, an iteration takes both off and rewrites exactly when both are principal. |
| PyNetProofs.DrainedIsTerminal | inet.py:48-49 | `normalize` reports drained only with an empty list, and running it again changes nothing. |
| PyNetProofs.NormalizedKeeps | inet.py:48-55 | Any property every iteration preserves holds after `normalize`, however it ends. |
| PyNetProofs.NormalizedKeepsAllocated | inet.py:48-55 | `normalize` keeps every port in the dict allocated. |
| PyNetScenarios.ZeroErasedDrains | inet.py:184-192 | `zero_erased` drains in one iteration and leaves an empty dict, as the test asserts. |
| PyNetScenarios.ZeroCopyRewrite3 | inet.py:75-86 | In `zero_copy_into_erased` the pair is popped Copy first, so the mirrored arm fires. Its two fresh nodes face the Erase nodes and are labelled Copy as written, Zero as intended. |
| PyNetScenarios.ZeroCopyRewrite4AsWritten | inet.py:62-73 | With Copy-labelled fresh nodes, the next Erase/Copy pair duplicates a Copy node with no auxiliary wires and raises `KeyError` on its port 1. |
| PyNetScenarios.ZeroCopyFirstThree | inet.py:165-179 | The first three iterations of `zero_copy_into_erased` reach the state after the duplication, for either label rule. |
| PyNetScenarios.ZeroCopyAsWrittenRaises | inet.py:165-181 | As written, with the asserts of inet.py:148-149 off, `normalize` on `zero_copy_into_erased` raises `KeyError` at its fourth iteration, so the assertion at inet.py:181 is never reached. |
| PyNetScenarios.ZeroCopyIntendedDrains | inet.py:165-181 | With the nullary label pushed through, `zero_copy_into_erased` drains in five iterations and leaves an empty dict, as the test asserts. |
| RsNet.Arity | inets-rs/src/main.rs:112-119 | Arity is 0 exactly for Zero and Erase, and 2 exactly for Plus and Copy. |
| RsNet.PortsOf | inets-rs/src/main.rs:51-53 | The loop of `add_node` yields `n` ports, port `i` at position `i`, all on the same node. |
| RsNetImpl.InteractionNet.constructor | inets-rs/src/main.rs:38-43 | A new net has two empty vectors and counter 0. |
| RsNetImpl.InteractionNet.AddNode | inets-rs/src/main.rs:45-55 | The `for` loop builds the port vector of AddNode and the counter goes up by one. By PortsOf: `arity+1` ports, indices `0..=arity` in order, on `Node(old counter, label)`. |
| RsNetImpl.InteractionNet.ConnectPorts | inets-rs/src/main.rs:57-63 | Pushes the pair onto the active vector when both ports are principal, and onto `arestas` otherwise. |
| RsNetImpl.InteractionNet.GetConnected | inets-rs/src/main.rs:65-80 | The `enumerate` loop and `swap_remove` leave the state and peer of GetConnected (see GetConnectedSpec). The panic case is excluded by the precondition. |
| RsNetImpl.InteractionNet.GetAuxiliaryPorts | inets-rs/src/main.rs:82-90 | The `for` loop leaves the state and vector of AuxPorts (see AuxPortsSpec and AuxPortsPeers). |
| RsNetImpl.InteractionNet.Rewrite | inets-rs/src/main.rs:121-161 | Dispatch on the two principal labels leaves the state Rewrite gives. The `todo!()` pairs are excluded by the precondition. |
| RsNetImpl.InteractionNet.Duplicate | inets-rs/src/main.rs:126-132 | Two `add_node` calls and two connections leave the Duplicate state. |
| RsNetImpl.InteractionNet.Commute | inets-rs/src/main.rs:133-148 | Four `add_node` calls and the eight connections in source order leave the Commute state. |
| RsNetImpl.InteractionNet.Normalize | inets-rs/src/main.rs:92-98 | The `while let` pop loop leaves the state and exit of Normalized, and reports drained exactly when no active pair is left. |
| RsNetProofs.SwapRemoveOrder | inets-rs/src/main.rs:69 | `swap_remove(i)` shortens the vector by one, moves the last wire into slot `i`, and keeps every other slot. |
| RsNetProofs.SwapRemoveContents | inets-rs/src/main.rs:69 | `swap_remove(i)` removes exactly one copy of wire `i` from the multiset of wires. |
| RsNetProofs.IndexOfTouchingSpec | inets-rs/src/main.rs:66-78 | The scan stops at the first wire touching the port. It runs off the end iff no wire touches the port. |
| RsNetProofs.GetConnectedSpec | inets-rs/src/main.rs:65-80 | `get_connected` succeeds iff some wire touches the port. It then returns that wire's other end and removes exactly that wire (multiset and length), leaving the active vector and the counter alone. |
| RsNetProofs.AuxLoopCounts | inets-rs/src/main.rs:85-88 | After `k` iterations: `k` peers collected, `k` wires taken out of `arestas`, nothing else touched. |
| RsNetProofs.TakenPeers | inets-rs/src/main.rs:85-88 | Element `i` collected by the loop is the other end of the wire touching port `i+1`. |
| RsNetProofs.AuxPortsSpec | inets-rs/src/main.rs:82-90 | `get_auxiliary_ports` returns `arity+1` ports, element 0 the port itself. It removes exactly `arity` wires and leaves the rest of the net alone. |
| RsNetProofs.AuxPortsPeers | inets-rs/src/main.rs:82-90 | Element `i` (for `i ≥ 1`) is the peer of port `i` of the node. The wires taken plus the wires left are the wires before. |
| RsNetProofs.ConnectKeepsRouted | inets-rs/src/main.rs:57-63 | `connect_ports` keeps only principal pairs active and no principal pair among ordinary wires. It adds exactly one wire. |
| RsNetProofs.ConnectRoutes | inets-rs/src/main.rs:57-63 | A pair goes onto the active vector iff both ports are principal, and onto `arestas` otherwise. The other vector and the counter are unchanged. |
| RsNetProofs.AddNodeFresh | inets-rs/src/main.rs:45-55 | `add_node` returns `arity+1` ports of `Node(old counter, label)` in index order. No existing wire mentions the new id, and the counter goes up by one. |
| RsNetProofs.ConnectAllKeepsRouted | inets-rs/src/main.rs:139-147 | A series of connections keeps the routing invariant and adds exactly one wire per call. |
| RsNetProofs.ConnectAllKeepsAllocated | inets-rs/src/main.rs:139-147 | Connections between allocated ports keep every wire allocated. |
| RsNetProofs.PopKeeps | inets-rs/src/main.rs:93 | Popping the last active pair keeps both invariants and removes one wire. |
| RsNetProofs.AuxPortsAllocated | inets-rs/src/main.rs:82-90 | On an allocated net, the collected ports belong to allocated nodes, and the net left stays allocated. |
| RsNetProofs.AuxPortsKeeps | inets-rs/src/main.rs:82-90 | The auxiliary lookup keeps the routing invariant and removes `arity` wires in total. |
| RsNetProofs.DuplicateWires | inets-rs/src/main.rs:126-132 | The duplication arm connects the binary node's peers to port 0 of two fresh nodes carrying the left node's label, and counts two ids. |
| RsNetProofs.CommuteWiresAt | inets-rs/src/main.rs:133-148 | The commutation arm connects the fresh Plus nodes to the Copy node's peers, the fresh Copy nodes to the Plus node's peers, and the fixed diamond, in source order. |
| RsNetProofs.RewritePanicsExactly | inets-rs/src/main.rs:121-161 | With well-formed port vectors, `rewrite` panics exactly on the label pairs outside the five supported ones. |
| RsNetProofs.StepPanicsExactly | inets-rs/src/main.rs:93-96 | One iteration of `normalize` panics iff a lookup finds a port unwired or the pair is unsupported. |
| RsNetProofs.BeforeRewriteSpec | inets-rs/src/main.rs:93-95 | Before `rewrite`, the two port vectors are well formed and the wire total has dropped by one plus both arities. |
| RsNetProofs.AnnihilationStep | inets-rs/src/main.rs:124-125 | Zero/Erase: the step only pops the pair, so the wire total falls by 1. |
| RsNetProofs.DuplicationStep | inets-rs/src/main.rs:126-132 | Zero/Copy or Erase/Plus: the wire total falls by 1, two ids are counted, and the routing invariant is kept. |
| RsNetProofs.CommuteCounts | inets-rs/src/main.rs:133-148 | The commutation arm never panics given two peers each, adds 8 wires, counts four ids and keeps the routing. |
| RsNetProofs.CommutationStep | inets-rs/src/main.rs:133-148 | Plus/Copy: the wire total rises by 3, four ids are counted, and the routing invariant is kept. |
| RsNetProofs.DuplicateKeepsAllocated | inets-rs/src/main.rs:126-132 | Duplication over allocated peers keeps the net allocated. |
| RsNetProofs.CommuteKeepsAllocated | inets-rs/src/main.rs:133-148 | Commutation over allocated peers keeps the net allocated. |
| RsNetProofs.RewriteKeepsAllocated | inets-rs/src/main.rs:121-161 | Every arm that does not panic keeps the net allocated. |
| RsNetProofs.StepKeepsAllocated | inets-rs/src/main.rs:93-96 | An iteration that does not panic keeps the net allocated and never lowers the counter. |
| RsNetProofs.StepCounter | inets-rs/src/main.rs:93-96 | An iteration never lowers the counter. |
| RsNetProofs.StepKeepsRouted | inets-rs/src/main.rs:93-96 | An iteration keeps only principal pairs active and no principal pair among ordinary wires. |
| RsNetProofs.NormalizedExit | inets-rs/src/main.rs:92-98 | `normalize` reports drained exactly when the active vector is empty, and the counter never falls. |
| RsNetProofs.NormalizedKeeps | inets-rs/src/main.rs:92-98 | Any property every iteration preserves holds after `normalize`. |
| RsNetProofs.NormalizedKeepsRouted | inets-rs/src/main.rs:92-98 | `normalize` keeps the routing invariant. |
| RsNetProofs.NormalizedKeepsAllocated | inets-rs/src/main.rs:92-98 | `normalize` keeps the net allocated. |
| RsNetScenario.MainNodesValue | inets-rs/src/main.rs:165-169 | The four `add_node` calls of `main` hand out ids 0 to 3 and the port vectors of Zero, Copy, Erase, Erase. |
| RsNetScenario.EndsOfMainWires | inets-rs/src/main.rs:171-173 | The three wires of `main` use every port of the four vectors, and use nothing else. |
| RsNetScenario.MainPortsUsedOnce | inets-rs/src/main.rs:171-180 | Every port `main` receives is wired exactly once: each is an end of a wire, each end comes from a vector, and no end repeats. This is what the four `is_empty` assertions check. |
| RsNetScenario.ConnectMainWires | inets-rs/src/main.rs:171-173 | The Zero/Copy pair goes onto the active vector and the two Erase wires onto `arestas`. |
| RsNetScenario.MainNetValue | inets-rs/src/main.rs:165-173 | The net `main` builds has one active Zero/Copy pair and two wires to the Erase nodes. |
| RsNetScenario.MainWiring | inets-rs/src/main.rs:171-173 | The three `connect_ports` calls on the vectors from `add_node` build that net. |
| RsNetScenario.AuxPortsNullary | inets-rs/src/main.rs:82-90 | For a node without auxiliary ports the lookup returns the port alone and takes no wire. |
| RsNetScenario.DuplicateIntoPrincipals | inets-rs/src/main.rs:126-132 | When the binary node's peers are principal ports, both new wires of a duplication become active pairs. |
| RsNetScenario.MainStep1 | inets-rs/src/main.rs:93-96 | The first iteration on `main`'s net duplicates the Copy node through the Zero node and leaves two Erase/Zero active pairs. |
| RsNetScenario.EraseZeroStep | inets-rs/src/main.rs:124-125 | An Erase/Zero pair on top of the active vector is simply popped. |
| RsNetScenario.MainDrains | inets-rs/src/main.rs:182 | `normalize` on `main`'s net drains in three iterations and leaves both vectors empty. |
| RsNetScenario.RunMain | inets-rs/src/main.rs:164-185 | `main` on the class: after `normalize` both vectors that the final `println!` shows are empty. |

## Left out

- `print_arestas` (inet.py:155-159), its call inside `normalize` (inet.py:52) and the `println!` in `main` (inets-rs/src/main.rs:184): console output only.
- The `plus_into_copy` scenario (inet.py:195-213): it asserts nothing, and the Root nodes it uses have no rules.
- The asserts of `connect_ports` (inet.py:148-149) name the global `arestas`, which the file never defines. As written, every call raises `NameError` unless assertions are switched off (`python -O`), so both scenarios stop at their first `connect_ports` (inet.py:174 and inet.py:189). The rules' `connect_ports` is modelled without the asserts: `PyNet.Connect` and `PyNetImpl.InteractionNet.Link` have no guard, and `Duplicate`, `Commute`, `Rewrite`, `Normalized` and the scenario lemmas go through them. Only `PyNetImpl.InteractionNet.ConnectPorts`, the builder's call, keeps them, as a precondition on `self.arestas`. Read as tests on `self.arestas`, the asserts would stop every duplication and commutation (see Findings).
- PyNetImpl.InteractionNet.Normalize: runs at most `fuel` iterations (an exit of OutOfFuel), since the source loop has no termination argument.
- RsNetImpl.InteractionNet.Normalize: runs at most `fuel` iterations, for the same reason.
- RsNetImpl.InteractionNet.AddNode: `node_count` is a `u8` in the source (inets-rs/src/main.rs:3, 33). It is modelled as an unbounded counter, so overflow after 255 nodes is not modelled.
- Rust panics are `None` in the functions of `RsNet` and preconditions on the methods of `RsNetImpl`. An exception is modelled as a returned value, not as unwinding.
- `Vec::remove(0)` on the vectors `rewrite` and `main` receive is modelled by indexing the next element (and, in `main`, keeping the rest). The shifting of the remaining elements is not modelled.
- `list.remove` (inet.py:53) is the function RemoveFirst, not an element-by-element loop.
- The generic `Label` trait, the derives, and the commented-out `Drop` implementation (inets-rs/src/main.rs:5-8, 23-27). `GLA` is modelled concretely.
- `dataclass(frozen=True)` and `Enum`'s `auto()`: plain datatypes stand for them.
- Canonical orientation of active pairs by label order: neither draft does it, and no property claims it.
- The dict's iteration order: only `print_arestas` depends on it.
- `zero_copy_into_erased` is stated for any counter value before its first `add_node`. The Rust `main` is stated for its own counter values.

## Findings

| source | as written | input that shows it | evidently intended | confidence | as-written member | corrected member |
|---|---|---|---|---|---|---|
| inet.py:148-149 | The asserts name the undefined global `arestas`, so each call raises `NameError`. Read as tests on `self.arestas`, they demand that both ports be unwired. The duplication rule's first `connect_ports` (inet.py:67, 80) passes the peer `conn1`, which is still wired at that point. The commutation's first one (inet.py:97, 124) does the same (GuardRejectsCommutation). | `zero_copy_into_erased`, third iteration: `conn1 = Porta(era1, 0)` is still a key. The same holds for every duplication and commutation in a symmetric dict. | Only the fresh node's port must be unwired; the peer is re-wired to it. The rules keep the dict symmetric then (DuplicationEffect, CommutationEffect, whose nets have the fresh ports unwired). | not executed | PyNetProofs.GuardRejectsDuplication | PyNetProofs.DuplicationEffect |
| inet.py:76-77 | The mirrored duplication arm labels its fresh nodes with `left.label`, the binary node's label. | `zero_copy_into_erased`, with the asserts of inet.py:148-149 off: the pair is popped Copy first, so the fresh nodes are Copy nodes. The next Erase/Copy pair raises `KeyError(Porta(Node(5, Copy), 1))` at the fourth iteration, and the assertion at inet.py:181 is never reached. | Push the nullary label through, as the other arm does (inet.py:63-64). The net then drains to an empty dict. | not executed | PyNetScenarios.ZeroCopyAsWrittenRaises | PyNetScenarios.ZeroCopyIntendedDrains |

The pure model carries both label rules as the parameter `MirrorRule`.
The class `PyNetImpl.InteractionNet` follows the code as written.
