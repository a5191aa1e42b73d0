# Markovian (k-order) abstraction of process trees, and the searches that use it

This project models the core of bpmtk's automated process discovery optimiser in Dafny.
A process tree is compiled into a finite automaton whose language is the set of
*k-windows* of the tree's traces. A trace is framed as `+ a b c -`, and its k-windows are
its substrings of length k plus the shorter words that span a whole trace. The main
class is `MarkovianAutomatonAbstraction` (`computeMk` and its operator constructions
`mkLeafNode`, `mkExclusive`, `mkSequence`, `mkLoop`, `mkParallel`, the projection
`computeMkAbstraction`, the window automaton `createMKAutomaton`, the label mappings and
`getAcceptedStrings`). Around it sit:

- the evaluator that scores a model against the log's abstraction;
- the two hill-climbing searches, iterated local search and repeated local search;
- the optimiser front end, which derives the model name and dispatches on the strategy tag;
- the binary process-tree converter;
- the helpers of the abstraction test (start/end wrapping, id-string conversion,
  label numbering, and the conversion of accepted strings to subtraces).

Modules, one per file:

- `Wrappers` (`wrappers.dfy`): `Option` and a `Result` whose error is the Java exception thrown.
- `Automata` (`automata.dfy`): automata as arenas of states, characters as 16-bit Java `char`s, runs, paths, reachability, `union`, `step`, `getStates`.
- `Epsilons` (`epsilons.dfy`): the library's `addEpsilons`.
- `Leaf`, `Splice`, `Substrings`, `WindowAutomaton`, `Product`: `mkLeafNode`; `mkSequence` and `mkLoop`; `computeAllSubstringsAutomaton` and `getAlphabet`; `createMKAutomaton`; `mkParallel`.
- `SpliceLanguage` (`mk_splice_language.dfy`): the language of the arena `mkSequence` splices, for operands in the shape of minimal window automata.
- `Window` and `WindowLanguage` (`mk_window.dfy`, `mk_window_language.dfy`): `computeMkAbstraction` as a worklist over PES (state, memory, initial-path flag) values, and the language of its result.
- `AcceptedStrings`, `Compile`, `Labels`, `Abstraction`: `getAcceptedStrings`/`explore`; `computeMk`; the character counter; the class with its two constructors and label mappings.
- `LocalSearch`, `IteratedSearch`, `RepeatedSearch`, `Evaluator`, `Optimizer`: the searches, `MarkovianBasedEvaluator.call` and `AutomatedProcessDiscoveryOptimizer`.
- `Binary` (`binary.dfy`): `ProcessTreeToBinaryConverter`.
- `StartEnd`, `IdText`, `SubtraceText`, `LabelIds` (`test_*.dfy`): the helpers of `MkAbstractionTest`.

The miner, the log and model abstractions, the fitness and precision measures, threads
and clocks are outside the model. What they answer is given to the model as parameters.
For example, a search is given the sequence of attempts its miner proxy and evaluator
produce, one per retry.

## Model

| member | source | states |
|---|---|---|
| Automata.AcceptsFromPath | src/au/edu/unimelb/processmining/accuracy/abstraction/mkAutomaton/MarkovianAutomatonAbstraction.java:170-173 | A state accepts a word exactly when the word labels a path from it to an accepting state; this ties the run semantics used everywhere to paths. |
| Automata.AddTransition | src/au/edu/unimelb/processmining/accuracy/abstraction/mkAutomaton/MarkovianAutomatonAbstraction.java:131 | `State.addTransition` adds a transition to a state's set: the result holds exactly the old transitions and the new one. |
| Automata.AddAll | src/au/edu/unimelb/processmining/accuracy/abstraction/mkAutomaton/MarkovianAutomatonAbstraction.java:128-132 | Adding a list of transitions one by one leaves exactly the union of the two lists. |
| Automata.RemoveIf | src/au/edu/unimelb/processmining/accuracy/abstraction/mkAutomaton/MarkovianAutomatonAbstraction.java:134 | `removeIf` keeps exactly the transitions the predicate rejects, never more than before. |
| Automata.Step | src/au/edu/unimelb/processmining/accuracy/abstraction/mkAutomaton/MarkovianAutomatonAbstraction.java:435-438 | `State.step(c)` returns no state exactly when no transition covers c; otherwise a state reached from q on c. |
| Automata.Union | src/au/edu/unimelb/processmining/accuracy/abstraction/mkAutomaton/MarkovianAutomatonAbstraction.java:96-109 | `BasicOperations.union` in `mkExclusive`: a well-formed automaton whose fresh initial state comes after the two arenas; its language is stated by `UnionLanguage`. |
| Automata.UnionLanguage | src/au/edu/unimelb/processmining/accuracy/abstraction/mkAutomaton/MarkovianAutomatonAbstraction.java:96-109 | The union (before the language-preserving determinize/minimize) accepts exactly the words either operand accepts. |
| Automata.GetStates | src/au/edu/unimelb/processmining/accuracy/abstraction/mkAutomaton/MarkovianAutomatonAbstraction.java:407 | `getStates()` finds exactly the states reachable from the initial state. |
| Epsilons.EpsTargets | src/au/edu/unimelb/processmining/accuracy/abstraction/mkAutomaton/MarkovianAutomatonAbstraction.java:121 | The closure `addEpsilons` computes for a state: exactly the states it reaches by one or more epsilon pairs; empty when no pair leaves it. |
| Epsilons.AbsorbAll | src/au/edu/unimelb/processmining/accuracy/abstraction/mkAutomaton/MarkovianAutomatonAbstraction.java:121 | A state that absorbs a set of targets accepts when it or a target accepts and holds its own and the targets' transitions; no target leaves it unchanged. |
| Epsilons.AddEpsilons | src/au/edu/unimelb/processmining/accuracy/abstraction/mkAutomaton/MarkovianAutomatonAbstraction.java:182 | `addEpsilons(pairs)`: every state absorbs its epsilon closure, the arena keeps its size and start, and states without pairs are unchanged. |
| Epsilons.SinglePair | src/au/edu/unimelb/processmining/accuracy/abstraction/mkAutomaton/MarkovianAutomatonAbstraction.java:121 | With the single pair (q0A, q0B) the closure of q0A is exactly {q0B}. |
| Epsilons.StarPairs | src/au/edu/unimelb/processmining/accuracy/abstraction/mkAutomaton/MarkovianAutomatonAbstraction.java:407-412 | When all pairs leave one state, its closure is exactly the set of pair targets. |
| Leaf.MkLeafNode | src/au/edu/unimelb/processmining/accuracy/abstraction/mkAutomaton/MarkovianAutomatonAbstraction.java:65-94 | `mkLeafNode` builds a valid automaton with at least three states whose start is q0. |
| Leaf.TauLeafLanguage | src/au/edu/unimelb/processmining/accuracy/abstraction/mkAutomaton/MarkovianAutomatonAbstraction.java:74-77 | A silent leaf accepts exactly "+-" for k >= 2. |
| Leaf.PairLeafLanguage | src/au/edu/unimelb/processmining/accuracy/abstraction/mkAutomaton/MarkovianAutomatonAbstraction.java:78-83 | For k = 2 an activity leaf accepts exactly "+a" and "a-". |
| Leaf.TraceLeafLanguage | src/au/edu/unimelb/processmining/accuracy/abstraction/mkAutomaton/MarkovianAutomatonAbstraction.java:84-89 | For k > 2 an activity leaf accepts exactly "+a-". |
| Leaf.EmptyLeafLanguage | src/au/edu/unimelb/processmining/accuracy/abstraction/mkAutomaton/MarkovianAutomatonAbstraction.java:65-94 | For k < 2 no leaf, silent or not, accepts anything: q0 gets no transition. |
| Splice.GetAcceptStates | src/au/edu/unimelb/processmining/accuracy/abstraction/mkAutomaton/MarkovianAutomatonAbstraction.java:118 | `getAcceptStates()` lists exactly the reachable accepting states. |
| Splice.FindQMinusSet | src/au/edu/unimelb/processmining/accuracy/abstraction/mkAutomaton/MarkovianAutomatonAbstraction.java:450-473 | `findQMinusSet(a, qf)` is exactly the reachable states with a '-' transition into qf. |
| Splice.RedirectInitialTransitions | src/au/edu/unimelb/processmining/accuracy/abstraction/mkAutomaton/MarkovianAutomatonAbstraction.java:441-447 | q0A gains exactly the transitions of q0B that do not enter qbPlus; every other state is unchanged. |
| Splice.DropMinusInto | src/au/edu/unimelb/processmining/accuracy/abstraction/mkAutomaton/MarkovianAutomatonAbstraction.java:175-180 | Each state of Q loses exactly its '-' transitions into qf; other states and accept flags are unchanged. |
| Splice.ContinueAfterMinus | src/au/edu/unimelb/processmining/accuracy/abstraction/mkAutomaton/MarkovianAutomatonAbstraction.java:127-136 | Each state of Q takes over the transitions of qbPlus and then drops its '-' transitions into qfA; nothing else changes. |
| Splice.DropPlusInto | src/au/edu/unimelb/processmining/accuracy/abstraction/mkAutomaton/MarkovianAutomatonAbstraction.java:139 | q0A loses exactly its '+' transitions into the given target (none when the target is null). |
| Splice.ClearTransitions | src/au/edu/unimelb/processmining/accuracy/abstraction/mkAutomaton/MarkovianAutomatonAbstraction.java:145 | `getTransitions().clear()` empties one state and changes nothing else. |
| Splice.AbsorbStart | src/au/edu/unimelb/processmining/accuracy/abstraction/mkAutomaton/MarkovianAutomatonAbstraction.java:121 | Step 1 of both splices: a's start accepts when either start accepts and holds both starts' transitions; all other states are the juxtaposed arena. |
| Splice.MkSequence | src/au/edu/unimelb/processmining/accuracy/abstraction/mkAutomaton/MarkovianAutomatonAbstraction.java:111-149 | `mkSequence` throws NoSuchElement exactly when a has no reachable accepting state; otherwise qfA is one, QaMinus is exactly the reachable '-' predecessors of qfA, the spliced arena is valid, starts at q0A and is, state by state, the one steps 1-6 leave (`SequenceSpliced`), and the result is its k-window projection. |
| Splice.SequenceSplice | src/au/edu/unimelb/processmining/accuracy/abstraction/mkAutomaton/MarkovianAutomatonAbstraction.java:115-146 | Steps 1-6 of `mkSequence`: q0A accepts when either start does and holds a's, q0B's and (when it continues) qbPlus's moves, without the '-' into qfA and the '+' into qbPlus, plus q0B's moves not into qbPlus; the other states of QaMinus take qbPlus's moves and lose their '-' into qfA; q0B is emptied; every other state is the joined arena's. |
| Splice.SpliceAfterStart | src/au/edu/unimelb/processmining/accuracy/abstraction/mkAutomaton/MarkovianAutomatonAbstraction.java:126-146 | Steps 3-6 of `mkSequence` on the arena step 1 left give exactly the state-by-state arena `SequenceSpliced` describes. |
| Splice.RedirectStart | src/au/edu/unimelb/processmining/accuracy/abstraction/mkAutomaton/MarkovianAutomatonAbstraction.java:139-145 | Steps 4-6 of both splices: q0A loses its '+' moves into qbPlus and gains q0B's moves not into qbPlus, q0B loses its moves, nothing else changes. |
| Splice.PairWith | src/au/edu/unimelb/processmining/accuracy/abstraction/mkAutomaton/MarkovianAutomatonAbstraction.java:170-177 | The loop pairs every state of Q with the target; a null target with a non-empty Q is the NullPointerException of `addEpsilons`. |
| Splice.MkLoop | src/au/edu/unimelb/processmining/accuracy/abstraction/mkAutomaton/MarkovianAutomatonAbstraction.java:151-198 | `mkLoop` throws NoSuchElement exactly when either operand has no reachable accepting state and NullPointer exactly when a non-empty Q-minus set meets a null '+' successor; otherwise the Q-minus sets are exactly the reachable '-' predecessors of qfA and qfB after step 1, the epsilon pairs are exactly QaMinus x {qBPlus} and QbMinus x {qAPlus}, the spliced arena is, state by state, the one steps 1-6 leave (`LoopSpliced`), and the result is its k-window projection. |
| Splice.LoopFrom | src/au/edu/unimelb/processmining/accuracy/abstraction/mkAutomaton/MarkovianAutomatonAbstraction.java:155-197 | `mkLoop` once qfA and qfB are chosen: the same exceptions, pairs, arena and projection as `MkLoop` states. |
| Splice.LoopSplice | src/au/edu/unimelb/processmining/accuracy/abstraction/mkAutomaton/MarkovianAutomatonAbstraction.java:162-191 | Steps 1-6 of `mkLoop`: the Q-minus sets, the NullPointer condition and the epsilon pairs as in `MkLoop`; QbMinus drops its '-' moves into qfB, every state absorbs its epsilon closure, then q0A is redirected and q0B emptied as in `mkSequence`. |
| Splice.LoopSets | src/au/edu/unimelb/processmining/accuracy/abstraction/mkAutomaton/MarkovianAutomatonAbstraction.java:163-167 | Steps 1-2 of `mkLoop`: q0A absorbs q0B, and both Q-minus sets are exactly the reachable '-' predecessors of qfA and qfB in the absorbed arena. |
| Splice.LoopEpsilonPairs | src/au/edu/unimelb/processmining/accuracy/abstraction/mkAutomaton/MarkovianAutomatonAbstraction.java:170-177 | The pairs of step 3 are exactly QaMinus x {qBPlus} and QbMinus x {qAPlus}; the NullPointerException comes exactly from a non-empty set with a null partner. |
| Splice.DropThenEpsilons | src/au/edu/unimelb/processmining/accuracy/abstraction/mkAutomaton/MarkovianAutomatonAbstraction.java:179-191 | QbMinus loses exactly its '-' moves into qfB, every state absorbs its closure under the pairs, and steps 4-6 follow; q0B ends without transitions. |
| Splice.EpsilonsThenRedirect | src/au/edu/unimelb/processmining/accuracy/abstraction/mkAutomaton/MarkovianAutomatonAbstraction.java:182-191 | `addEpsilons(epsilonPairs)`: every state absorbs its closure; then steps 4-6 redirect q0A and empty q0B. |
| SpliceLanguage.SequenceLanguage | src/au/edu/unimelb/processmining/accuracy/abstraction/mkAutomaton/MarkovianAutomatonAbstraction.java:111-146 | For operands in the shape of minimal window automata, the arena `mkSequence` splices accepts exactly: a's words (but those ending in the replaced '-' into qfA), b's words not starting with '+', and every word a reads up to its '-' that b continues after its '+'. |
| SpliceLanguage.SequenceSound | src/au/edu/unimelb/processmining/accuracy/abstraction/mkAutomaton/MarkovianAutomatonAbstraction.java:126-146 | Every word the spliced arena accepts is one of those three kinds. |
| SpliceLanguage.AComplete | src/au/edu/unimelb/processmining/accuracy/abstraction/mkAutomaton/MarkovianAutomatonAbstraction.java:126-136 | A word of a is accepted by the spliced arena unless it ends with the '-' a continuation replaced. |
| SpliceLanguage.BComplete | src/au/edu/unimelb/processmining/accuracy/abstraction/mkAutomaton/MarkovianAutomatonAbstraction.java:139-145 | A word of b not starting with '+' is accepted: q0A takes over q0B's other moves. |
| SpliceLanguage.JoinComplete | src/au/edu/unimelb/processmining/accuracy/abstraction/mkAutomaton/MarkovianAutomatonAbstraction.java:126-136 | A word a reads up to its '-' into qfA and b continues after its '+' is accepted. |
| SpliceLanguage.SplicedMoves | src/au/edu/unimelb/processmining/accuracy/abstraction/mkAutomaton/MarkovianAutomatonAbstraction.java:115-146 | The state-by-state arena gives q0A's, a's, the jumps' and b's moves exactly as the language proof uses them. |
| SpliceLanguage.LeafNormal | src/au/edu/unimelb/processmining/accuracy/abstraction/mkAutomaton/MarkovianAutomatonAbstraction.java:65-94 | Every leaf `mkLeafNode` builds for a non-marker letter is in the shape the sequence language needs: a fresh start, markers on their own transitions, '+' only at the start into one state, one accepting sink. |
| Substrings.SubstringLanguage | src/au/edu/unimelb/processmining/accuracy/abstraction/mkAutomaton/MarkovianAutomatonAbstraction.java:401-418 | The new start state accepts exactly the windows (infixes of paths from reachable states) of the original automaton. |
| Substrings.ComputeAllSubstringsAutomaton | src/au/edu/unimelb/processmining/accuracy/abstraction/mkAutomaton/MarkovianAutomatonAbstraction.java:401-418 | `computeAllSubstringsAutomaton` accepts exactly the windows of a and reads the same letters as a. |
| Substrings.SubstringAlphabet | src/au/edu/unimelb/processmining/accuracy/abstraction/mkAutomaton/MarkovianAutomatonAbstraction.java:401-418 | The substring automaton and the original use exactly the same letters. |
| Substrings.MarkReachable | src/au/edu/unimelb/processmining/accuracy/abstraction/mkAutomaton/MarkovianAutomatonAbstraction.java:407-410 | Every reachable state becomes accepting and is paired with the new state; transitions are unchanged. |
| Substrings.GetAlphabet | src/au/edu/unimelb/processmining/accuracy/abstraction/mkAutomaton/MarkovianAutomatonAbstraction.java:475-487 | `getAlphabet` is exactly the letters on transitions of reachable states, '+' and '-' excluded. |
| Substrings.AddLetters | src/au/edu/unimelb/processmining/accuracy/abstraction/mkAutomaton/MarkovianAutomatonAbstraction.java:478-484 | The loops over one state's transitions add exactly their characters other than '+' and '-'. |
| Window.UpdateMemory | src/au/edu/unimelb/processmining/accuracy/abstraction/mkAutomaton/MarkovianAutomatonAbstraction.java:392-399 | `updateMemory` keeps min(/m/+1, k) characters, a suffix of m followed by c. |
| Window.UpdateMemoryAppends | src/au/edu/unimelb/processmining/accuracy/abstraction/mkAutomaton/MarkovianAutomatonAbstraction.java:394-395 | Below the bound the memory just grows by c. |
| Window.MemoryAfterIsWindow | src/au/edu/unimelb/processmining/accuracy/abstraction/mkAutomaton/MarkovianAutomatonAbstraction.java:392-399 | Reading a word character by character from the empty memory leaves its last min(/w/, k) characters. |
| Window.ContSound | src/au/edu/unimelb/processmining/accuracy/abstraction/mkAutomaton/MarkovianAutomatonAbstraction.java:352-356 | A continuation PES stays well formed and its memory still labels a path into its state. |
| Window.RestartSound | src/au/edu/unimelb/processmining/accuracy/abstraction/mkAutomaton/MarkovianAutomatonAbstraction.java:369 | A restart PES is well formed and sound: its one-character memory labels a transition from a reachable state. |
| Window.Lookup | src/au/edu/unimelb/processmining/accuracy/abstraction/mkAutomaton/MarkovianAutomatonAbstraction.java:357-365 | `pesToState.get` returns the state of p, creating and enqueueing one exactly when p is new; the worklist invariant is kept. |
| Window.Connect | src/au/edu/unimelb/processmining/accuracy/abstraction/mkAutomaton/MarkovianAutomatonAbstraction.java:366 | After the lookup, the state of the current PES has an edge on c into the state of p. |
| Window.Move | src/au/edu/unimelb/processmining/accuracy/abstraction/mkAutomaton/MarkovianAutomatonAbstraction.java:352-379 | One character of a transition adds both the continuation edge and the restart edge from s0. |
| Window.MoveRange | src/au/edu/unimelb/processmining/accuracy/abstraction/mkAutomaton/MarkovianAutomatonAbstraction.java:351-380 | Every character of the transition makes its move. |
| Window.Expand | src/au/edu/unimelb/processmining/accuracy/abstraction/mkAutomaton/MarkovianAutomatonAbstraction.java:350-381 | All moves of the current PES are in place after the loop over its transitions. |
| Window.ProcessHead | src/au/edu/unimelb/processmining/accuracy/abstraction/mkAutomaton/MarkovianAutomatonAbstraction.java:337-380 | One round takes the head off, sets its accept flag by the test of lines 344-345 and expands it unless it accepts; the set of unmet PESs shrinks or the queue does. |
| Window.UniverseShrinks | src/au/edu/unimelb/processmining/accuracy/abstraction/mkAutomaton/MarkovianAutomatonAbstraction.java:358-365 | Meeting a new PES leaves strictly fewer PESs of the finite universe to meet, so the worklist ends. |
| Window.RunWorklist | src/au/edu/unimelb/processmining/accuracy/abstraction/mkAutomaton/MarkovianAutomatonAbstraction.java:336-382 | When the queue is empty every PES met carries its flag and every non-accepting one all its edges. |
| Window.ComputeMkAbstraction | src/au/edu/unimelb/processmining/accuracy/abstraction/mkAutomaton/MarkovianAutomatonAbstraction.java:296-388 | `computeMkAbstraction` builds the k-window projection of the automaton (the invariant all the language lemmas use). |
| WindowLanguage.ProjectionSound | src/au/edu/unimelb/processmining/accuracy/abstraction/mkAutomaton/MarkovianAutomatonAbstraction.java:296-388 | The projection accepts only k-windows of the original automaton and shorter non-empty words it accepts from its start. |
| WindowLanguage.ProjectionWindows | src/au/edu/unimelb/processmining/accuracy/abstraction/mkAutomaton/MarkovianAutomatonAbstraction.java:350-380 | For k >= 2 the projection accepts every k-window of the original automaton. |
| WindowLanguage.PathMemory | src/au/edu/unimelb/processmining/accuracy/abstraction/mkAutomaton/MarkovianAutomatonAbstraction.java:366 | A word read from a projection state leads to a PES whose memory is the old memory followed by the word. |
| WindowAutomaton.CreateMkAutomaton | src/au/edu/unimelb/processmining/accuracy/abstraction/mkAutomaton/MarkovianAutomatonAbstraction.java:489-587 | `createMKAutomaton(alphabet, k)` accepts exactly the k-windows over the alphabet for 2 <= k <= 5 (nothing otherwise), and its open states read every letter. |
| WindowAutomaton.WindowShapeLanguage | src/au/edu/unimelb/processmining/accuracy/abstraction/mkAutomaton/MarkovianAutomatonAbstraction.java:496-584 | The shared shape of the four hand-built automata accepts exactly the k-windows. |
| WindowAutomaton.WindowWordShape | src/au/edu/unimelb/processmining/accuracy/abstraction/mkAutomaton/MarkovianAutomatonAbstraction.java:496-584 | Every accepted window has 2..k characters, '+' only first and '-' only last. |
| WindowAutomaton.PairWindows | src/au/edu/unimelb/processmining/accuracy/abstraction/mkAutomaton/MarkovianAutomatonAbstraction.java:496-507 | For k = 2 the windows are exactly "+-", "+c", "cd" and "c-". |
| WindowAutomaton.ShapeReadsAll | src/au/edu/unimelb/processmining/accuracy/abstraction/mkAutomaton/MarkovianAutomatonAbstraction.java:500-506 | Every state of the window automaton that neither accepts nor is a dead end reads every letter. |
| Product.SubsetStep | src/au/edu/unimelb/processmining/accuracy/abstraction/mkAutomaton/MarkovianAutomatonAbstraction.java:435-438 | The step of a determinized operand is empty exactly when no state of the set moves on c. |
| Product.Initial | src/au/edu/unimelb/processmining/accuracy/abstraction/mkAutomaton/MarkovianAutomatonAbstraction.java:244 | The initial triple is made of the three start states. |
| Product.Next | src/au/edu/unimelb/processmining/accuracy/abstraction/mkAutomaton/MarkovianAutomatonAbstraction.java:271-273 | `stepIfPossible` on each component keeps each component a state of its automaton. |
| Product.GetRelevantLetters | src/au/edu/unimelb/processmining/accuracy/abstraction/mkAutomaton/MarkovianAutomatonAbstraction.java:420-433 | `getRelevantLetters` is exactly the letters either operand state can read. |
| Product.Lookup | src/au/edu/unimelb/processmining/accuracy/abstraction/mkAutomaton/MarkovianAutomatonAbstraction.java:275-282 | `stateMap.get(nextTriple)` finds or creates the triple's state, enqueueing exactly new triples. |
| Product.Connect | src/au/edu/unimelb/processmining/accuracy/abstraction/mkAutomaton/MarkovianAutomatonAbstraction.java:283 | The current triple gains its edge on the letter into the next triple's state. |
| Product.Expand | src/au/edu/unimelb/processmining/accuracy/abstraction/mkAutomaton/MarkovianAutomatonAbstraction.java:265-284 | After the letter loop every letter a non-leaf triple moves on has its edge. |
| Product.ProcessHead | src/au/edu/unimelb/processmining/accuracy/abstraction/mkAutomaton/MarkovianAutomatonAbstraction.java:252-284 | One round: the head is taken off, marked accepting when the window state accepts (lines 260-263), else expanded; progress is measured on a finite universe. |
| Product.RunWorklist | src/au/edu/unimelb/processmining/accuracy/abstraction/mkAutomaton/MarkovianAutomatonAbstraction.java:252-285 | At the end every triple carries its flag and every non-leaf triple all its edges. |
| Product.BuildProduct | src/au/edu/unimelb/processmining/accuracy/abstraction/mkAutomaton/MarkovianAutomatonAbstraction.java:240-285 | The worklist's result is the product of the operands and the window automaton. |
| Product.ProductLanguage | src/au/edu/unimelb/processmining/accuracy/abstraction/mkAutomaton/MarkovianAutomatonAbstraction.java:240-285 | The product accepts from a state exactly the words its triple accepts by moves until a leaf. |
| Product.ProductSound | src/au/edu/unimelb/processmining/accuracy/abstraction/mkAutomaton/MarkovianAutomatonAbstraction.java:260-283 | Every accepting run of the product spells moves of the triples until a leaf. |
| Product.ProductComplete | src/au/edu/unimelb/processmining/accuracy/abstraction/mkAutomaton/MarkovianAutomatonAbstraction.java:260-283 | Every sequence of moves until a leaf is an accepting run of the product. |
| Product.ProductDeterministic | src/au/edu/unimelb/processmining/accuracy/abstraction/mkAutomaton/MarkovianAutomatonAbstraction.java:275-283 | No product state has two edges on the same letter (the memo is keyed by value). |
| Product.AllowedInAlphabet | src/au/edu/unimelb/processmining/accuracy/abstraction/mkAutomaton/MarkovianAutomatonAbstraction.java:212-214 | Any non-marker letter a reachable triple moves on belongs to the joint alphabet. |
| Product.WindowStuck | src/au/edu/unimelb/processmining/accuracy/abstraction/mkAutomaton/MarkovianAutomatonAbstraction.java:260-273 | A window state that neither accepts nor moves keeps the product from accepting. |
| Product.ProductInWindow | src/au/edu/unimelb/processmining/accuracy/abstraction/mkAutomaton/MarkovianAutomatonAbstraction.java:265-283 | Whatever the product accepts, its window automaton accepts too. |
| Product.MkParallel | src/au/edu/unimelb/processmining/accuracy/abstraction/mkAutomaton/MarkovianAutomatonAbstraction.java:200-294 | `mkParallel` builds the product of the operands' window automata and `createMKAutomaton(alphabet, k)` over the joint alphabet: a valid automaton accepting exactly the words of triple moves until a leaf, all of them k-windows over that alphabet; each factor's language is stated exactly. |
| Product.ParallelWindow | src/au/edu/unimelb/processmining/accuracy/abstraction/mkAutomaton/MarkovianAutomatonAbstraction.java:216 | A word the product accepts is a window of the window automaton's language. |
| AcceptedStrings.SimpleSound | src/au/edu/unimelb/processmining/accuracy/abstraction/mkAutomaton/MarkovianAutomatonAbstraction.java:641-659 | Every word counted along a simple path is accepted by the automaton. |
| AcceptedStrings.SimpleBounded | src/au/edu/unimelb/processmining/accuracy/abstraction/mkAutomaton/MarkovianAutomatonAbstraction.java:642-643 | A simple path never revisits a state, so its word is shorter than the number of states. |
| AcceptedStrings.GetAcceptedStrings | src/au/edu/unimelb/processmining/accuracy/abstraction/mkAutomaton/MarkovianAutomatonAbstraction.java:634-639 | `getAcceptedStrings` counts exactly the words of simple accepting paths from the start, each at least once. |
| AcceptedStrings.Explore | src/au/edu/unimelb/processmining/accuracy/abstraction/mkAutomaton/MarkovianAutomatonAbstraction.java:641-659 | `explore` adds exactly the words that continue `current` along simple paths avoiding the visited states; counts only grow. |
| Compile.LeafLanguage | src/au/edu/unimelb/processmining/accuracy/abstraction/mkAutomaton/MarkovianAutomatonAbstraction.java:65-94 | The language of `mkLeafNode`, case by case for tau, k = 2, k > 2 and k < 2. |
| Compile.LeafBounded | src/au/edu/unimelb/processmining/accuracy/abstraction/mkAutomaton/MarkovianAutomatonAbstraction.java:65-94 | A leaf accepts only k-bounded windows of at least two characters. |
| Compile.ProjectionBounded | src/au/edu/unimelb/processmining/accuracy/abstraction/mkAutomaton/MarkovianAutomatonAbstraction.java:296-388 | The projection is valid and accepts only k-bounded words. |
| Compile.ComputeMk | src/au/edu/unimelb/processmining/accuracy/abstraction/mkAutomaton/MarkovianAutomatonAbstraction.java:34-63 | `computeMk` yields a valid automaton accepting only k-bounded words; an unmapped activity, or a loop meeting a null '+' successor, gives NullPointer, a missing accepting state NoSuchElement, an unknown operator UnsupportedOperation; choices over leaves give the union of the leaf languages. |
| Compile.Combine | src/au/edu/unimelb/processmining/accuracy/abstraction/mkAutomaton/MarkovianAutomatonAbstraction.java:52-62 | The operator dispatch: Xor is the union, Concurrent never fails, and each error comes from the operator that can raise it. |
| Labels.CharAt | src/au/edu/unimelb/processmining/accuracy/abstraction/mkAutomaton/MarkovianAutomatonAbstraction.java:593-599 | The counter after n increments of 'a' is ('a' + n) mod 0x10000: Java `char` wrap-around. |
| Labels.Next | src/au/edu/unimelb/processmining/accuracy/abstraction/mkAutomaton/MarkovianAutomatonAbstraction.java:599 | `c++` on a `char` wraps at 0x10000. |
| Labels.CharAtInjective | src/au/edu/unimelb/processmining/accuracy/abstraction/mkAutomaton/MarkovianAutomatonAbstraction.java:599 | Characters handed out fewer than 0x10000 increments apart differ. |
| Labels.InitializedInverse | src/au/edu/unimelb/processmining/accuracy/abstraction/mkAutomaton/MarkovianAutomatonAbstraction.java:590-604 | After `initializeLabelMapping` with at most 0x10000 names the two maps are inverse. |
| Labels.MatchedInjective | src/au/edu/unimelb/processmining/accuracy/abstraction/mkAutomaton/MarkovianAutomatonAbstraction.java:618-626 | `matchIDsTree` gives different matched activities different characters. |
| Labels.MatchedMarker | src/au/edu/unimelb/processmining/accuracy/abstraction/mkAutomaton/MarkovianAutomatonAbstraction.java:628-631 | With at most 65484 matched names, '-' is free and is mapped to and from the artificial marker 10000. |
| Labels.MinusHanded | src/au/edu/unimelb/processmining/accuracy/abstraction/mkAutomaton/MarkovianAutomatonAbstraction.java:611-624 | '-' is handed out exactly when more than 65484 labels were matched. |
| Abstraction.MarkovianAutomatonAbstraction.InitializeLabelMapping | src/au/edu/unimelb/processmining/accuracy/abstraction/mkAutomaton/MarkovianAutomatonAbstraction.java:590-604 | Every non-null activity name gets the next character, in index order. |
| Abstraction.MarkovianAutomatonAbstraction.MatchIDsTree | src/au/edu/unimelb/processmining/accuracy/abstraction/mkAutomaton/MarkovianAutomatonAbstraction.java:607-632 | The tree's names known to the log get fresh characters in order; '-' goes to the artificial marker unless taken. |
| Abstraction.MarkovianAutomatonAbstraction.FromLog | src/au/edu/unimelb/processmining/accuracy/abstraction/mkAutomaton/MarkovianAutomatonAbstraction.java:23-26 | The log-model constructor aligns labels, then compiles: a valid k-bounded automaton, or one of the three exceptions. |
| Abstraction.MarkovianAutomatonAbstraction.FromTree | src/au/edu/unimelb/processmining/accuracy/abstraction/mkAutomaton/MarkovianAutomatonAbstraction.java:29-32 | The model-model constructor numbers the tree's activities, then compiles. |
| LocalSearch.FirstSettled | src/au/edu/unimelb/processmining/optimization/IteratedLocalSearch.java:575-619 | The retry loops of `start`/`restart` stop at the first attempt that settles; every earlier one does not. |
| LocalSearch.Best | src/au/edu/unimelb/processmining/optimization/IteratedLocalSearch.java:247-266 | The F-score after the acceptance loop is at least the starting one, at least every finished neighbour's, and either the start or one of them. |
| LocalSearch.Accept | src/au/edu/unimelb/processmining/optimization/IteratedLocalSearch.java:247-266 | The acceptance loop moves to a finished neighbour with the best F-score exactly when some neighbour reaches the current score; otherwise nothing changes. |
| LocalSearch.NextMismatch | src/au/edu/unimelb/processmining/optimization/IteratedLocalSearch.java:183 | `nextMismatch()` returns the next subtrace, or null once they are used up. |
| LocalSearch.CollectNeighbours | src/au/edu/unimelb/processmining/optimization/IteratedLocalSearch.java:182-193 | At most `neighbourhood` neighbours, fewer only when the mismatches run out; each is a copy of the current graph on which some mutations failed and then one succeeded (a fresh copy after every success). |
| LocalSearch.AppliedSnoc | src/au/edu/unimelb/processmining/optimization/IteratedLocalSearch.java:186 | Trying one more mutation on the copy applies it to the graph the earlier failed tries left, and keeps them all failed when it fails too. |
| LocalSearch.Neighbourhood | src/au/edu/unimelb/processmining/optimization/IteratedLocalSearch.java:174-215 | Precision above fitness explores `enhance` neighbours of the current graph, otherwise `reduce` neighbours of it. |
| LocalSearch.OutcomesFor | src/au/edu/unimelb/processmining/optimization/IteratedLocalSearch.java:227-243 | One outcome per neighbour, in order; a neighbour without an answer is unfinished. |
| LocalSearch.SafeName | src/au/edu/unimelb/processmining/optimization/IteratedLocalSearch.java:99 | `replaceAll("[/\\.]", "_")` keeps the length and replaces exactly '/', '\' and '.'. |
| IteratedSearch.IteratedLocalSearch.constructor | src/au/edu/unimelb/processmining/optimization/IteratedLocalSearch.java:63-65 | A new search has nothing current, nothing best and no perturbation. |
| IteratedSearch.IteratedLocalSearch.Start | src/au/edu/unimelb/processmining/optimization/IteratedLocalSearch.java:575-619 | `start` retries until an evaluation finishes in time, then takes its accuracy, graph and model; the best record is untouched. |
| IteratedSearch.IteratedLocalSearch.Perturb | src/au/edu/unimelb/processmining/optimization/IteratedLocalSearch.java:668-718 | `perturb` counts itself and moves to the perturbed graph exactly when its evaluation finished. |
| IteratedSearch.IteratedLocalSearch.PerturbUntilDone | src/au/edu/unimelb/processmining/optimization/IteratedLocalSearch.java:223 | `while (!perturb(...));` stops at the first finished perturbation. |
| IteratedSearch.IteratedLocalSearch.Record | src/au/edu/unimelb/processmining/optimization/IteratedLocalSearch.java:125-136 | A current F-score above the last best appends fitness, precision, F-score and iteration and makes the current graph and model the best; otherwise the no-improvement counter grows. The best F-scores keep strictly increasing. |
| IteratedSearch.IteratedLocalSearch.Round | src/au/edu/unimelb/processmining/optimization/IteratedLocalSearch.java:173-278 | A round explores at most `neighbourhood` neighbours, moves exactly when a neighbour reaches the current F-score, and perturbs when there is no neighbour or after `order` rounds without a move. |
| IteratedSearch.IteratedLocalSearch.SearchOptimalSolution | src/au/edu/unimelb/processmining/optimization/IteratedLocalSearch.java:71-319 | The search returns the best model recorded, runs at most `maxit` counted rounds, and records the start's F-score as the first best at iteration 0. |
| RepeatedSearch.RepeatedLocalSearch.constructor | src/au/edu/unimelb/processmining/optimization/RepeatedLocalSearch.java:46-48 | A new search has nothing current, nothing best and no restart. |
| RepeatedSearch.RepeatedLocalSearch.RestartOnce | src/au/edu/unimelb/processmining/optimization/RepeatedLocalSearch.java:542-588 | One `restart` is counted; a null graph ends the retries with no current graph, a finished evaluation replaces the current state, anything else retries. |
| RepeatedSearch.RepeatedLocalSearch.Restart | src/au/edu/unimelb/processmining/optimization/RepeatedLocalSearch.java:542-588 | `restart` retries until a null graph or a finished evaluation. |
| RepeatedSearch.RepeatedLocalSearch.Record | src/au/edu/unimelb/processmining/optimization/RepeatedLocalSearch.java:99-110 | As in the iterated search: a new best is appended exactly when the current F-score beats the last one. |
| RepeatedSearch.RepeatedLocalSearch.Reevaluate | src/au/edu/unimelb/processmining/optimization/RepeatedLocalSearch.java:112-135 | After a raise the best graph becomes the current one, scored at the new order, and the counter resets. |
| RepeatedSearch.RepeatedLocalSearch.Round | src/au/edu/unimelb/processmining/optimization/RepeatedLocalSearch.java:142-258 | As in the iterated search, with a restart instead of a perturbation. |
| RepeatedSearch.RepeatedLocalSearch.Iteration | src/au/edu/unimelb/processmining/optimization/RepeatedLocalSearch.java:96-264 | The order is raised by one exactly after `maxIterationsBeforeRaise` (10) rounds without a new best while it is below `maxK` (5); a timed-out re-evaluation restarts without counting. |
| RepeatedSearch.RepeatedLocalSearch.SearchOptimalSolution | src/au/edu/unimelb/processmining/optimization/RepeatedLocalSearch.java:50-293 | The search returns the best model, never lowers the order nor raises it past 5, and records the start as the first best. |
| Evaluator.FScore | src/au/edu/unimelb/processmining/optimization/MarkovianBasedEvaluator.java:91 | The F-score is 0 when both measures are 0, otherwise it times their sum equals twice their product. |
| Evaluator.FScoreSymmetric | src/au/edu/unimelb/processmining/optimization/MarkovianBasedEvaluator.java:91 | The F-score does not depend on the order of the two measures. |
| Evaluator.FScoreBetween | src/au/edu/unimelb/processmining/optimization/MarkovianBasedEvaluator.java:91 | For non-negative measures the F-score lies between the smaller and the larger. |
| Evaluator.FScoreUnit | src/au/edu/unimelb/processmining/optimization/MarkovianBasedEvaluator.java:91 | Measures in [0, 1] give an F-score in [0, 1]; two perfect measures give 1. |
| Evaluator.FScoreZero | src/au/edu/unimelb/processmining/optimization/MarkovianBasedEvaluator.java:91 | For non-negative measures the F-score is 0 exactly when one of them is 0. |
| Evaluator.Behaviour | src/au/edu/unimelb/processmining/optimization/MarkovianBasedEvaluator.java:69-79 | The tree wins over the BPMN diagram; with neither the evaluator throws IllegalStateException. |
| Evaluator.ModelSlot | src/au/edu/unimelb/processmining/optimization/MarkovianBasedEvaluator.java:97 | Slot 4 holds the tree when one is set, otherwise the BPMN diagram, null only when both are. |
| Evaluator.Processed | src/au/edu/unimelb/processmining/optimization/MarkovianBasedEvaluator.java:81-85 | An exception propagates; a non-null abstraction stays non-null after removing differences. |
| Evaluator.EvaluationShape | src/au/edu/unimelb/processmining/optimization/MarkovianBasedEvaluator.java:62-109 | The result has 6 slots, or 5 exactly for a null abstraction with nothing to remove; slot 2 is the F-score of slots 0 and 1; any failure zeroes the scores. |
| Evaluator.RemoveDifferences | src/au/edu/unimelb/processmining/optimization/MarkovianBasedEvaluator.java:81-85 | The loop over the differences removes each in order from a non-null abstraction; a null abstraction with a difference to remove throws NullPointerException. |
| Evaluator.Call | src/au/edu/unimelb/processmining/optimization/MarkovianBasedEvaluator.java:62-109 | `call()` fills its array exactly as `Evaluation` describes, so the shape proved in `EvaluationShape` holds of it. |
| Binary.RightKind | src/au/edu/unimelb/processmining/optimization/ProcessTreeToBinaryConverter.java:93-119 | The new block is never a loop or an unknown type: loops become Xor, unknown types Xor, the rest keep their type. |
| Binary.CreateBlockOfSameType | src/au/edu/unimelb/processmining/optimization/ProcessTreeToBinaryConverter.java:93-119 | An empty block of that type named after the original with "_binary". |
| Binary.Present | src/au/edu/unimelb/processmining/optimization/ProcessTreeToBinaryConverter.java:64-70 | The non-null children, in order, with the same leaves. |
| Binary.ConvertStep | src/au/edu/unimelb/processmining/optimization/ProcessTreeToBinaryConverter.java:34-84 | One level of the conversion: null and leaves unchanged, wide blocks with a null first child unchanged, other wide blocks split into the first child and a new block of the rest. |
| Binary.ConvertSettles | src/au/edu/unimelb/processmining/optimization/ProcessTreeToBinaryConverter.java:34-84 | After the conversion every block has at most two children unless its first child is null. |
| Binary.ConvertBinary | src/au/edu/unimelb/processmining/optimization/ProcessTreeToBinaryConverter.java:34-84 | Without null first children in wide blocks the result is a binary tree. |
| Binary.ConvertKeepsLeaves | src/au/edu/unimelb/processmining/optimization/ProcessTreeToBinaryConverter.java:34-84 | The conversion keeps the leaves in their left-to-right order. |
| Binary.ConvertIdempotent | src/au/edu/unimelb/processmining/optimization/ProcessTreeToBinaryConverter.java:34-84 | Converting twice is converting once. |
| Binary.ProcessTree.ToBinary | src/au/edu/unimelb/processmining/optimization/ProcessTreeToBinaryConverter.java:22-27 | The tree is converted in place and returned; a null root stays null; the result is settled, keeps its leaves and is binary when no wide block has a null first child. |
| IdText.ParseInt | src/au/edu/unimelb/services/MkAbstractionTest.java:175 | `Integer.parseInt` gives a 32-bit value or NumberFormatException, always for "", "-" and "+". |
| IdText.ParseDecimal | src/au/edu/unimelb/services/MkAbstractionTest.java:175 | Parsing the decimal form of an id that fits an int gives the id back. |
| IdText.Split | src/au/edu/unimelb/services/MkAbstractionTest.java:169 | `split(":")` gives at least one piece, none containing ':'. |
| IdText.SplitJoin | src/au/edu/unimelb/services/MkAbstractionTest.java:169 | Splitting undoes joining with ':' for tokens without ':'. |
| IdText.TokenChar | src/au/edu/unimelb/services/MkAbstractionTest.java:173-181 | A token contributes exactly the first character of its id's label when it parses to an id with a non-empty label, and nothing otherwise. |
| IdText.ConvertedAllShape | src/au/edu/unimelb/services/MkAbstractionTest.java:164-189 | One output per non-empty input, each made only of labels' first characters and no longer than its tokens. |
| IdText.ConvertedAllOrder | src/au/edu/unimelb/services/MkAbstractionTest.java:167-186 | Each output is the conversion of the matching non-empty input, in order. |
| IdText.Filter | src/au/edu/unimelb/services/MkAbstractionTest.java:168 | The non-empty inputs, in order. |
| IdText.ConvertOne | src/au/edu/unimelb/services/MkAbstractionTest.java:169-185 | The loop over the tokens of one string builds `Converted`, the characters `TokenChar` gives each token. |
| IdText.ConvertIDsToLabels | src/au/edu/unimelb/services/MkAbstractionTest.java:164-189 | `convertIDsToLabels` returns `ConvertedAll`, whose shape and order `ConvertedAllShape` and `ConvertedAllOrder` state. |
| IdText.IdStringConverted | src/au/edu/unimelb/services/MkAbstractionTest.java:164-189 | Converting the text form of ids with non-empty labels gives back their labels' first characters. |
| StartEnd.Wrapped | src/au/edu/unimelb/services/MkAbstractionTest.java:139-159 | The wrapped root is Seq(marker, Seq(root, marker)). |
| StartEnd.WrappedLeaves | src/au/edu/unimelb/services/MkAbstractionTest.java:154-157 | The wrapped tree runs the markers around the original's leaves. |
| StartEnd.WrappedConvert | src/au/edu/unimelb/services/MkAbstractionTest.java:134-162 | Wrapping and the binary conversion commute. |
| StartEnd.WrappedBinary | src/au/edu/unimelb/services/MkAbstractionTest.java:134-162 | Wrapping keeps a binary tree binary. |
| StartEnd.WrapWithStartEnd | src/au/edu/unimelb/services/MkAbstractionTest.java:134-162 | A new tree whose root is the wrapped original root. |
| SubtraceText.Rewrite | src/au/edu/unimelb/services/MkAbstractionTest.java:82-84 | A leading '+' becomes '-'; nothing else changes. |
| SubtraceText.LabelFor | src/au/edu/unimelb/services/MkAbstractionTest.java:88-93 | The first label in key order starting with c; no such label is the NullPointerException of unboxing `get(null)`, an empty label the StringIndexOutOfBounds of `charAt(0)`. |
| SubtraceText.IdsSpec | src/au/edu/unimelb/services/MkAbstractionTest.java:87-95 | The ids succeed exactly when every character has a label, and then hold one id per character, each of a label starting with that character. |
| SubtraceText.SubtraceShape | src/au/edu/unimelb/services/MkAbstractionTest.java:85-99 | A subtrace holds the ids of the rewritten string, followed by INIT when it ends with '-'. |
| SubtraceText.RoundTrip | src/au/edu/unimelb/services/MkAbstractionTest.java:78-105 | With inverse id maps, converting a subtrace's ids back to text gives the rewritten string. |
| SubtraceText.Subtrace | src/au/edu/unimelb/services/MkAbstractionTest.java:85-99 | The loop over the characters builds `SubtraceOf`, whose content `SubtraceShape` states, failing with the first character's exception. |
| SubtraceText.ErrPropagates | src/au/edu/unimelb/services/MkAbstractionTest.java:87-95 | A character without an id fails the whole string with its exception. |
| SubtraceText.MkAutomatonToSubtraceAbstraction | src/au/edu/unimelb/services/MkAbstractionTest.java:78-105 | `mkAutomatonToSubtraceAbstraction` adds one subtrace per accepted string, each with count 1, or throws the first string's exception. |
| SubtraceText.AbstractionErr | src/au/edu/unimelb/services/MkAbstractionTest.java:81-102 | A string that throws ends the whole call with its exception. |
| LabelIds.Visible | src/au/edu/unimelb/services/MkAbstractionTest.java:195-197 | The labels of exactly the visible transitions. |
| LabelIds.Fresh | src/au/edu/unimelb/services/MkAbstractionTest.java:198 | The labels not yet known, each once. |
| LabelIds.AssignSpec | src/au/edu/unimelb/services/MkAbstractionTest.java:195-204 | Registering gives the new labels consecutive ids from `id` on, in first-seen order, in both maps. |
| LabelIds.AssignNumbered | src/au/edu/unimelb/services/MkAbstractionTest.java:195-204 | Counting on from the next unused id keeps the two maps inverse bijections. |
| LabelIds.AssignFromEmpty | src/au/edu/unimelb/services/MkAbstractionTest.java:191-204 | From empty maps the labels are numbered 1, 2, 3, ... in first-seen order. |
| LabelIds.Registry.CreateDummySimpleLog | src/au/edu/unimelb/services/MkAbstractionTest.java:191-204 | As written: the counter restarts at 1 on every call while the static maps persist. |
| LabelIds.Registry.CreateDummySimpleLogCorrected | src/au/edu/unimelb/services/MkAbstractionTest.java:191-204 | With the counter kept beside the maps the maps stay inverse bijections across calls. |
| LabelIds.RestartedCounterCollides | src/au/edu/unimelb/services/MkAbstractionTest.java:193 | A second call meeting a new label reuses id 1 and breaks the inverse maps. |
| Optimizer.LastIndexOf | src/au/edu/unimelb/processmining/optimization/AutomatedProcessDiscoveryOptimizer.java:57 | `lastIndexOf`: -1 or the last position of the character. |
| Optimizer.IndexOf | src/au/edu/unimelb/processmining/optimization/AutomatedProcessDiscoveryOptimizer.java:58 | `indexOf`: -1 or the first position of the character. |
| Optimizer.FileName | src/au/edu/unimelb/processmining/optimization/AutomatedProcessDiscoveryOptimizer.java:57 | The text after the last '/', which holds no '/'. |
| Optimizer.DirectoryPart | src/au/edu/unimelb/processmining/optimization/AutomatedProcessDiscoveryOptimizer.java:57 | The path is a directory part, empty or ending in '/', followed by the file name. |
| Optimizer.ModelName | src/au/edu/unimelb/processmining/optimization/AutomatedProcessDiscoveryOptimizer.java:57-59 | The name fails with StringIndexOutOfBounds exactly when the file name has no '.'. |
| Optimizer.ModelNameStem | src/au/edu/unimelb/processmining/optimization/AutomatedProcessDiscoveryOptimizer.java:57-59 | The name is the file's stem up to its first '.', prefixed with "PUB" unless it contains "PRT". |
| Optimizer.ModelNameMarked | src/au/edu/unimelb/processmining/optimization/AutomatedProcessDiscoveryOptimizer.java:59 | Every derived name contains "PRT" or starts with "PUB". |
| Optimizer.BpmnStrategy | src/au/edu/unimelb/processmining/optimization/AutomatedProcessDiscoveryOptimizer.java:77-94 | `searchOptimalBPMN` runs a search exactly for the four BPMN tags. |
| Optimizer.TreeStrategy | src/au/edu/unimelb/processmining/optimization/AutomatedProcessDiscoveryOptimizer.java:104-121 | `searchOptimalTree` runs a search exactly for the four tree tags. |
| Optimizer.DispatchPartition | src/au/edu/unimelb/processmining/optimization/AutomatedProcessDiscoveryOptimizer.java:35 | Every tag is handled by exactly one of the two searches, and each tree tag names the same strategy as its BPMN tag. |
| Optimizer.AutomatedProcessDiscoveryOptimizer.constructor | src/au/edu/unimelb/processmining/optimization/AutomatedProcessDiscoveryOptimizer.java:49-53 | The optimizer stores order, strategy tag and miner tag. |
| Optimizer.AutomatedProcessDiscoveryOptimizer.Init | src/au/edu/unimelb/processmining/optimization/AutomatedProcessDiscoveryOptimizer.java:55-73 | `init` throws on a file name without '.', returns false when the log cannot be loaded, and otherwise stores the log, the name and a proxy and returns true. |
| Optimizer.AutomatedProcessDiscoveryOptimizer.SearchOptimalBPMN | src/au/edu/unimelb/processmining/optimization/AutomatedProcessDiscoveryOptimizer.java:75-100 | A BPMN tag calls the chosen search with MAXIT 10, NEIGHBOURHOOD 5 and TIMEOUT 300000 and stores its result; a tree tag leaves everything as it was. |
| Optimizer.AutomatedProcessDiscoveryOptimizer.SearchOptimalTree | src/au/edu/unimelb/processmining/optimization/AutomatedProcessDiscoveryOptimizer.java:102-137 | A tree tag calls the chosen search with the same constants and stores its result; a BPMN tag leaves everything as it was. |

## Left out

- Determinisation and minimisation: `removeDeadTransitions`, `determinize`, `minimize` and `expandSingleton` are not modelled. They appear at MarkovianAutomatonAbstraction.java:103-106, :146, :192-195, :286-289 and :384-386. Each keeps the language of the automaton it is applied to. But `mkSequence` and `mkLoop` read the structure of their operands, not only their language: the accepting state `getAcceptStates().iterator().next()`, the state `q0B.step('+')`, `findQMinusSet` and the removal of the '+' moves. In the source these operands are always minimal deterministic automata. In the model they are the automata the model's operators build, without normalisation. The lines on `Splice.MkSequence`, `Splice.MkLoop`, `Compile.ComputeMk`, `Automata.Union` and `Window.ComputeMkAbstraction` below say what this costs.
- Splice.MkSequence: its language is proved (`SpliceLanguage.SequenceLanguage`) only for operands in the shape of a minimal window automaton (`Splice.Normal`): no move into the start, the markers on transitions of their own, '+' read only at the start and into one state, and one reachable accepting state, without transitions. Every leaf has this shape (`SpliceLanguage.LeafNormal`). That the minimal automaton of every operator's language has it too is argued here, not proved, because the model does not build that automaton. The argument: such a language is finite, so no non-empty prefix leads back to the start; no accepted word extends another, so one accepting state remains and it has no moves; and '+' occurs only first. For an operand the model builds without normalisation, the splice can read a different structure from the source's. For example, in ->(c, x(a,b)) with k = 2, the model's union keeps two '+' moves from its start and the splice redirects only one of them, so the model accepts "+a" or "+b" where the source accepts neither. And in Seq(Seq(a,b),c), the inner projection has several accepting states, where the source's minimal operand has one.
- Splice.MkLoop: the spliced arena is stated state by state (`Splice.LoopSpliced`), but its language is not derived. Its operands are not normalised either, so the divergence described for `Splice.MkSequence` applies here too. The `determinize`/`minimize` between the splice and the projection (lines 193-195) are not modelled either, and neither changes the language.
- Compile.ComputeMk: the language is characterised exactly only for trees made of choices over leaves. For every tree, the contract states validity, the k-bound on the accepted words and the exceptions. Because operands are not normalised (see above), the model's language for a sequence or loop node over composite children can differ from the source's. For such nodes the model proves the k-bound, not the source's language.
- Compile.ComputeMk: operator nodes with fewer than two children are excluded by its precondition (`HasOperands`). The source calls `getChild(node, 0)` and `getChild(node, 1)` on them without a check (MarkovianAutomatonAbstraction.java:49-50). What `EfficientTree.getChild` returns past a node's last child depends on the tree's flat array, which is not part of this model; neither the constructors nor the binary converter rule such nodes out.
- Abstraction.MarkovianAutomatonAbstraction.FromLog: inherits the exclusion of operator nodes with fewer than two children from `Compile.ComputeMk`.
- Abstraction.MarkovianAutomatonAbstraction.FromTree: inherits the exclusion of operator nodes with fewer than two children from `Compile.ComputeMk`.
- Compile.Combine: Xor returns `Automata.Union` without normalisation, and Sequence and Loop splice operands that are not normalised, as the lines on those members say.
- Automata.Union: the model returns the union automaton itself, not the minimal deterministic automaton `mkExclusive` returns (lines 103-106). The language is the same (`Automata.UnionLanguage`), but the structure a parent `mkSequence` or `mkLoop` reads is not.
- Window.ComputeMkAbstraction: the `determinize`/`minimize` at the end (lines 384-386) are not modelled, so a parent splice reads the projection itself, with possibly several accepting states, rather than its minimal automaton.
- Java `char` loops: the loops `for (char c = t.getMin(); c <= t.getMax(); c++)` at MarkovianAutomatonAbstraction.java:351, :424, :429 and :479 never end when a transition's max is '\uFFFF', because `c++` wraps to 0. The model's loops run over integers from min to max and always end. A label reaches '\uFFFF' only after 65438 increments of the counter (`Labels.CharAt`).
- Hash order: where the source takes `iterator().next()` of a hash set (the accepting state in `mkSequence`/`mkLoop`), the model chooses any element. Loops over hash sets and maps run in an order given as a parameter.
- Triple and PES identity: the memo maps of `mkParallel` and `computeMkAbstraction` are keyed by value. For `PES` that is how `equals`/`hashCode` behave. `Triple` overrides `equals` but not `hashCode`, so Java would in practice find almost no equal key. The model gives the intended lookup by value, and its language is the same either way.
- Negative k: `k` is a natural number. A negative k makes `updateMemory` throw.
- Window.ComputeMkAbstraction: for k = 1 the projection accepts only first letters, because a restart with a one-character memory is already accepting. The model keeps this behaviour but proves nothing specific about it.
- WindowLanguage.ProjectionWindows: completeness is proved for the k-windows. It is not proved for the shorter words accepted along the initial path, which need an additional condition (no accepting state part-way).
- AcceptedStrings.GetAcceptedStrings: the set of counted words is exact; the counts are only bounded below by 1.
- Threads, executors, timeouts, `sleep` and the clock: an evaluation either finished in time or did not, and that is given. The time budget of the searches becomes the length of the sequence of rounds. Where the source retries forever, the model stops when the answers given run out.
- IteratedSearch.IteratedLocalSearch.SearchOptimalSolution: the round's catch-all handler (IteratedLocalSearch.java:280-283), which perturbs, is not modelled, although modelled inputs reach it. The evaluation of a null abstraction without differences returns 5 slots, not 6 (`Evaluator.EvaluationShape`), and its scores are 0. When the current F-score is at most 0, the acceptance loop takes such a result. It overwrites the accuracy, `staProcess` and the model, and then `(long) result[5]` throws ArrayIndexOutOfBoundsException at :258. Any accepted result with a null abstraction (an exception in the evaluator gives one too, with 6 slots) leaves `staProcess` null, and the next round's `staProcess.computeDifferences` at :203 then throws NullPointerException. In both cases the source perturbs. The model moves to the neighbour and goes on. In `start` and `perturb`, the same 5-slot result throws at :602 and :702 and the attempt is retried, which the model's `Failed` attempt stands for.
- RepeatedSearch.RepeatedLocalSearch.Iteration: as in the iterated search, the round's catch-all handler (RepeatedLocalSearch.java:260-263), which restarts, is not modelled. It is reached by the same inputs: an accepted 5-slot result when the current F-score is 0 throws at :234, and any accepted result with a null abstraction leaves `staProcess` null, which throws at :176 in the next round. The model moves to the neighbour instead of restarting. In `restart`, the 5-slot result throws at :571 and the attempt is retried, which the model's `Failed` attempt stands for.
- LocalSearch.CollectNeighbours: the neighbours are a sequence, where the source collects them in a hash set that would merge equal graphs.
- `staProcess` and the subtrace abstractions: `computeDifferences`, `nextMismatch`, `removeUnusedSubtraces`, `addSubtrace` and the `Subtrace` class are given as answers or recorded as calls. The measures `computeMAFitness` and `computeMAPrecision` are given as functions.
- Floating point: scores are `real`. NaN and rounding are not modelled.
- I/O: the CSV writer, console output, PTML/BPMN export, log import (`init` is given the loaded log or the failure), `MkAbstractionTest.main`, `loadProcessTree`, `getReferenceAbstraction`, the benchmarks and `MkAbstraction.java` are not part of this model.
- TabuSearch, SimulatedAnnealing and `EfficientTree2processTree` are not part of this model. They appear only as the classes a tag selects.
- Binary.ProcessTree.ToBinary: the tree is a value. The in-place surgery on shared nodes, `addNode`/`setProcessTree`, the NullPointerException of `clearBlockChildren` on a block outside any tree, and a null tree argument are not modelled.
- IdText.Split: empty pieces are kept. Java drops trailing empty pieces, but the conversion skips empty tokens, so the result is the same.
- IdText.ParseInt: only ASCII digits are accepted. Java's `parseInt` also accepts other Unicode digits.
- StartEnd.WrapWithStartEnd: the registration of the nodes with the new tree (`addNode`) is not modelled. Both markers are leaves labelled "-", as in the source.

## Findings

| source | as written | input that shows it | evidently intended | confidence | as-written member | corrected member |
|---|---|---|---|---|---|---|
| src/au/edu/unimelb/services/MkAbstractionTest.java:191-204 | the id counter `id` starts at 1 on every call, while `label2id` and `id2label` are static and keep earlier labels | a first call on a net with visible label "a", then a call on a net with the new label "c": both get id 1, and `id2label[1]` is overwritten with "c" | ids stay unique across calls and the two maps stay inverse | not executed | LabelIds.Registry.CreateDummySimpleLog, LabelIds.RestartedCounterCollides | LabelIds.Registry.CreateDummySimpleLogCorrected, LabelIds.AssignNumbered |
