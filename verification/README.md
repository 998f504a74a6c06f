# losys in Dafny

losys manipulates ESOPs, exclusive-or sums of cubes over at most 32 variables. This project models the
programs that transform them and proves that the transformations keep the function, together with the
invariants, costs and bounds that the programs rely on.

An assignment is the set of variables that are true. A cube is a pair of 32-bit words, a mask and a polarity,
as in `cube32`; its meaning is the conjunction of its literals. An ESOP denotes the exclusive or of its cubes:
`XorSeq` for a list, `XorSet` for a set.

| file | what it holds |
|---|---|
| `Bits.dfy` | 32-bit words read as sets of variables; one law per word operation |
| `Cube32.dfy` | cubes, their operations and what these do to every literal |
| `Esop.dfy` | sums of cubes and how edits change them |
| `CubeLinks.dfy` | `exorlink` and its tables: a group of codes is a walk from one cube to the other |
| `ExorcismRuns.dfy` | the exact effect of each step of the minimiser on cubes and queues, and what follows for passes and runs |
| `Exorcism.dfy` | the minimiser `exorcism_mngr`: hash buckets, pair queues, bookmark and rollback, passes, termination |
| `Bdd.dfy`, `Psdkro.dfy` | decision diagrams, and the pseudo-Kronecker extractor `psdkro` with its memo and path stack |
| `Aig.dfy`, `AigCollapse.dfy` | and-inverter graphs, and the extractor `aig_extr_mngr` |
| `EsopToAig.dfy` | from cube lists back to a graph |
| `AigToBdd.dfy` | from a graph to the diagrams of its outputs |
| `Cofactors.dfy` | a graph with one input fixed, built anew |
| `CollapseTool.dfy` | cofactoring, collapsing and stitching in `tools/collapse` |
| `ExorcismTool.dfy` | reading and minimising in `tools/exorcism` |
| `TwoLvl32.dfy`, `Pla.dfy` | two-level representations, and the PLA text written and read |
| `PlaFiles.dfy` | files with any number of outputs, their kind and counts, and where the rows end |
| `PlaReading.dfy` | what the reader makes of comment lines, and which texts it never finishes |
| `MpmcQueue.dfy` | the bounded queue of many producers and consumers, in every interleaving |

The classes keep the source's fields. Where the source iterates over an `unordered_set`, the model picks
elements in any order, so the results hold for every iteration order. Ghost parameters and results
(`vs`, `k`, `states`, `passes`, `rounds`, `sums`, `flipped`, `graphs`, `parts`, `steps`) exist for the proofs only.

Five places where the code and what it says of itself differ, or where a property has a limit. Each is stated
exactly:

* `cube32_zero` is also the code of the all-negative minterm over 32 variables, so `compute_and` drops that
  cube when it is a product. `LostExactly` says which products are dropped and `ComputeAnd` when the stored list
  is still right. For whole runs, a stored sum or an output is right at every assignment if and only if it does
  not flip (`SumExactIff`, `AigExtrMngr.Run`, `Collapse`): `Flips` follows the graph and counts dropped products
  modulo 2. One that flips is wrong exactly where no variable is true. None flips that does not depend on all 32
  inputs (`FlipNeedsAll`), nor with an input cofactored (`Collapse`). The nor of 32 inputs does flip
  (`NorChainFlips`, `CollapseNorChain`).
* A PLA file's comment lines are said to be ignored. In the header a comment without a space goes on into the
  next line; `CommentInHeaderIff` says exactly when the rows still start from the same counts, kind and text,
  `CommentAtHeadIff` when whole files always read the same, and `CommentBeforeRows` how a row is lost. Among the
  rows a comment is read as a row or ends the reading; `CommentRowIgnoredIff` says exactly when it is ignored,
  `CommentInFileIff` the same for whole files, and `CommentAddsOne` gives one that changes the function.
* The reader does not stop on some texts: exactly those whose header declares neither inputs nor outputs and then
  has failed or leaves only blank rows (`EndlessTextIff`), such as an empty file or one that begins with `.i x`.
* `aig_to_bdd` never gives the constant object a handle. `AigToBdd` says exactly on which graphs an operation meets
  that empty handle, and `CollapseBdd` what it takes for the tool to get there.
* The number of cubes in the header is read as a 32-bit number. Reading back what was written is exact if and
  only if the count fits (`RoundTripIff`).

## Model

| member | source | states |
|---|---|---|
| Cube32.DistanceCounts | source/kernel/cube32.hpp:126-138 | the difference word marks exactly the variables whose literals differ, and the distance is their number |
| Cube32.DistanceZero | source/kernel/cube32.hpp:133-138 | two canonical cubes are at distance 0 if and only if they are equal |
| Cube32.DistanceSymmetric | source/kernel/cube32.hpp:133-138 | the distance does not depend on the order of the cubes |
| Cube32.LiteralCountGap | source/kernel/cube32.hpp:88-138 | the literal counts of two cubes differ by at most their distance |
| Cube32.LiteralsDetermineCube | source/kernel/cube32.hpp:26-50 | a canonical cube is determined by its literals |
| Cube32.ThreeXor | source/kernel/cube32.hpp:140-148 | of three cubes that carry the three literals at one variable and agree elsewhere, each is the exclusive or of the others |
| Cube32.MergeIsXor | source/kernel/cube32.hpp:143-148 | at distance 1, `merge` gives one canonical cube equal to the exclusive or of the two, over the same variables |
| Cube32.RotateLiterals | source/kernel/cube32.hpp:101-106 | `rotate` moves one variable's literal one place round the cycle absent, positive, negative and leaves all others |
| Cube32.RotateThrice | source/kernel/cube32.hpp:101-106 | rotating a variable three times gives the cube back |
| Cube32.NeighboursAreRotations | source/kernel/cube32.hpp:101-138 | a cube is at distance 1 if and only if it is a single or double rotation of some variable |
| Cube32.InvertComplements | source/kernel/cube32.hpp:98-99 | inverting a cube of one literal complements it |
| Cube32.AddLitRestricts | source/kernel/cube32.hpp:91-96 | a literal of a fresh variable restricts a cube to one half of the assignments and adds just that variable |
| Cube32.IntersectCompatible | source/kernel/cube32.hpp:79-86 | without opposite literals, `operator&` is conjunction and stays canonical |
| Cube32.IntersectClash | source/kernel/cube32.hpp:79-86 | cubes with opposite literals are never true together and `operator&` yields the zero code |
| Cube32.OnlyOneIsEmpty | source/kernel/cube32.hpp:36-124 | the only canonical cube without literals is the constant 1 |
| Bits.LessIff | source/kernel/cube32.hpp:70-71 | a word is less than another exactly when the other has the highest digit in which they differ |
| Esop.XorSeqIsXorSet | source/opt/exorcism32.cpp:275-279 | a list without repetitions denotes the same function as the set of its cubes, so order in a hash set does not matter |
| CubeLinks.Exorlink | source/opt/exorcism32.cpp:16-54 | the loop nest over one group computes, row by row, the cubes that `Link` gives |
| CubeLinks.RowLiterals | source/opt/exorcism32.cpp:27-49 | taking set bits lowest first, the k-th code decides the k-th differing variable in increasing order, and nothing else changes |
| CubeLinks.LinkRowLiterals | source/opt/exorcism32.cpp:20-51 | a row agrees with both cubes where they agree and carries at each differing variable the first, second or third literal, as its code says |
| CubeLinks.PathXor | source/opt/exorcism32.cpp:26-53 | the exclusive or of the first i rows telescopes to the two ends of the walk so far |
| CubeLinks.LinkPreserves | source/opt/exorcism32.cpp:16-54 | a group that walks the differing variables in any order yields canonical cubes whose exclusive or is that of the pair |
| CubeLinks.LinkSymmetric | source/opt/exorcism32.cpp:22-23 | the rows do not depend on the order of the two cubes |
| CubeLinks.SortedAscends | source/opt/exorcism32.cpp:22-23 | the pair is put in ascending order: where the masks, or for equal masks the polarities, first differ from the top, the second cube has the digit |
| CubeLinks.Groups2Follow | source/opt/exorcism32.hpp:53-54 | both ExorLink-2 groups are such walks, one for each order of the two variables |
| CubeLinks.Groups3Follow | source/opt/exorcism32.hpp:56-61 | all six ExorLink-3 groups are such walks, each with its own order |
| CubeLinks.Groups3Complete | source/opt/exorcism32.hpp:56-61 | every order of three variables has its group |
| Exorcism.ScanWindow | source/opt/exorcism32.cpp:81-84 | every cube within distance 3 lies in the buckets n-3..n+3 |
| Exorcism.ScanComplete | source/opt/exorcism32.cpp:81-99 | a scan of the clipped window that finds no neighbour has seen every cube within distance 3 of the whole set and collected exactly the pairs at distance 2 and 3 |
| Exorcism.ExorcismMngr.Scan | source/opt/exorcism32.cpp:78-99 | the scan finds a cube within distance 1 if there is one, and otherwise collects exactly the pairs at distance 2 and 3 |
| Exorcism.ExorcismMngr.AddCube | source/opt/exorcism32.cpp:76-107 | the gain is 0 exactly when no cube is within distance 1; the new set is one that cancelling or merging with some neighbour, and again with the merged cube, leads to, and toggles the sum by exactly the added cube; the total changes by 1 - gain; a mere probe leaves the set; both queues grow by exactly the pairs of the cube that ends up stored or probed, each once; no two stored cubes are ever within distance 1, each is in the bucket of its literal count, and both queues stay complete |
| Exorcism.ExorcismMngr.MergeInto | source/opt/exorcism32.cpp:87-90 | absorbing a cube at distance 1 toggles the sum by the added cube, whatever the recursion does, and counts one more than the recursive gain |
| Exorcism.ExorcismMngr.Cancel | source/opt/exorcism32.cpp:91-94 | equal cubes vanish together, with gain 2 |
| Exorcism.ExorcismMngr.Settle | source/opt/exorcism32.cpp:100-106 | storing and flushing the collected pairs keeps every pair at distance 2 and 3 queued |
| Exorcism.ExorcismMngr.PairsBookmark | source/opt/exorcism32.cpp:56-60 | both queue lengths are remembered |
| Exorcism.ExorcismMngr.PairsRollback | source/opt/exorcism32.cpp:62-66 | both queues are cut back to the remembered lengths |
| Exorcism.ExorcismMngr.NCubes | source/opt/exorcism32.cpp:68-74 | the bucket sizes add up to the number of stored cubes |
| Exorcism.ExorcismMngr.TryGroup2 | source/opt/exorcism32.cpp:133-146 | an ExorLink-2 group succeeds exactly when one of its cubes is within distance 1 of a remaining cube; then it has added both cubes, the earlier absorbed one first, and with them the sum of the pair and at most one cube, while a failed probe leaves its pairs on the queues |
| Exorcism.ExorcismMngr.AttemptLink2 | source/opt/exorcism32.cpp:124-155 | an attempt succeeds exactly when the pair is not stuck; then it replaces the pair by the first group that is not blocked, with nothing left on the queues of a group tried in vain, keeps the function and strictly shrinks the set; a failed one restores set and queues and pushes the pair back |
| Exorcism.ExorcismMngr.HandleFront2 | source/opt/exorcism32.cpp:116-156 | the queue is not empty when its front is taken; set and both queues change exactly as a stale, stuck or replaced pair has it; a replaced one saves a cube; both queues stay complete |
| Exorcism.ExorcismMngr.Exorlink2 | source/opt/exorcism32.cpp:109-169 | a pass handles as many pairs as are queued at its start, in order, each with its exact effect on set and queues, keeps the function and returns exactly the cubes saved; every set on the way is canonical, over the variables and without mergeable pairs; both queues stay complete; when the pass returns 0 the set is unchanged and locally optimal |
| ExorcismRuns.OptimalWhenAllStuck | source/opt/exorcism32.cpp:109-169 | when every distance-2 pair is queued and every queued pair is stuck, no ExorLink-2 of any pair of the set can merge or cancel |
| ExorcismRuns.StuckSymmetric | source/opt/exorcism32.cpp:22-155 | being stuck does not depend on the order of the pair |
| ExorcismRuns.CompletePop | source/opt/exorcism32.cpp:117-153 | popping uncovers at most that pair, dropping a stale pair uncovers none, and pushing the pair back restores completeness; for either queue |
| ExorcismRuns.CompleteInsert | source/opt/exorcism32.cpp:95-105 | queueing a new cube's pairs at a distance keeps the queue for that distance complete for the larger set |
| Exorcism.ExorcismMngr.AddOthers | source/opt/exorcism32.cpp:203-206 | after one row of a group of three is absorbed, adding the other two in order adds the whole group's sum and at most two cubes |
| Exorcism.ExorcismMngr.TryGroups3 | source/opt/exorcism32.cpp:197-211 | the search over six groups and three probes each succeeds exactly when some row of some group is within distance 1 of a remaining cube, and then has added the first such group, its first such row ahead; failing leaves set and queues as they were |
| Exorcism.ExorcismMngr.AttemptLink3 | source/opt/exorcism32.cpp:187-214 | an ExorLink-3 attempt replaces the pair by the first group that is not blocked, keeps the function and never grows the set; a failed one restores it and the pair is not queued again |
| Exorcism.ExorcismMngr.HandleFront3 | source/opt/exorcism32.cpp:179-215 | the queue is not empty when its front is taken; set and both queues change exactly as a stale, stuck or replaced pair has it; a replaced one keeps the function and does not grow the set; a pair at distance 3 is missing from its queue only if it was dropped as stuck |
| Exorcism.ExorcismMngr.Exorlink3 | source/opt/exorcism32.cpp:171-228 | a pass handles as many pairs as are queued at its start, in order, each with its exact effect on set and queues, keeps the function and never grows the set, so the unsigned difference it returns does not underflow; afterwards a pair at distance 3 is queued or was dropped as stuck in this pass or an earlier one |
| Exorcism.ExorcismMngr.constructor | source/opt/exorcism32.cpp:230-243 | the cubes are added one after the other to what is empty at first; the set denotes the input list, has no more cubes and no mergeable pair, and every pair at distance 2 and 3 is queued |
| Exorcism.ExorcismMngr.BothPasses | source/opt/exorcism32.cpp:255-256 | both passes in turn, each as `Exorlink2` and `Exorlink3` have it, keep the function and account for the cubes saved; with gain 0 the first left a locally optimal set, and the second leads from it to the present one with the same size and function throughout |
| Exorcism.ExorcismMngr.Round | source/opt/exorcism32.cpp:254-266 | exactly twelve passes, of ExorLink-2 and ExorLink-3 in turn, with the same account |
| Exorcism.ExorcismMngr.Run | source/opt/exorcism32.cpp:245-280 | rounds of twelve passes in turn, ending with the first three in a row that save nothing, at most 3(N+1) of them; the result lists the cubes that are left, each once, denotes the original function with no more cubes and has no mergeable pair; a locally optimal set of the same size leads to it by the last ExorLink-3 pass |
| ExorcismRuns.MinimisedEnds | source/opt/exorcism32.cpp:245-280 | what a minimisation of a list comes to has no repetition and no mergeable pair, and the last ExorLink-3 pass leads to it from a locally optimal set of the same size and function, so it is locally optimal itself if that pass changed nothing |
| ExorcismRuns.PassSettles | source/opt/exorcism32.cpp:171-228 | an ExorLink-3 pass that saves nothing keeps size and function at each of its steps |
| Exorcism.Exorcise | source/opt/exorcism32.hpp:64-74 | for any number of declared inputs every output becomes what its own minimisation comes to, from adding its cubes to the last round, with the same function and no more cubes; kind, inputs and outputs stay |
| ExorcismTool.MinimisePla | tools/exorcism/main.cpp:86-87 | for every text, each output of a reading that finishes becomes what its minimisation comes to, with the same function and no more cubes; a reading that does not finish stays so |
| Bdd.XorEval | source/bdd/collapse.cpp:101-105 | the exclusive or of two diagrams denotes the exclusive or of their functions |
| Bdd.XorOrdered | source/bdd/collapse.cpp:101-105 | it is again reduced and ordered |
| Bdd.AndEval | source/xforms/aig_to_bdd.cpp:82-82 | the conjunction of two diagrams denotes the conjunction of their functions |
| Bdd.AndOrdered | source/xforms/aig_to_bdd.cpp:82-82 | it is again reduced and ordered |
| Bdd.NotEval | source/xforms/aig_to_bdd.cpp:82-96 | the complement of a diagram denotes the complement and stays reduced and ordered |
| Bdd.Canonicity | source/bdd/collapse.cpp:80-95 | two reduced ordered diagrams of one function are the same diagram, so looking diagrams up by identity is right |
| Bdd.TestedMatters | source/bdd/collapse.cpp:97-104 | a variable that a reduced diagram tests changes the value of the function somewhere |
| Psdkro.PlanXor | source/bdd/collapse.cpp:107-123 | whatever expansion is chosen at each variable and branch, the cubes denote the function and mention only later variables |
| Psdkro.PlanDistinct | source/bdd/collapse.cpp:89-90 | whatever is chosen, all cubes are different, so inserting them in a set cancels and loses nothing |
| Psdkro.EmittedIsPlanned | source/bdd/collapse.cpp:78-127 | what the extractor emits is what one such plan yields, skipped variables included |
| Psdkro.CostIsLength | source/bdd/collapse.cpp:129-167 | the predicted cost is the number of cubes emitted |
| Psdkro.ChoiceIff | source/bdd/collapse.cpp:153-164 | a costliest of the three parts is left out, and among several the zero cofactor before the one cofactor before their exclusive or; the cost is the sum of the other two |
| Psdkro.PlanCostsMore | source/bdd/collapse.cpp:129-167 | no choice of positive Davio, negative Davio or Shannon at each expansion in the fixed order gives fewer cubes |
| Psdkro.CostBound | source/bdd/collapse.cpp:148-164 | with k >= 1 variables left a function costs at most 2^(k-1) cubes |
| Psdkro.CostFitsWord | source/bdd/collapse.cpp:149-151 | over at most 32 variables no cost leaves the range of a 32-bit unsigned number |
| Psdkro.EmittedExact | source/bdd/collapse.cpp:25-37 | the emitted cubes denote the diagram, are all different, are as many as predicted and as few as any plan gives |
| Psdkro.EmittedSupport | source/bdd/collapse.cpp:84-88 | the emitted cubes mention only variables that the diagram tests |
| Psdkro.JoinCombined | source/bdd/collapse.cpp:84-123 | marking a variable on the path has the same effect as adding its literal to every cube below |
| Psdkro.MemoInsert | source/bdd/collapse.cpp:165-165 | storing a node after its three parts keeps the memo right and closed |
| Psdkro.PsdkroMngr.CountCubesMemo | source/bdd/collapse.cpp:129-167 | the memoised count equals the plain recursion and leaves the memo closed; it descends on the top variable |
| Psdkro.PsdkroMngr.EmitPath | source/bdd/collapse.cpp:83-92 | the cube of the path's literals joins the set |
| Psdkro.PsdkroMngr.GenerateExact | source/bdd/collapse.cpp:78-127 | the backtracking adds exactly the emitted cubes of the diagram, each joined with the path, and leaves path stack and variable values as they were; every node it looks up is in the memo, so the assertion there holds |
| Psdkro.PsdkroMngr.ExtractEsop | source/bdd/collapse.cpp:25-37 | a null pointer gives no cubes; otherwise the list denotes the diagram, repeats no cube, has exactly the cubes of the chosen expansions, is over its support and is optimal among all plans |
| Aig.ConeBound | source/base/collapse.cpp:41-51 | an object depends on inputs of the graph only |
| AigToBdd.AigToBdd | source/xforms/aig_to_bdd.cpp:57-116 | the diagrams built node by node are reduced, ordered and denote the outputs at every assignment, with an empty handle for an output that is the constant 0; there is no result if and only if a node uses the constant or an output complements it |
| AigCollapse.NothingLost | source/base/collapse.cpp:121-123 | where some variable is mentioned by no cube of either list, no product is taken for zero by mistake |
| AigCollapse.LostExactly | source/kernel/cube32.hpp:79-123 | a product of two cubes is taken for zero by mistake if and only if neither is 1, neither has a positive literal and together they mention all 32 variables |
| AigCollapse.LossExample | source/base/collapse.cpp:121-123 | two cubes over 32 variables, both true at the all-negative assignment, whose product is false there |
| AigCollapse.NoNeighbour | source/base/collapse.cpp:141-159 | when no rotation of the first n variables is stored, no stored cube over them is at distance 1 |
| AigCollapse.AigExtrMngr.FindNeighbour | source/base/collapse.cpp:141-159 | the search returns the first rotation that is stored, once before twice and lowest position first, which is at distance 1, or shows that none is |
| AigCollapse.AigExtrMngr.AddCube | source/base/collapse.cpp:130-162 | the worklist ends where toggling, merging with the first stored rotation and toggling the merged cube leads; that toggles the sum by exactly the added cube and keeps all cubes other than the constant 1 at distance 2 or more |
| AigCollapse.AigExtrMngr.PrepareInput | source/base/collapse.cpp:81-102 | the prepared list denotes the stored sum, complemented exactly when asked |
| AigCollapse.AigExtrMngr.AddProduct | source/base/collapse.cpp:109-124 | one step of the double loop adds the conjunction of the two cubes, or nothing when that product is lost |
| AigCollapse.AigExtrMngr.ComputeAnd | source/base/collapse.cpp:104-128 | the stored list, without repeated or mergeable cubes, denotes the conjunction of the operands at every assignment if and only if an even number of products is lost, and is wrong at most where no variable is true; no other list changes |
| AigCollapse.AigExtrMngr.LoadInputs | source/base/collapse.cpp:31-44 | every input holds exactly its positive literal, everything else is empty |
| AigCollapse.AigExtrMngr.CollapseNode | source/base/collapse.cpp:46-51 | one node: the product of both prepared fanin sums is stored over the cone of the node, and no other stored sum changes |
| AigCollapse.SumRealised | source/base/collapse.cpp:28-79 | every stored sum denotes its object at every assignment, except that one that flips is wrong exactly where no variable is true |
| AigCollapse.SumExactIff | source/base/collapse.cpp:28-79 | a stored sum is right at every assignment if and only if it does not flip |
| AigCollapse.FlipNeedsAll | source/base/collapse.cpp:28-79 | only an object whose structural support holds all 32 inputs can flip |
| AigCollapse.InputStopsFlips | source/base/collapse.cpp:46-51 | a node with an uncomplemented input for a fanin never flips, even when its other fanin does |
| AigCollapse.KeptExactly | source/base/collapse.cpp:46-51 | nothing flips if and only if every node has lost an even number of products |
| AigCollapse.NorChainFlips | source/base/collapse.cpp:121-126 | on the chain of nodes that computes the nor of 32 inputs the sum stored for the output is empty whatever the iteration order, though the output is true where no input is |
| AigCollapse.AigExtrMngr.Run | source/base/collapse.cpp:28-79 | every node sum and every output list is right at every assignment, the output possibly complemented, except that those which flip are wrong exactly where no variable is true; an output list is right everywhere if and only if its object does not flip; none flips that does not depend on all 32 inputs, so none does for at most 31; lists are over the structural support; each stored list has no repetition and no mergeable pair but with the constant 1, and each output list is the stored one as prepared |
| EsopToAig.ValueKept | source/xforms/esop_to_aig.cpp:24-44 | appending objects changes no earlier value |
| EsopToAig.GiaMan.HashAnd | source/xforms/esop_to_aig.cpp:37-37 | the literal returned denotes the conjunction and no existing object changes |
| EsopToAig.GiaMan.HashXor | source/xforms/esop_to_aig.cpp:41-41 | the literal returned denotes the exclusive or and no existing object changes |
| EsopToAig.BuildCube | source/xforms/esop_to_aig.cpp:32-40 | the conjunction built literal by literal denotes the cube |
| EsopToAig.BuildSum | source/xforms/esop_to_aig.cpp:25-43 | the root denotes the exclusive or of the cube list, the empty list being constant 0 |
| EsopToAig.EsopToAig | source/xforms/esop_to_aig.cpp:17-51 | every output of the graph denotes its cube list at every assignment |
| Cofactors.DupCofactorVar | tools/collapse/main.cpp:126-126 | the copy has the cofactor of every output, takes the fixed input out of its structural support, and has no node with a constant fanin |
| CollapseTool.OneCofactor | tools/collapse/main.cpp:123-127 | an assignment belongs to cofactor i exactly when its first variables spell i, so to exactly one of the 2^m |
| CollapseTool.AllLitsRestrict | tools/collapse/main.cpp:142-149 | after adding the cofactor literals a list denotes its function on the assignments of its cofactor and false elsewhere |
| CollapseTool.Cofactor | tools/collapse/main.cpp:123-128 | graph i is the original with its first m inputs fixed to the bits of i, and the original itself for m = 0 |
| CollapseTool.AddCofactorLiterals | tools/collapse/main.cpp:142-149 | the nested loops add exactly these literals to every cube of every output |
| CollapseTool.CollapseCofactor | tools/collapse/main.cpp:139-149 | a cofactor collapsed with the AIG method, with its literals, denotes the output restricted to its assignments, for up to 32 inputs; an output can flip only when no input is fixed |
| CollapseTool.SumStep | tools/collapse/main.cpp:157-162 | concatenating the next list extends the sum from the first i cofactors to the first i + 1 |
| CollapseTool.Stitch | tools/collapse/main.cpp:153-166 | concatenating all 2^m lists denotes every output (flipped, if its cofactor lists are), step by step: without the option each next list is the concatenation, with it what minimising the concatenation comes to, so that every final list is without repetitions and mergeable pairs |
| CollapseTool.Collapse | tools/collapse/main.cpp:121-166 | with the AIG method, for up to 32 inputs and any number of cofactored ones, the result denotes every output, except that those which flip are wrong exactly where no variable is true, so an output is right everywhere if and only if it does not flip; none flips with an input cofactored, with at most 31 inputs, or without depending on all 32, and without cofactoring those flip whose stored sums do; it is stitched from all 2^m cofactor lists, minimised after each one exactly when asked |
| CollapseTool.CollapseNorChain | tools/collapse/main.cpp:121-166 | the tool run on the nor of 32 inputs, minimised or not, gives a result that is false where no input is true |
| CollapseTool.DiagramSupport | tools/collapse/main.cpp:136-149 | the diagram of a cofactor does not test the fixed inputs, so the added literals are of fresh variables |
| CollapseTool.BddExtract | source/bdd/collapse.hpp:59-77 | one manager used for all outputs in turn gives no cubes for a null pointer, and otherwise lists that denote the diagrams, over their supports, each optimal |
| CollapseTool.CollapseCofactorBdd | tools/collapse/main.cpp:136-149 | a cofactor turned into diagrams and extracted, with its literals, denotes the output restricted to its assignments and is as short as any expansion in the variable order gives, unless an operation meets the empty handle of the constant |
| CollapseTool.CollapseBdd | tools/collapse/main.cpp:121-166 | with the BDD method the result denotes every output of the graph, for up to 32 inputs and any number of cofactored ones, or an operation meets the empty handle of the constant; that happens if and only if a cofactored graph has an output edge that complements the constant or a node that uses it, and only if some output is constant 1 in a cofactor or the uncofactored graph has such a node; the result is stitched from lists as short as any expansion of the cofactors gives, minimised after each one exactly when asked |
| CollapseTool.CollapseAndCheck | tools/collapse/main.cpp:121-185 | a graph collapsed and turned back into a graph has the same outputs at every assignment, except where an output flips |
| Pla.DecimalDigits | source/io/write_pla.hpp:26-28 | a number's decimal digits read back as the number |
| Pla.CubeReadBack | source/kernel/two_lvl32.hpp:61-70 | reading a cube's text column by column gives the cube back |
| Pla.RowsThen | source/io/read_pla.hpp:103-124 | rows written for a list are read as that list in order, whatever follows them |
| PlaFiles.RowLiterals | source/kernel/two_lvl32.hpp:63-70 | the cube of any row has exactly the literals of the row's columns |
| PlaFiles.MarkedRows | source/io/read_pla.hpp:103-124 | of rows over any number of outputs, each output gets the cubes of exactly the rows whose column marks it, in order, whatever follows |
| PlaFiles.FileRead | source/io/read_pla.hpp:78-131 | a file with any number of inputs, outputs and rows and a type line reads as the declared kind and counts, with for each output the cubes of the rows that mark it |
| PlaFiles.RowsEnd | source/io/read_pla.hpp:107-121 | a line that starts with `.e`, or with parts of another width than declared, ends the reading whatever follows |
| PlaFiles.KindIff | source/kernel/two_lvl32.hpp:50-59 | letter case aside, a type text with "esop" somewhere in it is an ESOP, any other with "sop" in it an SOP, and the rest undefined |
| PlaFiles.SignedNumber | source/io/read_pla.hpp:53-61 | a plus sign before a count changes nothing, a minus sign negates it modulo 2^32 |
| PlaFiles.WrittenHeader | source/io/write_pla.hpp:26-28 | the header written declares the inputs, one output and the number of cubes |
| Pla.RowsRead | source/io/read_pla.hpp:101-124 | the rows of a list and the end marker are read as that list, in order |
| Pla.ReadBack | source/io/write_pla.hpp:19-36 | the text of an output reads back as the same inputs and the same list, or as an empty list when the count overflows |
| Pla.RoundTripIff | source/io/write_pla.hpp:19-36 | the round trip is exact if and only if there are fewer than 2^32 cubes |
| PlaReading.CommentInHeaderIff | source/io/read_pla.hpp:26-51 | a comment line in the header leaves what the rows start from (inputs, outputs, kind, text) unchanged if and only if it holds a space or what it swallows, up to the line break after the next space, makes no difference: nothing, or exactly the next header line where that changes neither count nor kind or assigns a field assigned again later |
| PlaReading.CommentSkippedIff | source/io/read_pla.hpp:26-51 | it does so whatever follows if and only if it holds a space |
| PlaReading.CommentAtHeadIff | source/io/read_pla.hpp:78-131 | a whole file reads the same with a comment line put before it, whatever the file, if and only if the comment holds a space |
| PlaReading.CommentAtHead | source/io/read_pla.hpp:78-131 | a given file reads the same if the comment holds a space or swallows nothing that makes a difference |
| PlaReading.DroppedRowIff | source/io/read_pla.hpp:103-124 | a row that is swallowed is missed if and only if it marks an output and the reading finishes |
| PlaReading.CommentBeforeRows | source/io/read_pla.hpp:78-131 | a comment between the header and the rows of a written file is ignored if it holds a space, and otherwise loses the first row |
| PlaReading.NumberLineEnd | source/io/read_pla.hpp:53-68 | reading a counting line and skipping it lead to the same end of the header exactly in the cases named: same text left, with the same stream state unless nothing is left |
| PlaReading.HeaderField | source/io/read_pla.hpp:45-69 | where the header ends does not depend on the values so far, and a field keeps its value if and only if no later line assigns it, else takes a value of the text alone |
| PlaReading.CommentAmongRows | source/io/read_pla.hpp:103-124 | a comment among the rows is read as a row when its first space splits it into the widths of one, and otherwise, if it holds a space, ends the reading |
| PlaReading.CommentRowIgnoredIff | source/io/read_pla.hpp:103-124 | it is ignored whatever follows if and only if it fits a row, has no literal from column 32 on and marks no output 1, or no output and no such column exists at all |
| PlaReading.CommentInFile | source/io/read_pla.hpp:78-131 | what is read of a file with a comment between two blocks of rows: the comment as a row, or else nothing from there on |
| PlaReading.CommentInFileIff | source/io/read_pla.hpp:78-131 | such a file reads as without the comment if and only if the comment fits a row that the output does not want, or does not fit and nothing follows |
| PlaReading.CommentAddsOne | source/io/read_pla.hpp:78-131 | the comment `# 1` in a file of one input adds the constant 1 to the function |
| PlaReading.EndlessWithoutColumns | source/io/read_pla.hpp:103-124 | only a header without inputs and outputs can make the reader run for ever |
| PlaReading.EndlessIff | source/io/read_pla.hpp:103-124 | with such a header and a good stream it runs for ever exactly when only blank rows are left |
| PlaReading.EndlessTextIff | source/io/read_pla.hpp:78-131 | a whole text is read for ever if and only if its header declares no inputs and no outputs and the stream has failed in the header or only blank rows are left |
| PlaReading.MalformedCountEndless | source/io/read_pla.hpp:53-61 | a text that begins with `.i x` is read for ever whatever follows |
| PlaReading.FinishedWithin | source/io/read_pla.hpp:78-131 | whatever the text, a finished reading has the declared kind, inputs and outputs, and its cubes are canonical over the inputs |
| Pla.StringStream.GetLine | source/io/read_pla.hpp:106-116 | `getline` yields the text up to the delimiter and consumes it, or all that is left |
| Pla.StringStream.ReadNumber | source/io/read_pla.hpp:53-61 | white space, a sign and digits give the number, negated modulo 2^32 after a minus, clamped when it does not fit 32 bits and 0 when there is none, the last two failing the stream |
| Pla.ReadHeader | source/io/read_pla.hpp:38-76 | the loop computes the header and leaves the stream at the rows |
| Pla.AddCube | source/kernel/two_lvl32.hpp:61-76 | the cube of the row joins the list of exactly the outputs marked 1, and no other list changes |
| Pla.ReadPla | source/io/read_pla.hpp:78-131 | the reader ends with the rows up to the end marker or to the first row of another width, runs for ever, or meets a literal in a column from 32 on, exactly as specified |
| Pla.CubeText | source/kernel/cube32.hpp:108-120 | one character per input, as its literal says |
| Pla.WritePla | source/io/write_pla.hpp:26-32 | the text written for one output |
| Pla.WriteAll | source/io/write_pla.hpp:19-36 | one text per output, as written for that output, each of which reads back as its list |
| MpmcQueue.PowerOfTwoTest | third-party/spdlog/details/mpmc_bounded_q.h:62-75 | the constructor accepts exactly the powers of two from 2 on, and then the queue is empty and the invariant holds |
| MpmcQueue.MaskNeedsGoodSize | third-party/spdlog/details/mpmc_bounded_q.h:65-90 | these are exactly the sizes from 2 on for which the mask gives every position its place round the buffer |
| MpmcQueue.SlotLaws | third-party/spdlog/details/mpmc_bounded_q.h:90-118 | positions a turn apart share a cell, neighbours never do, and positions that share a cell are at least a turn apart |
| MpmcQueue.ProducerClaims | third-party/spdlog/details/mpmc_bounded_q.h:93-97 | a successful exchange on the enqueue counter keeps the invariant, although the cell was looked at earlier |
| MpmcQueue.ConsumerClaims | third-party/spdlog/details/mpmc_bounded_q.h:120-124 | a successful exchange on the dequeue counter keeps the invariant |
| MpmcQueue.ProducerPublishes | third-party/spdlog/details/mpmc_bounded_q.h:107-107 | storing `pos + 1` keeps the invariant for every other call |
| MpmcQueue.ConsumerReleases | third-party/spdlog/details/mpmc_bounded_q.h:132-132 | storing `pos + size` keeps the invariant for every other call |
| MpmcQueue.StepInv | third-party/spdlog/details/mpmc_bounded_q.h:83-134 | every atomic step of every call keeps the invariant |
| MpmcQueue.ReachableInv | third-party/spdlog/details/mpmc_bounded_q.h:62-134 | the invariant holds in every state of every interleaving of any number of calls |
| MpmcQueue.CountersApart | third-party/spdlog/details/mpmc_bounded_q.h:83-134 | always dequeue position <= enqueue position <= dequeue position + size |
| MpmcQueue.OneProducer | third-party/spdlog/details/mpmc_bounded_q.h:93-97 | a position is below the enqueue counter if and only if a producer has claimed it, and no two have |
| MpmcQueue.OneConsumer | third-party/spdlog/details/mpmc_bounded_q.h:120-124 | a position is below the dequeue counter if and only if a consumer has claimed it, and no two have |
| MpmcQueue.Delivered | third-party/spdlog/details/mpmc_bounded_q.h:106-133 | a finished dequeue of a position returns what the finished enqueue of that position brought |
| MpmcQueue.FullIsTrue | third-party/spdlog/details/mpmc_bounded_q.h:99-102 | an enqueue gives up only when the queue holds as many items as cells, or its cell is still held by a consumer of the turn before |
| MpmcQueue.EmptyIsTrue | third-party/spdlog/details/mpmc_bounded_q.h:126-127 | a dequeue gives up only when nothing is claimed beyond what was taken, or the next item is not published yet |
| MpmcQueue.Linearizable | third-party/spdlog/details/mpmc_bounded_q.h:83-134 | in every interleaving the successful exchanges in their order are a run of a first-in first-out queue of at most `size` items; each successful call has exactly the effect of its position, with the item it brought or returned, and the list left over is the queue's content |
| MpmcQueue.EnqueueAlone | third-party/spdlog/details/mpmc_bounded_q.h:83-109 | with no other call under way an enqueue appends its item exactly when there is room, and otherwise changes nothing |
| MpmcQueue.DequeueAlone | third-party/spdlog/details/mpmc_bounded_q.h:111-134 | with no other call under way a dequeue returns the oldest item exactly when there is one, and otherwise changes nothing |
| MpmcQueue.EnqueueRetry | third-party/spdlog/details/mpmc_bounded_q.h:87-104 | an enqueue whose next step neither gets it on nor makes it give up, without a spurious failure, is held up because another enqueue has claimed a position since it read the counter |
| MpmcQueue.DequeueRetry | third-party/spdlog/details/mpmc_bounded_q.h:114-129 | the same for a dequeue |
| MpmcQueue.EndsAlone | third-party/spdlog/details/mpmc_bounded_q.h:83-134 | from whatever point it has reached in whatever interleaving, a call left to run alone ends within six steps |

## Left out

- FlipNeedsAll: no exact condition on the graph alone is given for a flip, because the number of lost products depends on the sums stored, and these on the order in which the hash sets are iterated; the exact condition on the stored sums is `Flips`.
- GiaMan.HashAnd: does not model structural hashing beyond the constant and equal-operand cases; a node may be built twice where ABC would share it, with the same value.
- CollapseTool.CollapseBdd: does not say what a run does once an operation has met the empty handle, which is CUDD's affair.
- ABC and CUDD internals: reference counts, complement edges, `Gia_ManCleanup`, the equivalence checker itself. A diagram is a reduced ordered tree with variables tested in index order, so dynamic reordering is not part of the model; a cofactored graph is built anew with `GiaMan.HashAnd`.
- `exorcise` treats every list as an exclusive or; nothing is stated about SOP inputs.
- 32-bit wrap-around of cube counts, queue lengths, bookmarks and the number of buckets in `exorcism_mngr`: these are unbounded here. The costs of `psdkro` are proved to fit.
- `m_pairs[0]` and `m_pairs[1]` and their companions are two fields each, and the flat group tables are lists of groups.
- The mutators of `cube32` are functions on values, because every caller works on its own copy of a cube; rotating or inverting a cube through an alias is not modelled.
- `result._kind` is not set by the stitching code; the model gives it the value UNDEF until it matters, which it does not in the properties stated.
- File names, opening and closing of files, error messages, statistics, logging, timing, signals and the command line. Reading a file that cannot be opened is not part of this model.
- A literal in a column from 32 on, for which the reader's shifts are undefined: the model stops there with an outcome of its own. Dashes in such columns are read as the source reads them.
- Undefined or unused members: `find_pairs`, `debug`, `compute_xor`, `psdkro::add_cube`.
- The queue's weak memory orders, wrap-around of its counters and `approx_size`; that a single call ends under contention (another one gets through instead, `EnqueueRetry`).
