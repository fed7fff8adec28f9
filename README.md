# platin WCA: inhouse worst-case execution time analysis, modelled in Dafny

This project models the core of platin's `WCA#analyze`
(`tools/platin/lib/analysis/wca.rb`). The analysis bounds the worst-case
execution time of one entry function. It poses the problem as an IPET
(implicit path enumeration) integer linear program and solves it for the
maximum. It then turns the solver's variable-to-frequency map into a
profile of control-flow edges. The model covers three parts:

- **Edge cost resolver** (module `EdgeCost`, `edge_cost.dfy`). This is the
  callback the IPET builder uses to price an edge. A block edge executes the
  block's whole instruction list. For a branching edge, the block is scanned
  for the last instruction that returns (when the edge goes to `:exit`) or
  branches to the target. When no instruction matches, or the target is the
  fallthrough successor, the whole block executes. Otherwise the executed
  part runs up to and including the branch and its delay slots, using Ruby's
  end-clamped inclusive slice. The timing model `path_wcet` is a function
  parameter.
- **Solve and fallback** (module `Ilp`, `ilp.dfy`). The solver's result is
  a `SolveOutcome`. A raised solve becomes -1 cycles and an empty frequency
  map. A warning comes with it unless diagnostics are disabled.
- **Profile reconstruction** (module `Profiles`, `profile.dfy`, and the loop
  in module `Wca`, `wca.dfy`). Each (variable, frequency) pair is classified.
  It is skipped when its cost is not positive and it is not a CFG edge
  variable. It is also skipped when it is a sub-function, stack-cache
  instruction, instruction-cache tag or data-cache tag variable. Otherwise
  it must be an IPET edge from a block to a block or to the exit, or the
  analysis dies. A surviving pair appends an entry (edge under the empty
  context, cost, frequency, cost × frequency). `Profile` is a class whose
  entry list is extended in place. The `TimingEntry` report holds that
  profile object, just as the source builds the report before filling the
  profile.

The ILP variable kinds form the closed datatype `Ilp.Variable`. The solver's
hash is a sequence of `Assignment`s in its iteration order. The ILP
instance's `get_cost` is a function parameter `costOf`. `die` becomes a
`Failure` result carrying its message.

## Model

| member | source | states |
|---|---|---|
| `EdgeCost.LastMatch` | tools/platin/lib/analysis/wca.rb:69-76 | the index found is in range and its instruction returns-to-exit or branches to the target; no later instruction matches; None means no instruction matches |
| `EdgeCost.LastMatchIsGreatest` | tools/platin/lib/analysis/wca.rb:69-76 | `branch_index == k` exactly when `k` is a matching index with no matching index after it (both directions) |
| `EdgeCost.ScanBranchIndex` | tools/platin/lib/analysis/wca.rb:69-76 | the forward `each_with_index` scan that overwrites `branch_index` on each match ends with the last matching index, or None |
| `EdgeCost.SliceThrough` | tools/platin/lib/analysis/wca.rb:80 | Ruby's `a[0..k]` is a prefix of `a` of length `min(k + 1, |a|)`: it is clamped at the end of the array |
| `EdgeCost.ResolvedRange` | tools/platin/lib/analysis/wca.rb:68-81 | the result is always a prefix of the source block; it is the whole block when nothing matches or the target is the fallthrough successor; otherwise its length is `min(branch_index + delay_slots + 1, |instructions|)` and it contains the matching branch instruction |
| `Program.IsFallthrough` | tools/platin/lib/analysis/wca.rb:77 | `src.fallthrough_successor == edge.target`: only a block target can be the fallthrough, a missing (nil) successor equals no target, and otherwise the target must be that successor block |
| `EdgeCost.Matches` | tools/platin/lib/analysis/wca.rb:71-74 | for an edge to `:exit` an instruction counts exactly when it returns; for an edge to a block it counts exactly when the block is among its branch targets |
| `EdgeCost.ResolveInstructions` | tools/platin/lib/analysis/wca.rb:64-82 | `ilist`: a block edge executes exactly that block's instruction list; a branching edge executes exactly the resolved range of its source and target, a prefix of the source block |
| `EdgeCost.EdgeCostAsWritten` | tools/platin/lib/analysis/wca.rb:62-84 | as written, a block edge raises (calls a method on the unassigned `src`) and a branching edge always succeeds |
| `EdgeCost.AsWrittenIgnoresTarget` | tools/platin/lib/analysis/wca.rb:83 | as written, the price of a branching edge is `path_wcet` of the whole source block, whatever its target and resolved range |
| `EdgeCost.AsWrittenDiscardsRange` | tools/platin/lib/analysis/wca.rb:64-83 | on a block whose first instruction branches with no delay slot, the resolved range is one instruction, but as written the edge is charged for all three, and the block edge raises |
| `EdgeCost.EdgeCost` | tools/platin/lib/analysis/wca.rb:62-84 | corrected callback: a block edge is priced on its block's instructions and a branching edge on its resolved range |
| `EdgeCost.EdgeCostWithinAsWritten` | tools/platin/lib/analysis/wca.rb:77-83 | under a timing model where a prefix never costs more than the whole, the corrected price never exceeds the as-written one; the two agree when the range is the whole block |
| `EdgeCost.SelfLoopScenario` | tools/platin/lib/analysis/wca.rb:68-81 | a 3-instruction self-loop whose last instruction branches with one delay slot executes all 3 instructions on the loop edge (clamped slice), and costs 3 cycles at one cycle per instruction |
| `Ilp.SolveFallback` | tools/platin/lib/analysis/wca.rb:97-102 | a successful solve passes on the objective and frequencies; a raised solve gives -1 cycles and an empty frequency map |
| `Ilp.SolveDiagnostic` | tools/platin/lib/analysis/wca.rb:99-100 | a warning `"WCA: ILP failed: <message>"` is issued exactly when the solve raised and diagnostics are not disabled |
| `Profiles.CfgEdgeOf` | tools/platin/lib/analysis/wca.rb:123 | the CFG edge of a well-shaped IPET edge has the variable's source block and the variable's target, which is the exit exactly when the variable targets `:exit` |
| `Profiles.Classify` | tools/platin/lib/analysis/wca.rb:111-124 | a pair is skipped exactly when it is not priced (non-positive cost and not a CFG edge) or is a refinement variable; it emits exactly when it is also a block-to-block-or-exit IPET edge, with stored cost, frequency and cost × frequency; otherwise it dies, with "not an IPET edge" exactly for non-edge kinds |
| `Profiles.Reconstruct` | tools/platin/lib/analysis/wca.rb:109-126 | the profile the loop builds, or the first die: a completed profile has at most one entry per pair, each with the empty context and contribution cost × frequency |
| `Profiles.Survivors` | tools/platin/lib/analysis/wca.rb:113-122 | the reference filter: the pairs that yield an entry, in map order, no more of them than pairs, each priced, not a refinement variable and well shaped |
| `Profiles.SurvivorsExactly` | tools/platin/lib/analysis/wca.rb:110-124 | the surviving pairs are exactly the pairs of the map that emit an entry (both directions) |
| `Profiles.ReconstructSucceedsIff` | tools/platin/lib/analysis/wca.rb:110-122 | reconstruction completes exactly when no pair of the map is priced, non-refinement and malformed (both directions) |
| `Profiles.ReconstructFailsAtFirst` | tools/platin/lib/analysis/wca.rb:120-122 | an aborted reconstruction reports the first failed shape check of the first malformed pair in map order |
| `Profiles.ReconstructFollowsSurvivors` | tools/platin/lib/analysis/wca.rb:110-124 | a completed profile has one entry per surviving pair, in map iteration order, each built from that pair |
| `Profiles.EntriesSound` | tools/platin/lib/analysis/wca.rb:113-124 | every profile entry stores cost × frequency, has the empty context, and comes from a pair of the map that is priced, not a refinement variable, and a block-to-block-or-exit IPET edge |
| `Profiles.ShapeMessageIdentifiesCheck` | tools/platin/lib/analysis/wca.rb:120-122 | the three `die` messages are distinct, so the message names which shape check failed |
| `Profiles.NoFrequenciesNoEntries` | tools/platin/lib/analysis/wca.rb:110 | an empty frequency map yields an empty profile |
| `Profiles.Profile.constructor` | tools/platin/lib/analysis/wca.rb:105 | a new profile holds the given entries |
| `Profiles.Profile.Add` | tools/platin/lib/analysis/wca.rb:124 | adding appends the entry at the end and changes nothing else |
| `Wca.Origin` | tools/platin/lib/analysis/wca.rb:107 | the report's origin is the configured timing output if there is one, otherwise "platin" |
| `Wca.TimingEntry.constructor` | tools/platin/lib/analysis/wca.rb:106-107 | the report binds the entry function, the cycles, the profile object, the level and the origin |
| `Wca.CollectEdgeTimings` | tools/platin/lib/analysis/wca.rb:109-126 | the loop over the frequency map appends exactly the reconstructed entries to the profile, in order, or stops with the shape error of the first malformed pair |
| `Wca.ReconstructPrefixFailure` | tools/platin/lib/analysis/wca.rb:120-122 | once a prefix of the map aborts, the whole map aborts with the same error (die stops the loop) |
| `Wca.Analyze` | tools/platin/lib/analysis/wca.rb:97-126 | the analysis returns a fresh report exactly when reconstruction completes, with the solver's (or fallback) cycles, the reconstructed profile, level "machinecode" and the configured origin; otherwise it dies with the `die` message of the first failed shape check; the warning follows `SolveDiagnostic` |
| `Wca.SolveFailureDegrades` | tools/platin/lib/analysis/wca.rb:99-110 | a raised solve yields -1 cycles and completes with an empty profile, never a fatal error |
| `Wca.SolvedProfileSound` | tools/platin/lib/analysis/wca.rb:98-124 | a successful solve reports the objective, and every profile entry comes from a priced, well-shaped IPET edge of the solution with contribution cost × frequency |

## Findings

| source | as written | input that shows it | evidently intended | confidence | as-written member | corrected member |
|---|---|---|---|---|---|---|
| tools/platin/lib/analysis/wca.rb:83 | the callback prices `src.instructions`, so the resolved `ilist` is never used; on the block-edge path `src` is an unassigned local (nil), so the call raises | a block `[br→b1 (0 delay slots), i, i]` with fallthrough `b2`: the edge to `b1` executes one instruction but is charged for three; any block edge raises | price `ilist`: the comment at line 63 says it is the list of executed instructions, and lines 64-82 compute it only for it never to be read |  not executed; the nil path only matters if the builder hands blocks to the callback | `EdgeCost.EdgeCostAsWritten` (shown by `EdgeCost.AsWrittenDiscardsRange`, `EdgeCost.AsWrittenIgnoresTarget`) | `EdgeCost.EdgeCost` (bounded by the as-written price in `EdgeCost.EdgeCostWithinAsWritten`) |

The callback's own comment (wca.rb:63, "get list of executed instructions")
and the assignment to `ilist` (wca.rb:64-82), a variable nothing reads
afterwards, show that `ilist` is what was meant to be priced. Line 83
prices the whole source block instead. The as-written member follows line
83, and the corrected member prices `ilist`. Neither
callback feeds `Wca.Analyze`, because the IPET builder that calls it is not
part of this model (see below).

## Left out

- PML lookup of the entry (`by_label`, `by_name`) and the `entry` hash: the
  machine-code function is an input, `MachineFunction`. The bitcode entry is
  only passed to the builder.
- Flow-fact filtering (`flowfacts.filter`): an external collaborator whose
  only use here is the builder's input and a statistic.
- IPET model construction (`IPETBuilder#build`) and the ILP instance
  (`LpSolveILP`, `solve_max`): foreign library and solver code. The solver's
  behaviour is the input `SolveOutcome`, and `get_cost` is the parameter
  `costOf`. So the model does not tie `costOf` to the edge-cost callback.
- Cache analysis (`CacheAnalysis#analyze`): it mutates the ILP instance and
  its logic is not part of this model. Its effect is only visible through
  the variables and costs the solver returns.
- The architecture timing table behind `path_wcet`: an uninterpreted
  function parameter.
- Statistics, the warning's output channel, and the verbose trace with its
  sorting: output side effects only. The warning text is returned.
- The commented-out VCFG experiment: dead code.
- `freq.to_i`: frequencies are taken as integers, so no float truncation is
  modelled.
- `die`: modelled as a `Failure` result. Its printing and process exit are
  not modelled.
- `cfg_edge?`: the answer of an IPET edge variable is the flag `isCfgEdge`,
  because its definition is not part of this model.
- Contexts: only the empty context that this code builds is modelled.
