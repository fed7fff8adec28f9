/**
 * The ILP instance's side of the analysis: the kinds of variable the IPET
 * model and the cache analyses create, the solver's outcome, and the
 * fallback that turns a failed solve into a degraded result.
 */
module Ilp {
  import opened Wrappers
  import opened Program

  /** An end point of an IPET edge variable: a block, the exit sentinel, or any other program point. */
  datatype Point = BlockPoint(name: BlockLabel) | ExitPoint | OtherPoint(description: string)

  /**
   * The closed set of ILP variable kinds. `isCfgEdge` is the IPET edge's own
   * answer to `cfg_edge?`, taken as given.
   */
  datatype Variable =
    | EdgeVar(source: Point, target: Point, isCfgEdge: bool)
    | SubFunctionVar(description: string)
    | InstructionVar(description: string)
    | InstructionCacheTagVar(description: string)
    | DataCacheTagVar(description: string)
    | OtherVar(description: string)

  /** One (variable, frequency) pair of the solver's frequency map. */
  datatype Assignment = Assignment(v: Variable, freq: int)

  /** What `solve_max` does: return the objective and the frequencies, or raise. */
  datatype SolveOutcome = Solved(objective: int, freqs: seq<Assignment>) | SolveRaised(message: string)

  /** The pair `cycles, freqs` the analysis continues with. */
  datatype Solution = Solution(cycles: int, freqs: seq<Assignment>)

  /** The cycle count reported when the solve fails. */
  const FailedCycles: int := -1

  /**
   * The solve and its rescue: the solver's own result when it succeeds,
   * otherwise -1 cycles and no frequencies; every exception is rescued.
   */
  function SolveFallback(outcome: SolveOutcome): (r: Solution)
    ensures outcome.Solved? ==> r.cycles == outcome.objective && r.freqs == outcome.freqs
    ensures outcome.SolveRaised? ==> r.cycles == FailedCycles && r.freqs == []
  {
    match outcome
    case Solved(cycles, freqs) => Solution(cycles, freqs)
    case SolveRaised(_) => Solution(FailedCycles, [])
  }

  /** The warning issued for a failed solve, unless diagnostics are disabled. */
  function SolveDiagnostic(outcome: SolveOutcome, disableIpetDiagnosis: bool): (d: Option<string>)
    ensures d.Some? <==> outcome.SolveRaised? && !disableIpetDiagnosis
    ensures d.Some? ==> d.value == "WCA: ILP failed: " + outcome.message
  {
    if outcome.SolveRaised? && !disableIpetDiagnosis then Some("WCA: ILP failed: " + outcome.message) else None
  }
}
