/**
 * The parts of the machine-code program representation that the WCET
 * analysis reads: instructions, basic blocks and the control-flow edges the
 * IPET builder asks the analysis to price.
 */
module Program {
  import opened Wrappers

  /** Blocks are referred to by their label. */
  type BlockLabel = string

  /** The end point of a control-flow edge: a basic block or the function-exit sentinel `:exit`. */
  datatype Target = ToBlock(name: BlockLabel) | ToExit

  /**
   * A machine instruction: whether it returns from the function, the blocks
   * it may branch to, and the number of delay-slot instructions that execute
   * after it whatever the branch outcome.
   */
  datatype Instruction = Instruction(isReturn: bool, branchTargets: seq<BlockLabel>, delaySlots: nat)

  /** A basic block: its label, its instructions in order, and its static fallthrough successor, if any. */
  datatype Block = Block(name: BlockLabel, instructions: seq<Instruction>, fallthroughSuccessor: Option<BlockLabel>)

  /**
   * What the IPET builder hands to the cost callback: either a block itself
   * (its instructions executed in sequence) or a branching edge from a
   * source block to a target.
   */
  datatype CostEdge = BlockEdge(block: Block) | BranchEdge(source: Block, target: Target)

  /** `src.fallthrough_successor == target`; a missing successor (nil) equals no target. */
  predicate IsFallthrough(src: Block, t: Target)
    ensures IsFallthrough(src, t) ==> t.ToBlock?
    ensures src.fallthroughSuccessor.None? ==> !IsFallthrough(src, t)
    ensures src.fallthroughSuccessor.Some? ==> (IsFallthrough(src, t) <==> t == ToBlock(src.fallthroughSuccessor.value))
  {
    src.fallthroughSuccessor.Some? && t == ToBlock(src.fallthroughSuccessor.value)
  }
}
