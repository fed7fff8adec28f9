/**
 * The edge cost resolver: the callback the IPET builder calls to price a
 * control-flow edge. It works out which instructions of the source block
 * execute when the edge is taken (delay slots and fallthrough included) and
 * hands an instruction sequence to the architecture's timing model, which is
 * a parameter here (`pathWcet`).
 */
module EdgeCost {
  import opened Wrappers
  import opened Program

  function Min(a: int, b: int): int {
    if a <= b then a else b
  }

  /**
   * Whether `ins` is an instruction that leaves the block along an edge to
   * `t`: it returns and `t` is the exit sentinel, or `t` is one of its
   * branch targets (branch targets are blocks, so never the exit).
   */
  predicate Matches(ins: Instruction, t: Target)
    ensures t == ToExit ==> (Matches(ins, t) <==> ins.isReturn)
    ensures t.ToBlock? ==> (Matches(ins, t) <==> t.name in ins.branchTargets)
  {
    (ins.isReturn && t == ToExit) ||
    (|ins.branchTargets| > 0 && t.ToBlock? && t.name in ins.branchTargets)
  }

  /**
   * The index of the last instruction of `s` that matches `t`, or None when
   * none does: the value `branch_index` holds after the scan.
   */
  function LastMatch(s: seq<Instruction>, t: Target): (r: Option<nat>)
    ensures r.Some? ==> r.value < |s| && Matches(s[r.value], t)
    ensures r.Some? ==> forall j :: r.value < j < |s| ==> !Matches(s[j], t)
    ensures r.None? ==> forall j :: 0 <= j < |s| ==> !Matches(s[j], t)
    decreases |s|
  {
    if |s| == 0 then None
    else if Matches(s[|s| - 1], t) then Some(|s| - 1)
    else LastMatch(s[..|s| - 1], t)
  }

  /** The characterisation of LastMatch in both directions: it is the greatest matching index. */
  lemma LastMatchIsGreatest(s: seq<Instruction>, t: Target, k: nat)
    ensures LastMatch(s, t) == Some(k) <==>
              k < |s| && Matches(s[k], t) && forall j :: k < j < |s| ==> !Matches(s[j], t)
  {
  }

  /**
   * The scan over the source block's instructions that records, in
   * `branchIndex`, the last instruction that returns (for an edge to the
   * exit) or that branches to the target.
   */
  method ScanBranchIndex(instructions: seq<Instruction>, target: Target) returns (branchIndex: Option<nat>)
    ensures branchIndex == LastMatch(instructions, target)
  {
    branchIndex := None;
    var ix := 0;
    while ix < |instructions|
      invariant 0 <= ix <= |instructions|
      invariant branchIndex == LastMatch(instructions[..ix], target)
    {
      var ins := instructions[ix];
      if ins.isReturn && target == ToExit {
        branchIndex := Some(ix);
      } else if |ins.branchTargets| > 0 && target.ToBlock? && target.name in ins.branchTargets {
        branchIndex := Some(ix);
      }
      assert instructions[..ix + 1][..ix] == instructions[..ix];
      ix := ix + 1;
    }
    assert instructions[..ix] == instructions;
  }

  /** Ruby's inclusive slice `a[0..k]` for k >= 0: the first k + 1 elements, clamped at the end of `a`. */
  function SliceThrough<T>(a: seq<T>, k: nat): (r: seq<T>)
    ensures |r| == Min(k + 1, |a|)
    ensures r == a[..|r|]
  {
    if k + 1 <= |a| then a[..k + 1] else a
  }

  /**
   * The instructions of `src` executed when control leaves it for `t`: the
   * whole block when no instruction accounts for the edge or `t` is the
   * fallthrough successor, otherwise the prefix through the last matching
   * instruction and its delay slots.
   */
  function ResolvedRange(src: Block, t: Target): (r: seq<Instruction>)
    ensures |r| <= |src.instructions| && r == src.instructions[..|r|]
    ensures (forall j :: 0 <= j < |src.instructions| ==> !Matches(src.instructions[j], t)) ==>
              r == src.instructions
    ensures IsFallthrough(src, t) ==> r == src.instructions
    ensures LastMatch(src.instructions, t).Some? && !IsFallthrough(src, t) ==>
              var k := LastMatch(src.instructions, t).value;
              |r| == Min(k + src.instructions[k].delaySlots + 1, |src.instructions|) &&
              k < |r| && Matches(r[k], t)
  {
    var branchIndex := LastMatch(src.instructions, t);
    if branchIndex.None? || IsFallthrough(src, t) then
      src.instructions
    else
      SliceThrough(src.instructions, branchIndex.value + src.instructions[branchIndex.value].delaySlots)
  }

  /** The list `ilist` of executed instructions for an edge handed to the callback. */
  function ResolveInstructions(edge: CostEdge): (r: seq<Instruction>)
    ensures edge.BlockEdge? ==> r == edge.block.instructions
    ensures edge.BranchEdge? ==> r == ResolvedRange(edge.source, edge.target)
    ensures edge.BranchEdge? ==> |r| <= |edge.source.instructions| && r == edge.source.instructions[..|r|]
  {
    match edge
    case BlockEdge(b) => b.instructions
    case BranchEdge(src, t) => ResolvedRange(src, t)
  }

  /** How the callback can fail as written. */
  datatype CallbackError =
    /** A method called on nil: `src` is an unassigned local on the block-edge path. */
    NilReceiver

  /**
   * The callback as written: it resolves `ilist` but then prices
   * `src.instructions`, the whole source block. On the block-edge path `src`
   * was never assigned, so the call raises.
   */
  function EdgeCostAsWritten(edge: CostEdge, pathWcet: seq<Instruction> -> nat): (r: Result<nat, CallbackError>)
    ensures edge.BlockEdge? <==> r == Failure(NilReceiver)
    ensures edge.BranchEdge? ==> r.Success?
  {
    match edge
    case BlockEdge(_) => Failure(NilReceiver)
    case BranchEdge(src, _) => Success(pathWcet(src.instructions))
  }

  /** As written, the price of a branching edge depends on its source block only, never on its target. */
  lemma AsWrittenIgnoresTarget(src: Block, t1: Target, t2: Target, pathWcet: seq<Instruction> -> nat)
    ensures EdgeCostAsWritten(BranchEdge(src, t1), pathWcet) == EdgeCostAsWritten(BranchEdge(src, t2), pathWcet)
    ensures EdgeCostAsWritten(BranchEdge(src, t1), pathWcet) == Success(pathWcet(src.instructions))
  {
  }

  /** A timing model charging one cycle per instruction. */
  function InstructionCount(s: seq<Instruction>): nat {
    |s|
  }

  /**
   * A block whose first instruction branches to "b1" with no delay slot,
   * followed by two more instructions. The edge to "b1" executes one
   * instruction, yet as written it is charged for all three; a block edge
   * raises.
   */
  lemma AsWrittenDiscardsRange()
    ensures var br := Instruction(false, ["b1"], 0);
            var other := Instruction(false, [], 0);
            var src := Block("b0", [br, other, other], Some("b2"));
            ResolvedRange(src, ToBlock("b1")) == [br] &&
            EdgeCostAsWritten(BranchEdge(src, ToBlock("b1")), InstructionCount) == Success(3) &&
            EdgeCost(BranchEdge(src, ToBlock("b1")), InstructionCount) == 1 &&
            EdgeCostAsWritten(BlockEdge(src), InstructionCount).Failure?
  {
    var br := Instruction(false, ["b1"], 0);
    var other := Instruction(false, [], 0);
    var src := Block("b0", [br, other, other], Some("b2"));
    LastMatchIsGreatest(src.instructions, ToBlock("b1"), 0);
  }

  /** The callback as evidently intended: price exactly the resolved instruction list. */
  function EdgeCost(edge: CostEdge, pathWcet: seq<Instruction> -> nat): (r: nat)
    ensures edge.BlockEdge? ==> r == pathWcet(edge.block.instructions)
    ensures edge.BranchEdge? ==> r == pathWcet(ResolvedRange(edge.source, edge.target))
  {
    pathWcet(ResolveInstructions(edge))
  }

  /** A timing model under which a prefix never costs more than the whole sequence. */
  ghost predicate PrefixMonotone(pathWcet: seq<Instruction> -> nat) {
    forall s: seq<Instruction>, k: nat :: k <= |s| ==> pathWcet(s[..k]) <= pathWcet(s)
  }

  /**
   * Under a prefix-monotone timing model, taking a branch out of a block
   * never costs more than the whole block, which is what the as-written
   * callback charges; when the resolved range is the whole block the two
   * agree.
   */
  lemma EdgeCostWithinAsWritten(src: Block, t: Target, pathWcet: seq<Instruction> -> nat)
    requires PrefixMonotone(pathWcet)
    ensures EdgeCost(BranchEdge(src, t), pathWcet) <= EdgeCostAsWritten(BranchEdge(src, t), pathWcet).value
    ensures LastMatch(src.instructions, t).None? || IsFallthrough(src, t) ==>
              EdgeCost(BranchEdge(src, t), pathWcet) == EdgeCostAsWritten(BranchEdge(src, t), pathWcet).value
  {
  }

  /**
   * A single block looping back to itself: two body instructions and a
   * final branch with one delay slot. The delay slot runs past the end of
   * the block, so the slice is clamped and the loop edge executes all three
   * instructions, for three cycles at one cycle per instruction.
   */
  lemma SelfLoopScenario()
    ensures var body := Instruction(false, [], 0);
            var br := Instruction(false, ["main"], 1);
            var main := Block("main", [body, body, br], Some("exit_block"));
            ResolvedRange(main, ToBlock("main")) == main.instructions &&
            EdgeCost(BranchEdge(main, ToBlock("main")), InstructionCount) == 3
  {
  }
}
