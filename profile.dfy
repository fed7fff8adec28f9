/**
 * Profile reconstruction: turning the solver's (variable, frequency) pairs
 * into a profile of control-flow edges with their cost, frequency and
 * contribution to the bound. The filter skips variables that carry no cost,
 * skips the refinement variables of the cache analyses, and aborts on an
 * edge variable of an unexpected shape.
 */
module Profiles {
  import opened Wrappers
  import opened Program
  import opened Ilp

  /** The calling context of a profile entry; the analysis only uses the empty one. */
  datatype Context = EmptyContext

  /** A machine-code control-flow edge from a block to a block or to the function exit. */
  datatype CfgEdge = CfgEdge(source: BlockLabel, target: Target)

  /** A control-flow edge in a context. */
  datatype ContextRef = ContextRef(edge: CfgEdge, context: Context)

  /** One line of the profile: where, the cost per execution, the frequency, and their product. */
  datatype ProfileEntry = ProfileEntry(reference: ContextRef, cost: int, freq: int, wcetContribution: int)

  /** The model-shape violations that abort reconstruction. */
  datatype ShapeError = NotAnIpetEdge | SourceNotABlock | TargetNotABlock

  /** The message the analysis dies with; it names the check that failed. */
  function ShapeMessage(e: ShapeError): string {
    match e
    case NotAnIpetEdge => "ILP cost: not an IPET edge"
    case SourceNotABlock => "ILP cost: source is not a block"
    case TargetNotABlock => "ILP cost: target is not a block"
  }

  /** Distinct shape errors die with distinct messages, so the message identifies the violated invariant. */
  lemma ShapeMessageIdentifiesCheck(e1: ShapeError, e2: ShapeError)
    ensures ShapeMessage(e1) == ShapeMessage(e2) <==> e1 == e2
  {
  }

  /** A variable looked at at all: it has a positive cost, or it is an IPET edge that is a CFG edge. */
  predicate Priced(v: Variable, cost: int) {
    cost > 0 || (v.EdgeVar? && v.isCfgEdge)
  }

  /** The kinds that belong to the cache and call refinements and are skipped. */
  predicate RefinementArtifact(v: Variable) {
    v.SubFunctionVar? || v.InstructionVar? || v.InstructionCacheTagVar? || v.DataCacheTagVar?
  }

  /** An IPET edge from a block to a block or to the exit. */
  predicate WellShaped(v: Variable) {
    v.EdgeVar? && v.source.BlockPoint? && (v.target.ExitPoint? || v.target.BlockPoint?)
  }

  /** A pair that yields a profile entry. */
  predicate Emits(a: Assignment, cost: int) {
    Priced(a.v, cost) && !RefinementArtifact(a.v) && WellShaped(a.v)
  }

  /** A pair that makes the analysis die. */
  predicate Malformed(a: Assignment, cost: int) {
    Priced(a.v, cost) && !RefinementArtifact(a.v) && !WellShaped(a.v)
  }

  /** The first of the three shape checks that `v` fails. */
  function ShapeErrorOf(v: Variable): ShapeError
    requires !WellShaped(v)
  {
    if !v.EdgeVar? then NotAnIpetEdge
    else if !v.source.BlockPoint? then SourceNotABlock
    else TargetNotABlock
  }

  /** The control-flow edge an IPET edge variable stands for. */
  function CfgEdgeOf(v: Variable): (e: CfgEdge)
    requires WellShaped(v)
    ensures e.source == v.source.name
    ensures e.target == ToExit <==> v.target.ExitPoint?
    ensures e.target.ToBlock? ==> e.target.name == v.target.name
  {
    CfgEdge(v.source.name, if v.target.ExitPoint? then ToExit else ToBlock(v.target.name))
  }

  /** The entry a well-shaped pair contributes, under the empty context. */
  function EntryOf(a: Assignment, cost: int): ProfileEntry
    requires WellShaped(a.v)
  {
    ProfileEntry(ContextRef(CfgEdgeOf(a.v), EmptyContext), cost, a.freq, cost * a.freq)
  }

  /** What the loop body does with one pair. */
  datatype Step = Skip | Emit(entry: ProfileEntry) | Die(error: ShapeError)

  /** The decision for one pair whose variable costs `cost`. */
  function Classify(a: Assignment, cost: int): (r: Step)
    ensures r.Skip? <==> !Priced(a.v, cost) || RefinementArtifact(a.v)
    ensures r.Emit? <==> Emits(a, cost)
    ensures r.Die? <==> Malformed(a, cost)
    ensures r.Emit? ==> r.entry.cost == cost && r.entry.freq == a.freq &&
                        r.entry.wcetContribution == cost * a.freq &&
                        r.entry.reference.context == EmptyContext &&
                        r.entry.reference.edge.source == a.v.source.name
    ensures r.Die? ==> (r.error == NotAnIpetEdge <==> a.v.OtherVar?)
  {
    if !Priced(a.v, cost) then Skip
    else if a.v.SubFunctionVar? then Skip
    else if a.v.InstructionVar? then Skip
    else if a.v.InstructionCacheTagVar? then Skip
    else if a.v.DataCacheTagVar? then Skip
    else if !a.v.EdgeVar? then Die(NotAnIpetEdge)
    else if !a.v.source.BlockPoint? then Die(SourceNotABlock)
    else if !(a.v.target.ExitPoint? || a.v.target.BlockPoint?) then Die(TargetNotABlock)
    else Emit(EntryOf(a, cost))
  }

  /**
   * The entries reconstructed from `freqs`, in order, or the error of the
   * first pair that makes the analysis die.
   */
  function Reconstruct(freqs: seq<Assignment>, costOf: Variable -> int): (r: Result<seq<ProfileEntry>, ShapeError>)
    ensures r.Success? ==> |r.value| <= |freqs|
    ensures r.Success? ==> forall k :: 0 <= k < |r.value| ==>
              r.value[k].wcetContribution == r.value[k].cost * r.value[k].freq &&
              r.value[k].reference.context == EmptyContext
    decreases |freqs|
  {
    if freqs == [] then Success([])
    else
      match Reconstruct(freqs[..|freqs| - 1], costOf)
      case Failure(e) => Failure(e)
      case Success(entries) =>
        match Classify(freqs[|freqs| - 1], costOf(freqs[|freqs| - 1].v))
        case Skip => Success(entries)
        case Emit(entry) => Success(entries + [entry])
        case Die(e) => Failure(e)
  }

  /** The pairs of `freqs` that yield an entry, in their order. */
  function Survivors(freqs: seq<Assignment>, costOf: Variable -> int): (r: seq<Assignment>)
    ensures |r| <= |freqs|
    ensures forall k :: 0 <= k < |r| ==> Emits(r[k], costOf(r[k].v))
    decreases |freqs|
  {
    if freqs == [] then []
    else if Emits(freqs[0], costOf(freqs[0].v)) then [freqs[0]] + Survivors(freqs[1..], costOf)
    else Survivors(freqs[1..], costOf)
  }

  /** Survivors keeps exactly the pairs that emit: nothing else, and each of those. */
  lemma {:induction false} SurvivorsExactly(freqs: seq<Assignment>, costOf: Variable -> int)
    ensures forall a :: a in Survivors(freqs, costOf) ==> a in freqs && Emits(a, costOf(a.v))
    ensures forall a :: a in freqs && Emits(a, costOf(a.v)) ==> a in Survivors(freqs, costOf)
    decreases |freqs|
  {
    if freqs != [] {
      SurvivorsExactly(freqs[1..], costOf);
      assert forall a :: a in freqs ==> a == freqs[0] || a in freqs[1..];
    }
  }

  /** Appending a pair extends the survivors by that pair exactly when it emits. */
  lemma SurvivorsSnoc(freqs: seq<Assignment>, a: Assignment, costOf: Variable -> int)
    ensures Survivors(freqs + [a], costOf) ==
              Survivors(freqs, costOf) + (if Emits(a, costOf(a.v)) then [a] else [])
    decreases |freqs|
  {
    if freqs == [] {
      assert [a][1..] == [];
    } else {
      assert (freqs + [a])[1..] == freqs[1..] + [a];
      SurvivorsSnoc(freqs[1..], a, costOf);
    }
  }

  /** Reconstruction succeeds exactly when no pair is malformed. */
  lemma {:induction false} ReconstructSucceedsIff(freqs: seq<Assignment>, costOf: Variable -> int)
    ensures Reconstruct(freqs, costOf).Success? <==>
              forall i :: 0 <= i < |freqs| ==> !Malformed(freqs[i], costOf(freqs[i].v))
    decreases |freqs|
  {
    if freqs != [] {
      var init := freqs[..|freqs| - 1];
      ReconstructSucceedsIff(init, costOf);
      assert forall i :: 0 <= i < |init| ==> init[i] == freqs[i];
    }
  }

  /** A failed reconstruction names the shape error of the first malformed pair. */
  lemma {:induction false} ReconstructFailsAtFirst(freqs: seq<Assignment>, costOf: Variable -> int)
    ensures Reconstruct(freqs, costOf).Failure? ==>
              exists i :: 0 <= i < |freqs| && Malformed(freqs[i], costOf(freqs[i].v)) &&
                          !WellShaped(freqs[i].v) &&
                          Reconstruct(freqs, costOf).error == ShapeErrorOf(freqs[i].v) &&
                          forall j :: 0 <= j < i ==> !Malformed(freqs[j], costOf(freqs[j].v))
    decreases |freqs|
  {
    if freqs != [] {
      var n := |freqs| - 1;
      var init := freqs[..n];
      ReconstructFailsAtFirst(init, costOf);
      ReconstructSucceedsIff(init, costOf);
      assert forall i :: 0 <= i < |init| ==> init[i] == freqs[i];
      if Reconstruct(freqs, costOf).Failure? && Reconstruct(init, costOf).Success? {
        assert Malformed(freqs[n], costOf(freqs[n].v));
      }
    }
  }

  /**
   * A successful reconstruction has one entry per surviving pair, in the
   * order of the frequency map, each built from that pair.
   */
  lemma {:induction false} ReconstructFollowsSurvivors(freqs: seq<Assignment>, costOf: Variable -> int)
    ensures Reconstruct(freqs, costOf).Success? ==>
              var entries := Reconstruct(freqs, costOf).value;
              var survivors := Survivors(freqs, costOf);
              |entries| == |survivors| &&
              forall k :: 0 <= k < |entries| ==>
                WellShaped(survivors[k].v) && entries[k] == EntryOf(survivors[k], costOf(survivors[k].v))
    decreases |freqs|
  {
    if freqs != [] {
      var n := |freqs| - 1;
      var init := freqs[..n];
      ReconstructFollowsSurvivors(init, costOf);
      assert init + [freqs[n]] == freqs;
      SurvivorsSnoc(init, freqs[n], costOf);
    }
  }

  /**
   * Every entry of a successful reconstruction comes from a pair of the map
   * that is priced, not a refinement artifact and well shaped; its cost is
   * that variable's cost and its contribution is cost times frequency.
   */
  lemma {:induction false} EntriesSound(freqs: seq<Assignment>, costOf: Variable -> int)
    ensures Reconstruct(freqs, costOf).Success? ==>
              forall e :: e in Reconstruct(freqs, costOf).value ==>
                e.wcetContribution == e.cost * e.freq && e.reference.context == EmptyContext &&
                exists a :: a in freqs && Emits(a, costOf(a.v)) && e == EntryOf(a, costOf(a.v))
  {
    ReconstructFollowsSurvivors(freqs, costOf);
    SurvivorsExactly(freqs, costOf);
    if Reconstruct(freqs, costOf).Success? {
      var entries := Reconstruct(freqs, costOf).value;
      var survivors := Survivors(freqs, costOf);
      forall e | e in entries
        ensures e.wcetContribution == e.cost * e.freq && e.reference.context == EmptyContext &&
                exists a :: a in freqs && Emits(a, costOf(a.v)) && e == EntryOf(a, costOf(a.v))
      {
        var k :| 0 <= k < |entries| && entries[k] == e;
        assert survivors[k] in survivors;
      }
    }
  }

  /** No frequencies, no entries: the profile of a failed solve is empty. */
  lemma NoFrequenciesNoEntries(costOf: Variable -> int)
    ensures Reconstruct([], costOf) == Success([])
  {
  }

  /**
   * The profile a timing report holds, built empty and extended in place
   * one entry at a time.
   */
  class Profile {
    var entries: seq<ProfileEntry>

    constructor (initial: seq<ProfileEntry>)
      ensures entries == initial
    {
      entries := initial;
    }

    method Add(e: ProfileEntry)
      modifies this
      ensures entries == old(entries) + [e]
    {
      entries := entries + [e];
    }
  }
}
