/**
 * The analysis orchestrator `WCA#analyze`: solve the IPET problem (falling
 * back to a degraded result when the solver raises), attach an empty profile
 * to a fresh timing report, and fill that profile in place from the
 * frequency map.
 */
module Wca {
  import opened Wrappers
  import opened Ilp
  import opened Profiles

  /** The options the orchestrator reads. */
  datatype Options = Options(disableIpetDiagnosis: bool, timingOutput: Option<string>)

  /** The machine-code function being analysed, as looked up by its label. */
  datatype MachineFunction = MachineFunction(name: string)

  /** `timing_output || 'platin'`: an empty string is kept, since Ruby treats it as true. */
  function Origin(options: Options): (r: string)
    ensures options.timingOutput.None? ==> r == "platin"
    ensures options.timingOutput.Some? ==> r == options.timingOutput.value
  {
    match options.timingOutput
    case None => "platin"
    case Some(origin) => origin
  }

  /** The timing report: it holds the profile object, which is filled after the report is built. */
  class TimingEntry {
    const scope: MachineFunction
    const cycles: int
    const profile: Profile
    const level: string
    const origin: string

    constructor (scope: MachineFunction, cycles: int, profile: Profile, level: string, origin: string)
      ensures this.scope == scope && this.cycles == cycles && this.profile == profile
      ensures this.level == level && this.origin == origin
    {
      this.scope := scope;
      this.cycles := cycles;
      this.profile := profile;
      this.level := level;
      this.origin := origin;
    }
  }

  /**
   * The loop over the frequency map: each pair is classified and either
   * skipped, appended to `profile`, or aborts the analysis.
   */
  method CollectEdgeTimings(profile: Profile, freqs: seq<Assignment>, costOf: Variable -> int)
    returns (status: Outcome<ShapeError>)
    modifies profile
    ensures Reconstruct(freqs, costOf).Success? ==>
              status == Pass && profile.entries == old(profile.entries) + Reconstruct(freqs, costOf).value
    ensures Reconstruct(freqs, costOf).Failure? ==> status == Fail(Reconstruct(freqs, costOf).error)
  {
    var i := 0;
    while i < |freqs|
      invariant 0 <= i <= |freqs|
      invariant Reconstruct(freqs[..i], costOf).Success?
      invariant profile.entries == old(profile.entries) + Reconstruct(freqs[..i], costOf).value
    {
      assert freqs[..i + 1][..i] == freqs[..i];
      var edgecost := costOf(freqs[i].v);
      match Classify(freqs[i], edgecost) {
        case Skip =>
        case Emit(entry) =>
          profile.Add(entry);
        case Die(e) =>
          ReconstructPrefixFailure(freqs, i + 1, costOf);
          return Fail(e);
      }
      i := i + 1;
    }
    assert freqs[..i] == freqs;
    return Pass;
  }

  /** Once a prefix of the map fails, the whole map fails with the same error. */
  lemma {:induction false} ReconstructPrefixFailure(freqs: seq<Assignment>, n: nat, costOf: Variable -> int)
    requires n <= |freqs|
    requires Reconstruct(freqs[..n], costOf).Failure?
    ensures Reconstruct(freqs, costOf) == Reconstruct(freqs[..n], costOf)
    decreases |freqs| - n
  {
    if n < |freqs| {
      assert freqs[..n + 1][..n] == freqs[..n];
      ReconstructPrefixFailure(freqs, n + 1, costOf);
    } else {
      assert freqs[..n] == freqs;
    }
  }

  /**
   * `analyze`, from the solve on: `outcome` is what the solver did and
   * `costOf` the ILP instance's cost lookup. It returns the report, or the
   * message the analysis dies with, together with the solver-failure
   * warning, if one is issued.
   */
  method Analyze(options: Options, machineEntry: MachineFunction, outcome: SolveOutcome, costOf: Variable -> int)
    returns (result: Result<TimingEntry, string>, diagnostic: Option<string>)
    ensures diagnostic == SolveDiagnostic(outcome, options.disableIpetDiagnosis)
    ensures var solution := SolveFallback(outcome);
            var profile := Reconstruct(solution.freqs, costOf);
            (result.Success? <==> profile.Success?) &&
            (result.Failure? ==> result.error == ShapeMessage(profile.error)) &&
            (result.Success? ==>
              fresh(result.value) && fresh(result.value.profile) &&
              result.value.scope == machineEntry &&
              result.value.cycles == solution.cycles &&
              result.value.profile.entries == profile.value &&
              result.value.level == "machinecode" &&
              result.value.origin == Origin(options))
  {
    diagnostic := SolveDiagnostic(outcome, options.disableIpetDiagnosis);
    var solution := SolveFallback(outcome);
    var profile := new Profile([]);
    var report := new TimingEntry(machineEntry, solution.cycles, profile, "machinecode", Origin(options));
    var status := CollectEdgeTimings(profile, solution.freqs, costOf);
    if status.Fail? {
      return Failure(ShapeMessage(status.error)), diagnostic;
    }
    result := Success(report);
  }

  /**
   * A failed solve is a degraded but completed analysis: -1 cycles, an empty
   * profile, and never a fatal error.
   */
  lemma SolveFailureDegrades(message: string, costOf: Variable -> int)
    ensures SolveFallback(SolveRaised(message)).cycles == -1
    ensures Reconstruct(SolveFallback(SolveRaised(message)).freqs, costOf) == Success([])
  {
  }

  /**
   * A successful analysis reports the solver's objective, and every entry of
   * its profile stands for a priced, well-shaped IPET edge of the solution.
   */
  lemma {:induction false} SolvedProfileSound(objective: int, freqs: seq<Assignment>, costOf: Variable -> int)
    ensures SolveFallback(Solved(objective, freqs)).cycles == objective
    ensures Reconstruct(SolveFallback(Solved(objective, freqs)).freqs, costOf).Success? ==>
              forall e :: e in Reconstruct(freqs, costOf).value ==>
                e.wcetContribution == e.cost * e.freq &&
                exists a :: a in freqs && Emits(a, costOf(a.v)) && e == EntryOf(a, costOf(a.v))
  {
    EntriesSound(freqs, costOf);
  }
}
