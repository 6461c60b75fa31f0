/**
 * The build step of the `run` command (cmd/run.go): choosing the groups of a
 * composition that need a build, and writing the artifacts the build returns
 * back into exactly those groups.
 */
module RunCommand {
  import opened Wrappers

  /** The run section of a group; only its artifact matters here. */
  datatype RunSpec = RunSpec(artifact: string)

  /** A group of a composition. */
  datatype Group = Group(id: string, run: RunSpec)

  /** A composition; only its groups matter here. */
  datatype Composition = Composition(groups: seq<Group>)

  /** One result of a build, in the order of the groups it was asked for. */
  datatype BuildOutput = BuildOutput(artifactPath: string)

  /** How the build step of doRun ends. */
  datatype Step =
    | Proceed            // go on to send the run request
    | Abort(err: string) // PickGroups or the build failed; doRun returns the error
    | Panic              // the build returned fewer outputs than groups: `bout[i]` is out of range

  /**
   * runCompositionCmd up to doRun: an empty file name is rejected before the
   * file is decoded; then decoding and validation errors are wrapped.
   */
  function LoadComposition(file: string, decodeFile: string -> Result<Composition, string>,
                           validate: Composition -> Option<string>): (r: Result<Composition, string>)
    ensures file == "" ==> r == Failure("no composition file supplied")
    ensures r.Success? ==> file != "" && decodeFile(file) == Success(r.value) && validate(r.value).None?
    ensures file != "" && decodeFile(file).Failure? ==>
      r == Failure("failed to process composition file: " + decodeFile(file).error)
    ensures file != "" && decodeFile(file).Success? ==>
      (r.Success? <==> validate(decodeFile(file).value).None?)
    ensures file != "" && decodeFile(file).Success? && validate(decodeFile(file).value).Some? ==>
      r == Failure("invalid composition file: " + validate(decodeFile(file).value).value)
  {
    if file == "" then Failure("no composition file supplied")
    else
      match decodeFile(file)
      case Failure(e) => Failure("failed to process composition file: " + e)
      case Success(comp) =>
        match validate(comp)
        case Some(e) => Failure("invalid composition file: " + e)
        case None => Success(comp)
  }

  /** A group is built when it has no artifact, or when artifacts are ignored. */
  predicate NeedsBuild(g: Group, ignore: bool)
  {
    g.run.artifact == "" || ignore
  }

  /** The indices, in group order, of the groups that need a build. */
  function SelectedIndices(gs: seq<Group>, ignore: bool): (idx: seq<nat>)
    ensures |idx| <= |gs|
    ensures forall k :: 0 <= k < |idx| ==> idx[k] < |gs|
  {
    if gs == [] then []
    else
      var prev := SelectedIndices(gs[..|gs| - 1], ignore);
      if NeedsBuild(gs[|gs| - 1], ignore) then prev + [|gs| - 1] else prev
  }

  predicate StrictlyIncreasing(idx: seq<nat>)
  {
    forall a, b :: 0 <= a < b < |idx| ==> idx[a] < idx[b]
  }

  /**
   * The selected indices follow group order, and an index is selected iff
   * its group needs a build.
   */
  lemma {:induction false} SelectedIndicesSpec(gs: seq<Group>, ignore: bool)
    ensures StrictlyIncreasing(SelectedIndices(gs, ignore))
    ensures forall i :: 0 <= i < |gs| ==> (i in SelectedIndices(gs, ignore) <==> NeedsBuild(gs[i], ignore))
  {
    if gs != [] {
      var n := |gs| - 1;
      SelectedIndicesSpec(gs[..n], ignore);
      assert forall i :: 0 <= i < n ==> gs[..n][i] == gs[i];
    }
  }

  /** The selection loop of doRun. */
  method SelectBuildGroups(groups: array<Group>, ignore: bool) returns (buildIdx: seq<nat>)
    ensures buildIdx == SelectedIndices(groups[..], ignore)
    ensures StrictlyIncreasing(buildIdx)
    ensures forall k :: 0 <= k < |buildIdx| ==> buildIdx[k] < groups.Length
    ensures forall i :: 0 <= i < groups.Length ==> (i in buildIdx <==> NeedsBuild(groups[i], ignore))
  {
    buildIdx := [];
    for i := 0 to groups.Length
      invariant buildIdx == SelectedIndices(groups[..i], ignore)
    {
      assert groups[..i + 1][..i] == groups[..i];
      if groups[i].run.artifact == "" || ignore {
        buildIdx := buildIdx + [i];
      }
    }
    assert groups[..groups.Length] == groups[..];
    SelectedIndicesSpec(groups[..], ignore);
  }

  /** `g` with its run artifact replaced. */
  function WithArtifact(g: Group, path: string): Group
  {
    g.(run := g.run.(artifact := path))
  }

  /** The groups after the i-th selected group has received the i-th output, in order. */
  function Backfilled(gs: seq<Group>, idx: seq<nat>, bout: seq<BuildOutput>): (r: seq<Group>)
    requires |idx| <= |bout|
    requires forall k :: 0 <= k < |idx| ==> idx[k] < |gs|
    ensures |r| == |gs|
  {
    if idx == [] then gs
    else
      var n := |idx| - 1;
      var prev := Backfilled(gs, idx[..n], bout);
      prev[idx[n] := WithArtifact(prev[idx[n]], bout[n].artifactPath)]
  }

  /**
   * With distinct indices, the i-th selected group carries the i-th artifact
   * and is otherwise unchanged, and every other group is untouched.
   */
  lemma {:induction false} BackfilledSpec(gs: seq<Group>, idx: seq<nat>, bout: seq<BuildOutput>)
    requires |idx| <= |bout|
    requires forall k :: 0 <= k < |idx| ==> idx[k] < |gs|
    requires StrictlyIncreasing(idx)
    ensures forall k :: 0 <= k < |idx| ==>
      Backfilled(gs, idx, bout)[idx[k]] == WithArtifact(gs[idx[k]], bout[k].artifactPath)
    ensures forall j :: 0 <= j < |gs| && j !in idx ==> Backfilled(gs, idx, bout)[j] == gs[j]
  {
    if idx != [] {
      var n := |idx| - 1;
      BackfilledSpec(gs, idx[..n], bout);
      assert forall k :: 0 <= k < n ==> idx[..n][k] == idx[k];
      assert forall j :: j in idx ==> j in idx[..n] || j == idx[n];
    }
  }

  /**
   * The backfill loop of doRun. When `bout` is too short the code panics on
   * `bout[i]` after the first |bout| groups have been written: then `ok` is
   * false.
   */
  method Backfill(groups: array<Group>, buildIdx: seq<nat>, bout: seq<BuildOutput>) returns (ok: bool)
    requires forall k :: 0 <= k < |buildIdx| ==> buildIdx[k] < groups.Length
    modifies groups
    ensures ok <==> |buildIdx| <= |bout|
    ensures ok ==> groups[..] == Backfilled(old(groups[..]), buildIdx, bout)
    ensures !ok ==> groups[..] == Backfilled(old(groups[..]), buildIdx[..|bout|], bout)
  {
    for i := 0 to |buildIdx|
      invariant i <= |bout|
      invariant groups[..] == Backfilled(old(groups[..]), buildIdx[..i], bout)
    {
      if i >= |bout| {
        return false;
      }
      var groupIdx := buildIdx[i];
      assert buildIdx[..i + 1][..i] == buildIdx[..i];
      groups[groupIdx] := WithArtifact(groups[groupIdx], bout[i].artifactPath);
    }
    assert buildIdx[..|buildIdx|] == buildIdx;
    return true;
  }

  /**
   * Lines 141-166 of doRun: select the groups to build; if there are any,
   * pick them out of the composition, build them, and write the artifacts
   * back. PickGroups and the build are collaborators given as functions.
   */
  method PrepareBuilds(groups: array<Group>, ignore: bool,
                       pickGroups: (seq<Group>, seq<nat>) -> Result<Composition, string>,
                       doBuild: Composition -> Result<seq<BuildOutput>, string>)
    returns (step: Step)
    modifies groups
    ensures var gs := old(groups[..]); var idx := SelectedIndices(gs, ignore);
      if idx == [] then step == Proceed && groups[..] == gs
      else if pickGroups(gs, idx).Failure? then step == Abort(pickGroups(gs, idx).error) && groups[..] == gs
      else if doBuild(pickGroups(gs, idx).value).Failure? then
        step == Abort(doBuild(pickGroups(gs, idx).value).error) && groups[..] == gs
      else
        var bout := doBuild(pickGroups(gs, idx).value).value;
        if |idx| <= |bout| then step == Proceed && groups[..] == Backfilled(gs, idx, bout)
        else step == Panic && groups[..] == Backfilled(gs, idx[..|bout|], bout)
    ensures step.Abort? ==> groups[..] == old(groups[..])
    ensures forall j :: 0 <= j < groups.Length && !NeedsBuild(old(groups[j]), ignore) ==> groups[j] == old(groups[j])
  {
    ghost var gs := groups[..];
    var buildIdx := SelectBuildGroups(groups, ignore);
    if |buildIdx| > 0 {
      var bcomp := pickGroups(groups[..], buildIdx);
      if bcomp.Failure? {
        return Abort(bcomp.error);
      }
      var bout := doBuild(bcomp.value);
      if bout.Failure? {
        return Abort(bout.error);
      }
      var ok := Backfill(groups, buildIdx, bout.value);
      var n := if ok then |buildIdx| else |bout.value|;
      assert buildIdx[..n] == if ok then buildIdx else buildIdx[..|bout.value|];
      assert StrictlyIncreasing(buildIdx[..n]);
      BackfilledSpec(gs, buildIdx[..n], bout.value);
      forall j | 0 <= j < groups.Length && !NeedsBuild(gs[j], ignore) ensures groups[j] == gs[j] {
        assert j !in buildIdx;
        assert j !in buildIdx[..n];
      }
      step := if ok then Proceed else Panic;
    } else {
      step := Proceed;
    }
  }
}
