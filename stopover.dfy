/** The stopover command (main.go): resolve the input resource versions of
    one build of a Concourse job, keyed "resource_version_<name>". */
module Stopover {
  import opened Wrappers
  import opened Strings
  import Strconv

  /** `atc.Version`: an opaque flat string-to-string map, copied verbatim. */
  type Version = map<string, string>

  /** `atc.PublicBuildInput` and `atc.PublicBuildOutput`: the fields the code touches. */
  datatype BuildInput = BuildInput(resource: string, version: Version)
  datatype BuildOutput = BuildOutput(resource: string, version: Version)
  datatype BuildInputsOutputs = BuildInputsOutputs(inputs: seq<BuildInput>, outputs: seq<BuildOutput>)

  /** `atc.Build`; only its global ID is used here. */
  datatype Build = Build(id: int)

  /** The `(value, found, err)` triple every client lookup returns. */
  datatype Lookup<T> = Lookup(value: T, found: bool, err: Option<Error>)

  predicate Failed<T>(l: Lookup<T>) { !l.found || l.err.Some? }

  /** `team.JobBuild(pipeline, job, build)` as seen by the resolver; the team
      (whether given as a value or looked up by name through `client.Team`)
      is fixed inside the function. */
  type JobBuildLookup = (string, string, string) -> Lookup<Build>

  /** `client.BuildResources(buildID)`. */
  type BuildResourcesLookup = int -> Lookup<BuildInputsOutputs>

  const KeyPrefix: string := "resource_version_"
  const BuildNotFoundMessage: string := "could not get build for job"
  const ResourcesNotFoundPrefix: string := "could not get resources for build with global ID "

  function Key(resource: string): string { KeyPrefix + resource }

  function ResourcesNotFoundMessage(id: int): string { ResourcesNotFoundPrefix + Strconv.Itoa(id) }

  /** The output map the range loop builds from `inputs`, one insertion per
      input in order, so a later input overwrites an earlier one of the same name. */
  function Project(inputs: seq<BuildInput>): map<string, Version>
  {
    if inputs == [] then map[]
    else
      var last := inputs[|inputs| - 1];
      Project(inputs[..|inputs| - 1])[Key(last.resource) := last.version]
  }

  /** `GetResourceVersions`: look up the build, then its resources (with
      exactly the build's ID), then project the inputs. Either error exit
      returns a nil map. */
  method GetResourceVersions(jobBuild: JobBuildLookup, buildResources: BuildResourcesLookup,
                             pipelineName: string, jobName: string, buildName: string)
    returns (versions: Option<map<string, Version>>, err: Option<Error>)
    ensures versions.Some? <==> err.None?
    ensures var b := jobBuild(pipelineName, jobName, buildName);
      Failed(b) ==> err == Some(Error(BuildNotFoundMessage))
    ensures var b := jobBuild(pipelineName, jobName, buildName);
      !Failed(b) && Failed(buildResources(b.value.id)) ==>
        err == Some(Error(ResourcesNotFoundMessage(b.value.id)))
    ensures var b := jobBuild(pipelineName, jobName, buildName);
      !Failed(b) && !Failed(buildResources(b.value.id)) ==>
        versions == Some(Project(buildResources(b.value.id).value.inputs))
  {
    var build := jobBuild(pipelineName, jobName, buildName);
    if !build.found || build.err.Some? {
      return None, Some(Error(BuildNotFoundMessage));
    }
    var globalID := build.value.id;
    var buildInputsOutputs := buildResources(globalID);
    if !buildInputsOutputs.found || buildInputsOutputs.err.Some? {
      return None, Some(Error(ResourcesNotFoundMessage(globalID)));
    }
    var inputs := buildInputsOutputs.value.inputs;
    var resourceVersions: map<string, Version> := map[];
    var i := 0;
    while i < |inputs|
      invariant 0 <= i <= |inputs|
      invariant resourceVersions == Project(inputs[..i])
    {
      assert inputs[..i + 1][..i] == inputs[..i];
      resourceVersions := resourceVersions[Key(inputs[i].resource) := inputs[i].version];
      i := i + 1;
    }
    assert inputs[..|inputs|] == inputs;
    return Some(resourceVersions), None;
  }

  lemma KeyInjective(a: string, b: string)
    requires Key(a) == Key(b)
    ensures a == b
  {
    assert a == Key(a)[|KeyPrefix|..];
    assert b == Key(b)[|KeyPrefix|..];
  }

  /** The keys are exactly the prefixed names of the inputs. */
  lemma {:induction false} ProjectKeys(inputs: seq<BuildInput>)
    ensures Project(inputs).Keys == set i | 0 <= i < |inputs| :: Key(inputs[i].resource)
  {
    if inputs != [] {
      var init := inputs[..|inputs| - 1];
      ProjectKeys(init);
      var keys := set i | 0 <= i < |inputs| :: Key(inputs[i].resource);
      var initKeys := set i | 0 <= i < |init| :: Key(init[i].resource);
      assert keys == initKeys + {Key(inputs[|inputs| - 1].resource)} by {
        forall k | k in keys ensures k in initKeys + {Key(inputs[|inputs| - 1].resource)} {
          var i :| 0 <= i < |inputs| && k == Key(inputs[i].resource);
          if i < |init| { assert k == Key(init[i].resource); }
        }
        forall k | k in initKeys ensures k in keys {
          var i :| 0 <= i < |init| && k == Key(init[i].resource);
          assert k == Key(inputs[i].resource);
        }
      }
    }
  }

  /** An input with no later input of the same name has its version in the
      result: last write wins. */
  lemma {:induction false} ProjectLastWins(inputs: seq<BuildInput>, i: nat)
    requires i < |inputs|
    requires forall j :: i < j < |inputs| ==> inputs[j].resource != inputs[i].resource
    ensures Key(inputs[i].resource) in Project(inputs)
    ensures Project(inputs)[Key(inputs[i].resource)] == inputs[i].version
  {
    var last := inputs[|inputs| - 1];
    if i < |inputs| - 1 {
      var init := inputs[..|inputs| - 1];
      ProjectLastWins(init, i);
      if Key(last.resource) == Key(inputs[i].resource) {
        KeyInjective(last.resource, inputs[i].resource);
      }
    }
  }

  /** Every key carries the prefix, and there are never more keys than inputs. */
  lemma {:induction false} ProjectBounded(inputs: seq<BuildInput>)
    ensures forall k :: k in Project(inputs) ==> KeyPrefix <= k
    ensures |Project(inputs)| <= |inputs|
  {
    if inputs != [] {
      ProjectBounded(inputs[..|inputs| - 1]);
    }
  }

  /** With pairwise distinct names there is exactly one key per input. */
  lemma {:induction false} ProjectDistinct(inputs: seq<BuildInput>)
    requires forall i, j :: 0 <= i < j < |inputs| ==> inputs[i].resource != inputs[j].resource
    ensures |Project(inputs)| == |inputs|
  {
    if inputs != [] {
      var init := inputs[..|inputs| - 1];
      var last := inputs[|inputs| - 1];
      ProjectDistinct(init);
      ProjectKeys(init);
      if Key(last.resource) in Project(init) {
        var i :| 0 <= i < |init| && Key(last.resource) == Key(init[i].resource);
        KeyInjective(last.resource, init[i].resource);
        assert false;
      }
    }
  }

  /** The projection of the three inputs in get_resource_versions_test.go. */
  lemma ProjectTestInputs()
    ensures Project([
      BuildInput("config-repo", map["ref" := "14a1260f1fe39088fcde02fedb8de30da435dd61"]),
      BuildInput("ert-config", map["ref" := "d3fa445682b68c6869fa9866ef69b31de0ec25ce"]),
      BuildInput("om-cli", map["version_id" := "Q.6uemV1Y5FPnTo5sAQbwHINdMPnEoaP"])])
      == map[
        "resource_version_config-repo" := map["ref" := "14a1260f1fe39088fcde02fedb8de30da435dd61"],
        "resource_version_ert-config" := map["ref" := "d3fa445682b68c6869fa9866ef69b31de0ec25ce"],
        "resource_version_om-cli" := map["version_id" := "Q.6uemV1Y5FPnTo5sAQbwHINdMPnEoaP"]]
  {
    var a := BuildInput("config-repo", map["ref" := "14a1260f1fe39088fcde02fedb8de30da435dd61"]);
    var b := BuildInput("ert-config", map["ref" := "d3fa445682b68c6869fa9866ef69b31de0ec25ce"]);
    var c := BuildInput("om-cli", map["version_id" := "Q.6uemV1Y5FPnTo5sAQbwHINdMPnEoaP"]);
    assert [a, b, c][..2] == [a, b] && [a, b][..1] == [a] && [a][..0] == [];
    assert Project([a]) == map[Key(a.resource) := a.version];
    assert Project([a, b]) == map[Key(a.resource) := a.version, Key(b.resource) := b.version];
    assert Project([a, b, c]) == map[Key(a.resource) := a.version, Key(b.resource) := b.version, Key(c.resource) := c.version];
    assert Key(a.resource) == "resource_version_config-repo";
    assert Key(b.resource) == "resource_version_ert-config";
    assert Key(c.resource) == "resource_version_om-cli";
  }

  /** The two resources-lookup failures of different builds read differently:
      the message names the build by its decimal ID. */
  lemma ResourcesMessageNamesBuild(m: int, n: int)
    requires ResourcesNotFoundMessage(m) == ResourcesNotFoundMessage(n)
    ensures m == n
  {
    var p := |ResourcesNotFoundPrefix|;
    assert Strconv.Itoa(m) == ResourcesNotFoundMessage(m)[p..];
    assert Strconv.Itoa(n) == ResourcesNotFoundMessage(n)[p..];
    Strconv.ItoaInjective(m, n);
  }

  /** What `main` does before resolving: print the usage and exit 1, exit on
      a target that fails to load, or go on with the split job flag. */
  datatype Invocation =
    | UsageExit(status: int)
    | TargetExit(err: Error)
    | Resolve(target: string, pipeline: string, job: string, build: string)

  /** The flag checks of `main`: an empty `-target` first, then loading the
      saved target (`loadTargetErr` is that I/O's error), then `-job`
      split with `SplitN(jobFlag, "/", 2)`, which must give two parts. */
  function CheckFlags(target: string, jobFlag: string, build: string, loadTargetErr: Option<Error>): (r: Invocation)
    ensures target == "" ==> r == UsageExit(1)
    ensures target != "" && loadTargetErr.Some? ==> r == TargetExit(loadTargetErr.value)
    ensures r.UsageExit? <==> target == "" || (loadTargetErr.None? && '/' !in jobFlag)
    ensures r.UsageExit? ==> r.status == 1
    ensures r.TargetExit? <==> target != "" && loadTargetErr.Some?
    ensures r.Resolve? <==> target != "" && loadTargetErr.None? && '/' in jobFlag
    ensures r.Resolve? ==>
      && r.target == target && r.build == build
      && r.pipeline + "/" + r.job == jobFlag
      && '/' !in r.pipeline
  {
    if target == "" then UsageExit(1)
    else if loadTargetErr.Some? then TargetExit(loadTargetErr.value)
    else
      var splitJob := SplitN(jobFlag, '/', 2);
      if |splitJob| != 2 then UsageExit(1)
      else Resolve(target, splitJob[0], splitJob[1], build)
  }
}
