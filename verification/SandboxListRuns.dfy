/** The order in which RunPodSandbox acts, as ListPodSandbox relies on it: what Run does to Docker and to the
    checkpoints is what its steps do one after the other, the container before its checkpoint. */
module SandboxListRuns {
  import opened Text
  import opened Naming
  import opened SandboxNetwork
  import opened SandboxList
  import L = SandboxLifecycle

  /** The world of the listing shows the sandboxes of the state. */
  ghost predicate Shows(w: World, s: L.State) {
    && (forall id :: id in w.containers <==> id in s.containers && s.containers[id].sandbox.None?)
    && (forall id :: id in w.containers ==> w.containers[id].id == id && w.containers[id].names == [s.containers[id].name])
    && w.checkpoints.Keys == s.checkpoints.Keys && w.created.Keys <= s.issued
    && (forall id :: id in s.checkpoints && s.checkpoints[id].Stored? ==>
          w.checkpoints[id] == Checkpoint(s.checkpoints[id].identity.namespace, s.checkpoints[id].identity.name))
  }

  function StepsOfCreate(name: string, c: L.Create): seq<Step> {
    match c
    case Created(id) => [CreateContainer(id, ["/" + name])]
    case CreateFailed(None) => []
    case CreateFailed(Some(id)) => [CreateContainer(id, ["/" + name])]
  }

  /** The creation, with its recovery from a name conflict. */
  function StepsOfCreation(s: L.State, config: PodConfig, c: L.Creation): seq<Step> {
    var name := MakeSandboxName(config.metadata);
    match c
    case First(first) => StepsOfCreate(name, first)
    case Conflict(other, removeFails, random, again) =>
      if removeFails == Some(false) then []
      else if removeFails == Some(true) || other in s.containers then
        (if other in s.containers && s.containers[other].sandbox.None? then [RemoveContainer(other)] else [])
      else StepsOfCreate(RandomizeName(name, random), again)
  }

  function StepsOfRun(s: L.State, config: PodConfig, plugin: Option<string>, x: L.RunFaults): seq<Step> {
    if x.imageFails || x.configFails || x.runtimeFails then []
    else
      StepsOfCreation(s, config, x.creation) +
      match L.CreateSandbox(s, config, NetworkModeOf(config, plugin), x.creation).1
      case Some(id) => StepsOfCheckpoint(id, config, x)
      case None => []
  }

  /** The steps, at most one, lead from `w` to a world that shows `t`, with the container `id` created. */
  ghost predicate Leads(w: World, steps: seq<Step>, t: L.State, id: Option<string>) {
    && |steps| <= 1 && (steps == [] ==> Shows(w, t) && id == None)
    && (steps != [] ==> Enabled(w, steps[0]) && Shows(Take(w, steps[0]), t))
    && (id.Some? ==> steps != [] && id.value in Take(w, steps[0]).created)
  }

  lemma CreateShows(w: World, s: L.State, name: string, mode: string, c: L.Create)
    requires Shows(w, s) && L.FreshId(s, c)
    ensures var (t, id) := L.CreateContainer(s, name, mode, c); Leads(w, StepsOfCreate(name, c), t, id)
  {
  }

  lemma RemovalShows(w: World, s: L.State, other: string)
    requires Shows(w, s)
    ensures Leads(w, if other in s.containers && s.containers[other].sandbox.None? then [RemoveContainer(other)] else [],
                  s.(containers := s.containers - {other}), None)
  {
  }

  lemma CreationShows(w: World, s: L.State, config: PodConfig, mode: string, x: L.RunFaults)
    requires Shows(w, s) && L.FreshIds(s, x)
    ensures var (t, id) := L.CreateSandbox(s, config, mode, x.creation); Leads(w, StepsOfCreation(s, config, x.creation), t, id)
  {
    var name := MakeSandboxName(config.metadata);
    match x.creation
    case First(first) => CreateShows(w, s, name, mode, first);
    case Conflict(other, removeFails, random, again) =>
      if removeFails == Some(false) {
      } else if removeFails == Some(true) || other in s.containers {
        RemovalShows(w, s, other);
      } else {
        CreateShows(w, s, RandomizeName(name, random), mode, again);
      }
  }

  lemma AppendCreation(before: seq<Step>, steps: seq<Step>, t: L.State, id: Option<string>)
    requires Possible(before) && Leads(WorldAfter(before), steps, t, id)
    ensures Possible(before + steps) && Shows(WorldAfter(before + steps), t)
    ensures id.Some? ==> id.value in WorldAfter(before + steps).created
  {
    if steps == [] {
      assert before + [] == before;
    } else {
      assert steps == [steps[0]];
      StepPossible(before, steps[0], Take(WorldAfter(before), steps[0]));
    }
  }

  /** After the creation Run changes only the checkpoint of the sandbox it created. */
  lemma RestShows(w: World, s: L.State, id: string, config: PodConfig, x: L.RunFaults)
    requires Shows(w, s) && id in w.created
    ensures var e := L.AfterCreation(s, id, config, x).s;
      var step := CreateCheckpoint(id, Checkpoint(config.metadata.namespace, config.metadata.name));
      Enabled(w, step) && Shows(if x.checkpointFails then w else Take(w, step), e)
  {
  }

  lemma ReadyIsNotShown(w: World, s: L.State, ready: map<string, bool>)
    requires Shows(w, s)
    ensures Shows(w, s.(ready := ready))
  {
  }

  function StepsOfCheckpoint(id: string, config: PodConfig, x: L.RunFaults): seq<Step> {
    if x.checkpointFails then [] else [CreateCheckpoint(id, Checkpoint(config.metadata.namespace, config.metadata.name))]
  }

  lemma AppendCheckpoint(mid: seq<Step>, s: L.State, id: string, config: PodConfig, x: L.RunFaults)
    requires Possible(mid) && Shows(WorldAfter(mid), s) && id in WorldAfter(mid).created
    ensures var steps := mid + StepsOfCheckpoint(id, config, x);
      Possible(steps) && Shows(WorldAfter(steps), L.AfterCreation(s, id, config, x).s)
  {
    RestShows(WorldAfter(mid), s, id, config, x);
    if x.checkpointFails {
      assert mid + [] == mid;
    } else {
      var step := CreateCheckpoint(id, Checkpoint(config.metadata.namespace, config.metadata.name));
      StepPossible(mid, step, Take(WorldAfter(mid), step));
    }
  }

  /** From every world that a run of steps can reach, Run's steps are possible, in this order, and lead to a
      world that shows the state Run leaves. */
  lemma RunIsItsSteps(before: seq<Step>, s: L.State, config: PodConfig, plugin: Option<string>, x: L.RunFaults)
    requires Possible(before) && Shows(WorldAfter(before), s) && L.FreshIds(s, x)
    ensures var steps := before + StepsOfRun(s, config, plugin, x);
      Possible(steps) && Shows(WorldAfter(steps), L.Run(s, config, plugin, x).0)
  {
    if x.imageFails || x.configFails || x.runtimeFails {
      assert before + [] == before;
    } else {
      var (t, id) := L.CreateSandbox(s, config, NetworkModeOf(config, plugin), x.creation);
      var creation := StepsOfCreation(s, config, x.creation);
      CreationShows(WorldAfter(before), s, config, NetworkModeOf(config, plugin), x);
      AppendCreation(before, creation, t, id);
      if id.None? {
        assert creation + [] == creation;
      } else {
        CreatedRunShows(before + creation, t, id.value, config, x);
        StepsRegroup(before, creation, StepsOfCheckpoint(id.value, config, x));
      }
    }
  }

  lemma StepsRegroup(a: seq<Step>, b: seq<Step>, c: seq<Step>)
    ensures a + (b + c) == a + b + c
  {
  }

  lemma CreatedRunShows(mid: seq<Step>, t: L.State, id: string, config: PodConfig, x: L.RunFaults)
    requires Possible(mid) && Shows(WorldAfter(mid), t) && id in WorldAfter(mid).created
    ensures var steps := mid + StepsOfCheckpoint(id, config, x);
      var e := L.AfterCreation(t.(ready := t.ready[id := false]), id, config, x);
      Possible(steps) && Shows(WorldAfter(steps), if e.err.None? then e.s.(ready := e.s.ready[id := true]) else e.s)
  {
    ReadyIsNotShown(WorldAfter(mid), t, t.ready[id := false]);
    AppendCheckpoint(mid, t.(ready := t.ready[id := false]), id, config, x);
    var e := L.AfterCreation(t.(ready := t.ready[id := false]), id, config, x);
    ReadyIsNotShown(WorldAfter(mid + StepsOfCheckpoint(id, config, x)), e.s, e.s.ready[id := true]);
  }
}
