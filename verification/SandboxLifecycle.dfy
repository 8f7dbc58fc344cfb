/** The life of a pod sandbox: core/sandbox_run.go, core/sandbox_stop.go and core/sandbox_remove.go over
    Docker's containers, the checkpoints and the networkReady map.

    Every call to Docker, to the network plugin or to the checkpoint store may fail.  A failing removal
    or creation may still have taken effect. */
module SandboxLifecycle {
  import opened Text
  import opened Naming
  import opened SandboxNetwork

  /** A container as Docker reports it; `sandbox` is its sandbox label. */
  datatype Container = Container(name: string, networkMode: string, sandbox: Option<string>)

  datatype Identity = Identity(namespace: string, name: string, hostNetwork: bool)

  datatype Checkpoint = Stored(identity: Identity) | Corrupt

  datatype PluginCall =
    | SetUp(id: string, namespace: string, name: string, ok: bool)
    | TearDown(id: string, namespace: string, name: string, ok: bool)

  /** `issued` holds the ids Docker has given out; it never gives one out again. */
  datatype State = State(containers: map<string, Container>, checkpoints: map<string, Checkpoint>,
                         ready: map<string, bool>, calls: seq<PluginCall>, issued: set<string>)

  // ---- Run -------------------------------------------------------------------------------------------------

  /** One request to create a container: a failing one may leave a container behind. */
  datatype Create = Created(id: string) | CreateFailed(left: Option<string>)

  /** `Conflict`: the first request is refused because of the container `other`; removing that one fails
      if `removeFails` is given, with the effect it tells. */
  datatype Creation = First(c: Create) | Conflict(other: string, removeFails: Option<bool>, random: Uint32, again: Create)

  datatype RunFaults = RunFaults(imageFails: bool, configFails: bool, runtimeFails: bool, creation: Creation,
                                 checkpointFails: bool, startFails: bool, inspectFails: bool, rewriteFails: bool,
                                 marshalFails: bool, setUpFails: bool, tearDownFails: bool, stopFails: bool)

  function IdentityOf(config: PodConfig): Identity {
    Identity(config.metadata.namespace, config.metadata.name, Network(config) == Node)
  }

  function CreateContainer(s: State, name: string, mode: string, c: Create): (State, Option<string>) {
    match c
    case Created(id) => (s.(containers := s.containers[id := Container("/" + name, mode, None)], issued := s.issued + {id}), Some(id))
    case CreateFailed(None) => (s, None)
    case CreateFailed(Some(id)) => (s.(containers := s.containers[id := Container("/" + name, mode, None)], issued := s.issued + {id}), None)
  }

  /** The creation with its recovery from a name conflict. */
  function CreateSandbox(s: State, config: PodConfig, mode: string, c: Creation): (State, Option<string>) {
    match c
    case First(c) => CreateContainer(s, MakeSandboxName(config.metadata), mode, c)
    case Conflict(other, removeFails, random, again) =>
      if removeFails == Some(false) then (s, None)
      else if removeFails == Some(true) || other in s.containers then (s.(containers := s.containers - {other}), None)
      else CreateContainer(s, RandomizeName(MakeSandboxName(config.metadata), random), mode, again)
  }

  /** The calls whose errors Run looks at after the creation. */
  datatype Call = CreatingCheckpoint | Starting | Inspecting | Rewriting | Marshalling | SettingUp | TearingDown | Stopping

  function ErrorIf(fails: bool, call: Call): Option<Call> { if fails then Some(call) else None }

  /** `ok` is the result of Run; `err` is what its outer error variable holds at the end. */
  datatype Ended = Ended(s: State, ok: bool, err: Option<Call>)

  /** What follows the creation.  Each call that Run assigns to its outer error variable has a value of its
      own here, and every exit carries the last of them; the errors of the DNS steps are other variables. */
  function AfterCreation(s: State, id: string, config: PodConfig, x: RunFaults): Ended {
    var who := IdentityOf(config);
    var created := ErrorIf(x.checkpointFails, CreatingCheckpoint);
    if created.Some? then Ended(s, false, created)
    else
      var s1 := s.(checkpoints := s.checkpoints[id := Stored(who)]);
      var started := ErrorIf(x.startFails, Starting);
      if started.Some? then Ended(s1, false, started)
      else if config.dns && ErrorIf(x.inspectFails, Inspecting).Some? then Ended(s1, false, started)
      else if config.dns && ErrorIf(x.rewriteFails, Rewriting).Some? then Ended(s1, false, started)
      else if who.hostNetwork then Ended(s1, true, started)
      else if config.dns && ErrorIf(x.marshalFails, Marshalling).Some? then Ended(s1, false, started)
      else AfterSetUp(s1, id, who, x)
  }

  /** SetUpPod and, where it fails, the clean-up. */
  function AfterSetUp(s: State, id: string, who: Identity, x: RunFaults): Ended {
    var s1 := s.(calls := s.calls + [SetUp(id, who.namespace, who.name, !x.setUpFails)]);
    var setUp := ErrorIf(x.setUpFails, SettingUp);
    if setUp.None? then Ended(s1, true, setUp)
    else
      var s2 := s1.(calls := s1.calls + [TearDown(id, who.namespace, who.name, !x.tearDownFails)]);
      Ended(s2, false, ErrorIf(x.stopFails, Stopping))
  }

  /** The state after RunPodSandbox and the id of the sandbox if it succeeds. */
  function Run(s: State, config: PodConfig, plugin: Option<string>, x: RunFaults): (State, Option<string>) {
    if x.imageFails || x.configFails || x.runtimeFails then (s, None)
    else
      match CreateSandbox(s, config, NetworkModeOf(config, plugin), x.creation)
      case (s1, None) => (s1, None)
      case (s1, Some(id)) =>
        var e := AfterCreation(s1.(ready := s1.ready[id := false]), id, config, x);
        (if e.err.None? then e.s.(ready := e.s.ready[id := true]) else e.s, if e.ok then Some(id) else None)
  }

  // ---- Stop ------------------------------------------------------------------------------------------------

  datatype StopFaults = StopFaults(inspectFails: bool, readFails: bool, dropFails: bool, tearDownFails: bool,
                                   stopFails: bool, removeFails: bool)

  /** What getPodSandboxDetails learns from Docker. */
  function FromInspect(s: State, id: string): Option<Identity> {
    if id in s.containers then Details(s.containers[id]) else None
  }

  function Details(c: Container): Option<Identity> {
    match ParseSandboxName(c.name)
    case None => None
    case Some(m) => Some(Identity(m.namespace, m.name, NetworkNamespaceMode(c.networkMode) == Node))
  }

  function FromCheckpoint(s: State, id: string): Option<Identity> {
    if id in s.checkpoints && s.checkpoints[id].Stored? then Some(s.checkpoints[id].identity) else None
  }

  /** The identity Stop acts on; None if it returns an error instead.  `seen` is what Docker tells. */
  function Resolve(s: State, id: string, seen: Option<Identity>, x: StopFaults): Option<Identity> {
    if !x.inspectFails && seen.Some? then seen
    else if !x.readFails && FromCheckpoint(s, id).Some? then FromCheckpoint(s, id)
    else if !x.inspectFails && id !in s.containers then Some(Identity("", "", false))
    else None
  }

  /** A checkpoint that cannot be read is deleted, whatever the reason. */
  function DropUnreadable(s: State, id: string, seen: Option<Identity>, x: StopFaults): State {
    if !x.inspectFails && seen.Some? then s
    else if (x.readFails || (id in s.checkpoints && s.checkpoints[id].Corrupt?)) && !x.dropFails
    then s.(checkpoints := s.checkpoints - {id})
    else s
  }

  predicate MustTearDown(s: State, id: string, who: Identity) {
    !who.hostNetwork && (id !in s.ready || s.ready[id])
  }

  function TearDownIfReady(s: State, id: string, who: Identity, fails: bool): State {
    if !MustTearDown(s, id, who) then s
    else
      var s1 := s.(calls := s.calls + [TearDown(id, who.namespace, who.name, !fails)]);
      if fails then s1 else s1.(ready := s1.ready[id := false])
  }

  function StopSeen(s: State, id: string, seen: Option<Identity>, x: StopFaults): (State, bool) {
    var s1 := DropUnreadable(s, id, seen, x);
    match Resolve(s, id, seen, x)
    case None => (s1, false)
    case Some(who) =>
      var s2 := TearDownIfReady(s1, id, who, x.tearDownFails);
      var s3 := if !x.stopFails && id !in s.containers && !x.removeFails
                then s2.(checkpoints := s2.checkpoints - {id}) else s2;
      (s3, !(MustTearDown(s, id, who) && x.tearDownFails) && !x.stopFails)
  }

  function Stop(s: State, id: string, x: StopFaults): (State, bool) { StopSeen(s, id, FromInspect(s, id), x) }

  // ---- what Stop does ------------------------------------------------------------------------------------------

  /** Docker answers with a container whose name can be parsed; the checkpoint is there and can be read. */
  predicate DockerTells(s: State, id: string, x: StopFaults) {
    !x.inspectFails && id in s.containers && ParseSandboxName(s.containers[id].name).Some?
  }

  predicate CheckpointTells(s: State, id: string, x: StopFaults) {
    !x.readFails && id in s.checkpoints && s.checkpoints[id].Stored?
  }

  /** Stop goes on: Docker or the checkpoint tells the identity, or Docker says that there is no such container. */
  predicate Identified(s: State, id: string, x: StopFaults, docker: bool) {
    docker || CheckpointTells(s, id, x) || (!x.inspectFails && id !in s.containers)
  }

  /** The identity then: Docker's word before the checkpoint's, and none without either. */
  ghost predicate IdentifiedAs(s: State, id: string, x: StopFaults, who: Identity) {
    if DockerTells(s, id, x) then
      && who.namespace == ParseSandboxName(s.containers[id].name).value.namespace
      && who.name == ParseSandboxName(s.containers[id].name).value.name
      && who.hostNetwork == (s.containers[id].networkMode == HOST_MODE)
    else if CheckpointTells(s, id, x) then Stored(who) == s.checkpoints[id]
    else who == Identity("", "", false)
  }

  /** The teardown is due: the sandbox is not on the host's network and not marked as torn down. */
  predicate Due(s: State, id: string, who: Identity) { !who.hostNetwork && (id in s.ready ==> s.ready[id]) }

  /** Stop loses the checkpoint: the stop is answered with not-found and the removal succeeds, or nobody tells
      the identity because the checkpoint cannot be read, and it is dropped. */
  predicate LosesCheckpoint(s: State, id: string, x: StopFaults, docker: bool) {
    || (Identified(s, id, x, docker) && !x.stopFails && id !in s.containers && !x.removeFails)
    || (!docker && (x.readFails || (id in s.checkpoints && s.checkpoints[id].Corrupt?)) && !x.dropFails)
  }

  /** Only the checkpoint and the flag of `id` may differ. */
  ghost predicate SameElsewhere(s: State, t: State, id: string) {
    t.checkpoints - {id} == s.checkpoints - {id} && t.ready - {id} == s.ready - {id}
  }

  /** The whole effect of a Stop, by what Docker tells: the checkpoint and the network of the sandbox. */
  ghost predicate StopsCheckpoint(s: State, id: string, x: StopFaults, docker: bool, t: State) {
    && (id in t.checkpoints <==> id in s.checkpoints && !LosesCheckpoint(s, id, x, docker))
    && (id in t.checkpoints ==> t.checkpoints[id] == s.checkpoints[id])
  }

  ghost predicate StopsNetwork(s: State, id: string, x: StopFaults, docker: bool, who: Identity, t: State, ok: bool) {
    var due := Identified(s, id, x, docker) && Due(s, id, who);
    && (ok <==> Identified(s, id, x, docker) && !x.stopFails && !(due && x.tearDownFails))
    && t.calls == s.calls + (if due then [TearDown(id, who.namespace, who.name, !x.tearDownFails)] else [])
    && (id in t.ready <==> id in s.ready || (due && !x.tearDownFails))
    && (id in t.ready ==> t.ready[id] == if due && !x.tearDownFails then false else s.ready[id])
  }

  lemma StopSeenCheckpoint(s: State, id: string, seen: Option<Identity>, x: StopFaults)
    requires seen.Some? ==> id in s.containers
    ensures StopsCheckpoint(s, id, x, !x.inspectFails && seen.Some?, StopSeen(s, id, seen, x).0)
  {
  }

  lemma StopSeenNetwork(s: State, id: string, seen: Option<Identity>, x: StopFaults, who: Identity)
    requires seen.Some? ==> id in s.containers
    requires var docker := !x.inspectFails && seen.Some?;
      Resolve(s, id, seen, x) == if Identified(s, id, x, docker) then Some(who) else None
    ensures StopsNetwork(s, id, x, !x.inspectFails && seen.Some?, who, StopSeen(s, id, seen, x).0, StopSeen(s, id, seen, x).1)
  {
  }

  lemma ForgettingElsewhere(s: State, id: string)
    ensures SameElsewhere(s, s.(checkpoints := s.checkpoints - {id}), id)
  {
    assert s.checkpoints - {id} - {id} == s.checkpoints - {id};
  }

  lemma TearDownElsewhere(s: State, id: string, who: Identity, fails: bool)
    ensures var t := TearDownIfReady(s, id, who, fails);
      SameElsewhere(s, t, id) && t.containers == s.containers && t.issued == s.issued && t.checkpoints == s.checkpoints
  {
    assert s.ready[id := false] - {id} == s.ready - {id};
  }

  lemma StopSeenElsewhere(s: State, id: string, seen: Option<Identity>, x: StopFaults)
    ensures var t := StopSeen(s, id, seen, x).0; SameElsewhere(s, t, id) && t.containers == s.containers && t.issued == s.issued
  {
    ForgettingElsewhere(s, id);
    var s1 := DropUnreadable(s, id, seen, x);
    var who := Resolve(s, id, seen, x);
    if who.Some? {
      TearDownElsewhere(s1, id, who.value, x.tearDownFails);
      ForgettingElsewhere(TearDownIfReady(s1, id, who.value, x.tearDownFails), id);
    }
  }

  lemma StopIdentity(s: State, id: string, x: StopFaults) returns (who: Identity)
    ensures IdentifiedAs(s, id, x, who) && DockerTells(s, id, x) == (!x.inspectFails && FromInspect(s, id).Some?)
    ensures Resolve(s, id, FromInspect(s, id), x) == if Identified(s, id, x, DockerTells(s, id, x)) then Some(who) else None
  {
    var r := Resolve(s, id, FromInspect(s, id), x);
    who := if r.Some? then r.value else Identity("", "", false);
  }

  /** The whole effect of Stop, for every state and all failures. */
  lemma StopEffect(s: State, id: string, x: StopFaults) returns (who: Identity)
    ensures IdentifiedAs(s, id, x, who)
    ensures var (t, ok) := Stop(s, id, x); var docker := DockerTells(s, id, x);
      && StopsNetwork(s, id, x, docker, who, t, ok) && StopsCheckpoint(s, id, x, docker, t)
      && SameElsewhere(s, t, id) && t.containers == s.containers && t.issued == s.issued
  {
    who := StopIdentity(s, id, x);
    var seen := FromInspect(s, id);
    StopSeenNetwork(s, id, seen, x, who);
    StopSeenCheckpoint(s, id, seen, x);
    StopSeenElsewhere(s, id, seen, x);
  }

  // ---- Remove ------------------------------------------------------------------------------------------------

  /** `failing` maps the containers whose removal reports an error to whether they went all the same. */
  datatype RemoveFaults = RemoveFaults(listFails: bool, failing: map<string, bool>, checkpointFails: bool)

  function Labelled(s: State, id: string): set<string> {
    set c | c in s.containers && s.containers[c].sandbox == Some(id)
  }

  /** The containers a removal tries to remove. */
  function Targets(s: State, id: string, x: RemoveFaults): set<string> {
    if x.listFails then {id} else Labelled(s, id) + {id}
  }

  function Removed(targets: set<string>, x: RemoveFaults): set<string> { set c | c in targets && Goes(c, x) }

  predicate NoneFails(targets: set<string>, x: RemoveFaults) { forall c :: c in targets ==> c !in x.failing }

  predicate Goes(c: string, x: RemoveFaults) { c !in x.failing || x.failing[c] }

  function Remove(s: State, id: string, x: RemoveFaults): (State, bool) {
    (State(s.containers - Removed(Targets(s, id, x), x),
           if x.checkpointFails then s.checkpoints else s.checkpoints - {id},
           if id in x.failing then s.ready else s.ready - {id},
           s.calls, s.issued),
     !x.listFails && !x.checkpointFails && NoneFails(Targets(s, id, x), x))
  }

  /** The whole effect of an attempt, for every state and all failures: the sandbox's container and, if they
      could be listed, the containers labelled with it go unless their removal fails without effect; the
      ready flag goes exactly if no error was reported for the sandbox's own container, the checkpoint exactly if
      its removal succeeds; and the attempt succeeds exactly if nothing fails. */
  lemma RemoveEffect(s: State, id: string, x: RemoveFaults)
    ensures var (t, ok) := Remove(s, id, x);
      && (forall c :: c in t.containers <==>
            c in s.containers && ((c != id && (x.listFails || s.containers[c].sandbox != Some(id))) ||
                                  (c in x.failing && !x.failing[c])))
      && (forall c :: c in t.containers ==> t.containers[c] == s.containers[c])
      && SameElsewhere(s, t, id) && t.calls == s.calls && t.issued == s.issued
      && (id in t.ready <==> id in s.ready && id in x.failing) && (id in t.ready ==> t.ready[id] == s.ready[id])
      && (id in t.checkpoints <==> id in s.checkpoints && x.checkpointFails)
      && (id in t.checkpoints ==> t.checkpoints[id] == s.checkpoints[id])
      && (ok <==> !x.listFails && !x.checkpointFails && id !in x.failing &&
                  forall c :: c in s.containers && s.containers[c].sandbox == Some(id) ==> c !in x.failing)
  {
  }

  /** An attempt succeeds only when nothing of the sandbox is left, and it touches nothing else. */
  lemma RemoveSuccessIsComplete(s: State, id: string, x: RemoveFaults)
    requires Remove(s, id, x).1
    ensures var t := Remove(s, id, x).0;
      && id !in t.containers && id !in t.checkpoints && id !in t.ready && Labelled(t, id) == {}
      && (forall c :: c in s.containers && c != id && s.containers[c].sandbox != Some(id) ==>
            c in t.containers && t.containers[c] == s.containers[c])
      && (forall c :: c in s.checkpoints && c != id ==> c in t.checkpoints && t.checkpoints[c] == s.checkpoints[c])
      && (forall c :: c in s.ready && c != id ==> c in t.ready && t.ready[c] == s.ready[c])
  {
  }

  ghost predicate Subset<K(!new), V(!new)>(a: map<K, V>, b: map<K, V>) {
    forall k :: k in a ==> k in b && a[k] == b[k]
  }

  function Attempts(s: State, id: string, xs: seq<RemoveFaults>): State {
    if xs == [] then s else Remove(Attempts(s, id, xs[..|xs| - 1]), id, xs[|xs| - 1]).0
  }

  /** However many attempts have failed and however, they have added nothing, and the next attempt without
      a failure succeeds and leaves nothing of the sandbox. */
  lemma {:induction false} RemoveConverges(s: State, id: string, xs: seq<RemoveFaults>)
    ensures var t := Attempts(s, id, xs);
      Subset(t.containers, s.containers) && Subset(t.checkpoints, s.checkpoints) && Subset(t.ready, s.ready)
    ensures var (t, ok) := Remove(Attempts(s, id, xs), id, RemoveFaults(false, map[], false));
      ok && id !in t.containers && id !in t.checkpoints && id !in t.ready && Labelled(t, id) == {}
  {
    if xs != [] {
      RemoveConverges(s, id, xs[..|xs| - 1]);
    }
    RemoveSuccessIsComplete(Attempts(s, id, xs), id, RemoveFaults(false, map[], false));
  }

  // ---- what Run leaves -----------------------------------------------------------------------------------------

  /** The ids Docker answers with are new. */
  predicate FreshIds(s: State, x: RunFaults) {
    match x.creation
    case First(c) => FreshId(s, c)
    case Conflict(_, _, _, again) => FreshId(s, again)
  }

  predicate FreshId(s: State, c: Create) {
    match c
    case Created(id) => id !in s.issued
    case CreateFailed(None) => true
    case CreateFailed(Some(id)) => id !in s.issued
  }

  /** All that is recorded is recorded for issued ids. */
  ghost predicate Issued(s: State) {
    && s.containers.Keys <= s.issued && s.ready.Keys <= s.issued
    && forall c :: c in s.calls ==> c.id in s.issued
  }

  /** What Run made of a sandbox. */
  datatype Sandbox = Sandbox(id: string, container: Container, who: Identity)

  /** The container and the checkpoint, as far as they are still there, are the ones Run made. */
  ghost predicate Ours(s: State, b: Sandbox) {
    && (b.id in s.containers ==> s.containers[b.id] == b.container)
    && (b.id in s.checkpoints ==> s.checkpoints[b.id] == Corrupt || s.checkpoints[b.id] == Stored(b.who))
  }

  function MadeName(config: PodConfig, c: Creation): string {
    if c.First? then MakeSandboxName(config.metadata) else RandomizeName(MakeSandboxName(config.metadata), c.random)
  }

  function MadeBy(id: string, config: PodConfig, plugin: Option<string>, c: Creation): Sandbox {
    Sandbox(id, Container("/" + MadeName(config, c), NetworkModeOf(config, plugin), None), IdentityOf(config))
  }

  /** The request reports the id, or leaves a container with it without reporting it. */
  predicate Reports(c: Create, id: string) { c.Created? && c.id == id }
  predicate Leaves(c: Create, id: string) { Reports(c, id) || (c.CreateFailed? && c.left == Some(id)) }

  /** There is a second try: the first was refused because of a container that turns out not to exist. */
  predicate TriesAgain(s: State, c: Creation) { c.Conflict? && c.removeFails.None? && c.other !in s.containers }

  /** The creation gives the sandbox the id, or leaves a container with it. */
  predicate CreationGives(s: State, c: Creation, id: string) {
    if c.First? then Reports(c.c, id) else TriesAgain(s, c) && Reports(c.again, id)
  }

  predicate CreationLeaves(s: State, c: Creation, id: string) {
    if c.First? then Leaves(c.c, id) else TriesAgain(s, c) && Leaves(c.again, id)
  }

  /** The creation removes the container in its way. */
  predicate CreationRemoves(s: State, c: Creation, id: string) {
    c.Conflict? && c.other == id && (c.removeFails == Some(true) || (c.removeFails.None? && id in s.containers))
  }

  predicate NotAttempted(x: RunFaults) { x.imageFails || x.configFails || x.runtimeFails }

  /** Run reaches SetUpPod. */
  predicate ReachesSetUp(config: PodConfig, x: RunFaults) {
    !x.checkpointFails && !x.startFails && Network(config) != Node && !DnsFails(config, x)
  }

  /** What Run needs after the creation. */
  predicate NothingFails(config: PodConfig, x: RunFaults) {
    && !x.checkpointFails && !x.startFails
    && if Network(config) == Node then !(config.dns && (x.inspectFails || x.rewriteFails))
       else !DnsFails(config, x) && !x.setUpFails
  }

  lemma RequestEffect(s: State, name: string, mode: string, c: Create, id: string)
    ensures var (t, r) := CreateContainer(s, name, mode, c);
      && (r == Some(id) <==> Reports(c, id))
      && (id in t.containers <==> Leaves(c, id) || id in s.containers)
      && (id in t.containers ==> t.containers[id] == if Leaves(c, id) then Container("/" + name, mode, None) else s.containers[id])
      && t.checkpoints == s.checkpoints && t.ready == s.ready && t.calls == s.calls
      && (id in t.issued <==> id in s.issued || Leaves(c, id))
  {
  }

  /** The whole effect of a creation, for every state and all failures. */
  lemma CreationEffect(s: State, config: PodConfig, plugin: Option<string>, c: Creation, id: string)
    ensures var (t, r) := CreateSandbox(s, config, NetworkModeOf(config, plugin), c);
      && (r == Some(id) <==> CreationGives(s, c, id))
      && (id in t.containers <==> CreationLeaves(s, c, id) || (id in s.containers && !CreationRemoves(s, c, id)))
      && (id in t.containers ==>
            t.containers[id] == if CreationLeaves(s, c, id) then MadeBy(id, config, plugin, c).container else s.containers[id])
      && t.checkpoints == s.checkpoints && t.ready == s.ready && t.calls == s.calls
      && (id in t.issued <==> id in s.issued || CreationLeaves(s, c, id))
  {
    match c
    case First(first) => RequestEffect(s, MadeName(config, c), NetworkModeOf(config, plugin), first, id);
    case Conflict(_, removeFails, _, again) =>
      match removeFails
      case None => RequestEffect(s, MadeName(config, c), NetworkModeOf(config, plugin), again, id);
      case Some(gone) =>
  }

  /** The creation gives `id`, and the rest of Run is reached. */
  predicate GoesOn(s: State, x: RunFaults, id: string) { !NotAttempted(x) && CreationGives(s, x.creation, id) }

  /** What follows the creation. */
  lemma AfterCreationEffect(s: State, id: string, config: PodConfig, x: RunFaults)
    ensures var e := AfterCreation(s, id, config, x);
      && (e.ok <==> NothingFails(config, x))
      && e.s.calls == s.calls + SetUpCalls(id, config, x)
      && e.s.checkpoints == (if x.checkpointFails then s.checkpoints else s.checkpoints[id := Stored(IdentityOf(config))])
      && e.s.containers == s.containers && e.s.ready == s.ready && e.s.issued == s.issued
  {
  }

  lemma RunIsItsParts(s: State, config: PodConfig, plugin: Option<string>, x: RunFaults)
    ensures var (t, r) := Run(s, config, plugin, x);
      var (s1, made) := CreateSandbox(s, config, NetworkModeOf(config, plugin), x.creation);
      && (NotAttempted(x) ==> t == s && r == None)
      && (!NotAttempted(x) ==> t.containers == s1.containers && t.issued == s1.issued)
      && (!NotAttempted(x) && made.None? ==> t == s1 && r == None)
      && (!NotAttempted(x) && made.Some? ==>
            && r == (if NothingFails(config, x) then made else None)
            && t.calls == s1.calls + SetUpCalls(made.value, config, x)
            && t.checkpoints == (if x.checkpointFails then s1.checkpoints else s1.checkpoints[made.value := Stored(IdentityOf(config))])
            && t.ready.Keys == s1.ready.Keys + {made.value}
            && forall c :: c in s1.ready && c != made.value ==> t.ready[c] == s1.ready[c])
  {
    var (s1, made) := CreateSandbox(s, config, NetworkModeOf(config, plugin), x.creation);
    if !NotAttempted(x) && made.Some? {
      AfterCreationEffect(s1.(ready := s1.ready[made.value := false]), made.value, config, x);
    }
  }

  /** The whole effect of Run on an id, for every state and all failures: when it is the id of the success, when
      it has a container, a checkpoint and a flag, and what they say.  `ReadyFlagIff` tells which flag. */
  lemma RunEffect(s: State, config: PodConfig, plugin: Option<string>, x: RunFaults, id: string)
    ensures var (t, r) := Run(s, config, plugin, x); var goesOn := GoesOn(s, x, id);
      && (r == Some(id) <==> goesOn && NothingFails(config, x))
      && (id in t.containers <==>
            if NotAttempted(x) then id in s.containers
            else CreationLeaves(s, x.creation, id) || (id in s.containers && !CreationRemoves(s, x.creation, id)))
      && (!NotAttempted(x) && CreationLeaves(s, x.creation, id) ==>
            t.containers[id] == MadeBy(id, config, plugin, x.creation).container)
      && (id in t.checkpoints <==> id in s.checkpoints || (goesOn && !x.checkpointFails))
      && (id in t.checkpoints ==>
            t.checkpoints[id] == if goesOn && !x.checkpointFails then Stored(IdentityOf(config)) else s.checkpoints[id])
      && (id in t.ready <==> id in s.ready || goesOn) && (id in s.ready && !goesOn ==> t.ready[id] == s.ready[id])
  {
    CreationEffect(s, config, plugin, x.creation, id);
    RunIsItsParts(s, config, plugin, x);
  }

  /** The calls the plugin gets from Run. */
  lemma RunCalls(s: State, config: PodConfig, plugin: Option<string>, x: RunFaults)
    ensures var t := Run(s, config, plugin, x).0;
      && (forall id :: GoesOn(s, x, id) ==> t.calls == s.calls + SetUpCalls(id, config, x))
      && ((forall id :: !GoesOn(s, x, id)) ==> t.calls == s.calls)
  {
    RunIsItsParts(s, config, plugin, x);
    forall id ensures CreateSandbox(s, config, NetworkModeOf(config, plugin), x.creation).1 == Some(id) <==>
                      CreationGives(s, x.creation, id)
    {
      CreationEffect(s, config, plugin, x.creation, id);
    }
    CreationEffect(s, config, plugin, x.creation, "");
    var made := CreateSandbox(s, config, NetworkModeOf(config, plugin), x.creation).1;
    if !NotAttempted(x) && made.Some? {
      assert GoesOn(s, x, made.value);
    }
  }

  function SetUpCalls(id: string, config: PodConfig, x: RunFaults): seq<PluginCall> {
    if !ReachesSetUp(config, x) then []
    else
      var up := SetUp(id, config.metadata.namespace, config.metadata.name, !x.setUpFails);
      if x.setUpFails then [up, TearDown(id, config.metadata.namespace, config.metadata.name, !x.tearDownFails)] else [up]
  }

  /** A started sandbox is marked ready, has its container and its checkpoint, and, unless it uses the
      host's network, was set up by the plugin once, under its own namespace and name. */
  ghost predicate Started(before: seq<PluginCall>, t: State, b: Sandbox) {
    && b.id in t.ready && t.ready[b.id]
    && b.id in t.containers && t.containers[b.id] == b.container && b.id in t.issued
    && b.id in t.checkpoints && t.checkpoints[b.id] == Stored(b.who)
    && t.calls == if b.who.hostNetwork then before else before + [SetUp(b.id, b.who.namespace, b.who.name, true)]
  }

  lemma RunSuccess(s: State, config: PodConfig, plugin: Option<string>, x: RunFaults, t: State, id: string)
    requires Run(s, config, plugin, x) == (t, Some(id))
    ensures Started(s.calls, t, MadeBy(id, config, plugin, x.creation))
    ensures FreshIds(s, x) ==> id !in s.issued
  {
  }

  /** Exactly when the ready flag of a created sandbox is set: besides the successful runs, after a failure
      to inspect, to rewrite resolv.conf or to encode the DNS options, and after a failed SetUpPod whose
      sandbox could be stopped. */
  lemma ReadyFlagIff(s: State, config: PodConfig, plugin: Option<string>, x: RunFaults)
    requires !x.imageFails && !x.configFails && !x.runtimeFails
    requires CreateSandbox(s, config, NetworkModeOf(config, plugin), x.creation).1.Some?
    ensures var id := CreateSandbox(s, config, NetworkModeOf(config, plugin), x.creation).1.value;
      var (t, r) := Run(s, config, plugin, x);
      && id in t.ready
      && (t.ready[id] <==>
            || r == Some(id)
            || (!x.checkpointFails && !x.startFails && config.dns && (x.inspectFails || x.rewriteFails))
            || (!x.checkpointFails && !x.startFails && Network(config) != Node &&
                (if config.dns && x.marshalFails then true else x.setUpFails && !x.stopFails)))
  {
  }

  /** So a failed Run can leave a sandbox marked ready: here SetUpPod fails and the rest succeeds. */
  lemma FailedRunMarkedReady(config: PodConfig, plugin: Option<string>)
    requires Network(config) != Node
    ensures var x := RunFaults(false, false, false, First(Created("a")), false, false, false, false, false, true, false, false);
      var (t, r) := Run(State(map[], map[], map[], [], {}), config, plugin, x);
      r == None && t.ready == map["a" := true]
  {
  }

  // ---- identity ------------------------------------------------------------------------------------------------

  /** Docker, as long as it has the container, tells the identity that the checkpoint holds. */
  ghost predicate Recognised(b: Sandbox) {
    Details(b.container) == Some(b.who)
  }

  /** Docker's answer, if there is one, has the right host-network flag. */
  ghost predicate FlagRecognised(b: Sandbox) {
    Details(b.container).Some? ==> Details(b.container).value.hostNetwork == b.who.hostNetwork
  }

  function RandomOf(c: Creation): Option<Uint32> { if c.First? then None else Some(c.random) }

  /** Inspecting a sandbox of Run gives the identity of its checkpoint, which is what SetUpPod was given,
      exactly if its name and namespace have no delimiter and its uid is readable; the host-network flag is
      right in any case. */
  lemma InspectAgreesWithCheckpoint(id: string, config: PodConfig, plugin: Option<string>, c: Creation)
    ensures Recognised(MadeBy(id, config, plugin, c)) <==>
      NAME_DELIMITER !in config.metadata.name && NAME_DELIMITER !in config.metadata.namespace &&
      UidReadable(config.metadata.uid, RandomOf(c))
    ensures FlagRecognised(MadeBy(id, config, plugin, c))
  {
    assert "/" + MadeName(config, c) == Reported(MakeSandboxName(config.metadata), true, RandomOf(c));
    SandboxIdentityIff(config.metadata, true, RandomOf(c));
    NetworkModeRoundTrip(config, plugin);
  }

  /** Delimiter-free metadata is recognised, randomized name or not. */
  lemma DelimiterFreeIsRecognised(id: string, config: PodConfig, plugin: Option<string>, c: Creation)
    requires DelimiterFree(config.metadata)
    ensures Recognised(MadeBy(id, config, plugin, c))
  {
    SplitPieces(config.metadata.uid, NAME_DELIMITER);
    InspectAgreesWithCheckpoint(id, config, plugin, c);
  }

  /** Stop acts on the identity Run gave, or on none at all where Docker no longer knows the container and
      the checkpoint is gone or cannot be read. */
  lemma StopResolves(s: State, b: Sandbox, x: StopFaults)
    requires Ours(s, b) && Recognised(b)
    ensures var who := Resolve(s, b.id, FromInspect(s, b.id), x);
      who.Some? ==>
        who.value == b.who ||
        (who.value == Identity("", "", false) && b.id !in s.containers && (x.readFails || FromCheckpoint(s, b.id).None?))
  {
  }

  /** The host-network flag alone is right even where the name cannot be parsed. */
  lemma StopResolvesFlag(s: State, b: Sandbox, x: StopFaults)
    requires Ours(s, b) && FlagRecognised(b)
    ensures var who := Resolve(s, b.id, FromInspect(s, b.id), x);
      who.Some? ==>
        who.value.hostNetwork == b.who.hostNetwork ||
        (who.value == Identity("", "", false) && b.id !in s.containers && (x.readFails || FromCheckpoint(s, b.id).None?))
  {
  }

  /** A sandbox on the host's network is torn down by Stop exactly when Docker says that it has no such
      container, its checkpoint is gone or cannot be read, and it is not marked as torn down. */
  lemma HostNetworkTearDownIff(s: State, b: Sandbox, x: StopFaults)
    requires Ours(s, b) && FlagRecognised(b) && b.who.hostNetwork
    ensures Stop(s, b.id, x).0.calls != s.calls <==>
      && !x.inspectFails && b.id !in s.containers && (x.readFails || FromCheckpoint(s, b.id).None?)
      && (b.id !in s.ready || s.ready[b.id])
  {
  }

  // ---- runs of operations --------------------------------------------------------------------------------------

  datatype Op =
    | RunOp(config: PodConfig, runFaults: RunFaults)
    | StopOp(id: string, stopFaults: StopFaults)
    | RemoveOp(id: string, removeFaults: RemoveFaults)

  function After(s: State, plugin: Option<string>, op: Op): (State, bool) {
    match op
    case RunOp(config, x) => var (t, r) := Run(s, config, plugin, x); (t, r.Some?)
    case StopOp(id, x) => Stop(s, id, x)
    case RemoveOp(id, x) => Remove(s, id, x)
  }

  function AfterAll(s: State, plugin: Option<string>, ops: seq<Op>): State {
    if ops == [] then s else After(AfterAll(s, plugin, ops[..|ops| - 1]), plugin, ops[|ops| - 1]).0
  }

  /** Docker's ids stay unique, and the sandbox `id` is not removed. */
  ghost predicate Uneventful(s: State, op: Op, id: string) {
    (op.RunOp? ==> FreshIds(s, op.runFaults)) && (op.RemoveOp? ==> op.id != id)
  }

  ghost predicate AllUneventful(s: State, plugin: Option<string>, ops: seq<Op>, id: string) {
    forall n :: 0 <= n < |ops| ==> Uneventful(AfterAll(s, plugin, ops[..n]), ops[n], id)
  }

  /** The positions in `calls` of the successful teardowns of `id`, and their number. */
  function TearDownsAt(calls: seq<PluginCall>, id: string): set<nat> {
    set i | 0 <= i < |calls| && calls[i].TearDown? && calls[i].id == id && calls[i].ok
  }

  function TornDown(calls: seq<PluginCall>, id: string): nat { |TearDownsAt(calls, id)| }

  lemma TornDownAppend(calls: seq<PluginCall>, c: PluginCall, id: string)
    ensures TornDown(calls + [c], id) == TornDown(calls, id) + if c.TearDown? && c.id == id && c.ok then 1 else 0
  {
    var before, after := TearDownsAt(calls, id), TearDownsAt(calls + [c], id);
    assert after == before + if c.TearDown? && c.id == id && c.ok then {|calls|} else {};
  }

  // ---- how long a checkpoint lasts -------------------------------------------------------------------------------

  ghost predicate LosesNow(s: State, id: string, x: StopFaults) { LosesCheckpoint(s, id, x, DockerTells(s, id, x)) }

  /** The operation at `j` is a Stop that loses the sandbox's checkpoint. */
  ghost predicate LosesAt(s: State, plugin: Option<string>, ops: seq<Op>, id: string, j: nat)
    requires j < |ops|
  {
    ops[j].StopOp? && ops[j].id == id && LosesNow(AfterAll(s, plugin, ops[..j]), id, ops[j].stopFaults)
  }

  lemma RunKeepsCheckpoint(s: State, plugin: Option<string>, config: PodConfig, x: RunFaults, id: string)
    requires id in s.issued && FreshIds(s, x)
    ensures var t := Run(s, config, plugin, x).0;
      && id in t.issued && (id in t.checkpoints <==> id in s.checkpoints)
      && (id in t.checkpoints ==> t.checkpoints[id] == s.checkpoints[id])
  {
    RunEffect(s, config, plugin, x, id);
    CreationEffect(s, config, plugin, x.creation, id);
    RunIsItsParts(s, config, plugin, x);
  }

  lemma StepKeepsCheckpoint(s: State, plugin: Option<string>, op: Op, id: string)
    requires id in s.issued && Uneventful(s, op, id)
    ensures var t := After(s, plugin, op).0;
      && id in t.issued
      && (id in t.checkpoints <==>
            id in s.checkpoints && !(op.StopOp? && op.id == id && LosesNow(s, id, op.stopFaults)))
      && (id in t.checkpoints ==> t.checkpoints[id] == s.checkpoints[id])
  {
    match op
    case RunOp(config, x) => RunKeepsCheckpoint(s, plugin, config, x, id);
    case StopOp(other, x) => var who := StopEffect(s, other, x);
    case RemoveOp(other, x) => RemoveEffect(s, other, x);
  }

  ghost predicate NeverLoses(s: State, plugin: Option<string>, ops: seq<Op>, id: string) {
    forall j :: 0 <= j < |ops| ==> !LosesAt(s, plugin, ops, id, j)
  }

  lemma NeverLosesStep(s: State, plugin: Option<string>, ops: seq<Op>, id: string)
    requires ops != []
    ensures var n := |ops| - 1;
      NeverLoses(s, plugin, ops, id) <==> NeverLoses(s, plugin, ops[..n], id) && !LosesAt(s, plugin, ops, id, n)
  {
    var n := |ops| - 1;
    forall j | 0 <= j < n ensures LosesAt(s, plugin, ops, id, j) == LosesAt(s, plugin, ops[..n], id, j) {
      assert ops[..n][..j] == ops[..j];
    }
  }

  /** A checkpoint lasts, unchanged, until the Remove of its sandbox, over every mix of operations and failures,
      exactly if no Stop on the way loses it: none that Docker answers with not-found, and none that can
      neither learn the identity from Docker nor read the checkpoint. */
  lemma {:induction false} CheckpointLastsIff(s: State, plugin: Option<string>, ops: seq<Op>, id: string)
    requires id in s.issued && id in s.checkpoints && AllUneventful(s, plugin, ops, id)
    ensures var t := AfterAll(s, plugin, ops);
      && id in t.issued && (id in t.checkpoints <==> NeverLoses(s, plugin, ops, id))
      && (id in t.checkpoints ==> t.checkpoints[id] == s.checkpoints[id])
    decreases |ops|
  {
    if ops != [] {
      var n := |ops| - 1;
      UneventfulPrefix(s, plugin, ops, id);
      CheckpointLastsIff(s, plugin, ops[..n], id);
      StepKeepsCheckpoint(AfterAll(s, plugin, ops[..n]), plugin, ops[n], id);
      NeverLosesStep(s, plugin, ops, id);
    }
  }

  // ---- how often a network is torn down --------------------------------------------------------------------------

  /** What holds of a sandbox between its Run and its Remove: the teardowns so far, and one more as long as
      it is marked ready, are `total`. */
  ghost predicate Living(s: State, b: Sandbox, total: nat) {
    && Ours(s, b) && b.id in s.issued && b.id in s.ready
    && TornDown(s.calls, b.id) + (if s.ready[b.id] then 1 else 0) == total
  }

  lemma CreationKeepsLiving(s: State, b: Sandbox, total: nat, config: PodConfig, mode: string, x: RunFaults)
    requires Living(s, b, total) && FreshIds(s, x)
    ensures Living(CreateSandbox(s, config, mode, x.creation).0, b, total)
    ensures CreateSandbox(s, config, mode, x.creation).1 != Some(b.id)
    ensures CreateSandbox(s, config, mode, x.creation).0.calls == s.calls
    ensures CreateSandbox(s, config, mode, x.creation).0.ready == s.ready
  {
  }

  lemma AfterCreationKeepsLiving(s: State, b: Sandbox, total: nat, id: string, config: PodConfig, x: RunFaults)
    requires Living(s, b, total) && id != b.id
    ensures Living(AfterCreation(s, id, config, x).s, b, total)
    ensures AfterCreation(s, id, config, x).s.ready == s.ready
  {
    SetUpKeepsLiving(s.(checkpoints := s.checkpoints[id := Stored(IdentityOf(config))]), b, total, id, IdentityOf(config), x);
  }

  lemma SetUpKeepsLiving(s: State, b: Sandbox, total: nat, id: string, who: Identity, x: RunFaults)
    requires Living(s, b, total) && id != b.id
    ensures Living(AfterSetUp(s, id, who, x).s, b, total) && AfterSetUp(s, id, who, x).s.ready == s.ready
  {
    var up := SetUp(id, who.namespace, who.name, !x.setUpFails);
    TornDownAppend(s.calls, up, b.id);
    TornDownAppend(s.calls + [up], TearDown(id, who.namespace, who.name, !x.tearDownFails), b.id);
  }

  lemma RunKeepsLiving(s: State, b: Sandbox, total: nat, config: PodConfig, plugin: Option<string>, x: RunFaults)
    requires Living(s, b, total) && FreshIds(s, x)
    ensures Living(Run(s, config, plugin, x).0, b, total) && Run(s, config, plugin, x).0.ready[b.id] == s.ready[b.id]
  {
    var mode := NetworkModeOf(config, plugin);
    CreationKeepsLiving(s, b, total, config, mode, x);
    var (s1, id) := CreateSandbox(s, config, mode, x.creation);
    if id.Some? {
      AfterCreationKeepsLiving(s1.(ready := s1.ready[id.value := false]), b, total, id.value, config, x);
    }
  }

  lemma TearDownKeepsLiving(s: State, b: Sandbox, total: nat, id: string, who: Identity, fails: bool)
    requires Living(s, b, total)
    ensures Living(TearDownIfReady(s, id, who, fails), b, total)
    ensures !s.ready[b.id] ==> !TearDownIfReady(s, id, who, fails).ready[b.id]
  {
    TornDownAppend(s.calls, TearDown(id, who.namespace, who.name, !fails), b.id);
  }

  lemma ForgettingKeepsLiving(s: State, b: Sandbox, total: nat, id: string)
    requires Living(s, b, total)
    ensures Living(s.(checkpoints := s.checkpoints - {id}), b, total)
  {
  }

  lemma StopKeepsLiving(s: State, b: Sandbox, total: nat, id: string, seen: Option<Identity>, x: StopFaults)
    requires Living(s, b, total)
    ensures Living(StopSeen(s, id, seen, x).0, b, total)
    ensures !s.ready[b.id] ==> !StopSeen(s, id, seen, x).0.ready[b.id]
  {
    ForgettingKeepsLiving(s, b, total, id);
    var s1 := DropUnreadable(s, id, seen, x);
    var who := Resolve(s, id, seen, x);
    if who.Some? {
      TearDownKeepsLiving(s1, b, total, id, who.value, x.tearDownFails);
      ForgettingKeepsLiving(TearDownIfReady(s1, id, who.value, x.tearDownFails), b, total, id);
    }
  }

  lemma RemoveKeepsLiving(s: State, b: Sandbox, total: nat, id: string, x: RemoveFaults)
    requires Living(s, b, total) && id != b.id
    ensures Living(Remove(s, id, x).0, b, total) && Remove(s, id, x).0.ready[b.id] == s.ready[b.id]
  {
  }

  lemma StepKeepsLiving(s: State, b: Sandbox, total: nat, plugin: Option<string>, op: Op)
    requires Living(s, b, total) && Uneventful(s, op, b.id)
    ensures Living(After(s, plugin, op).0, b, total)
    ensures !s.ready[b.id] ==> !After(s, plugin, op).0.ready[b.id]
  {
    match op
    case RunOp(config, x) => RunKeepsLiving(s, b, total, config, plugin, x);
    case StopOp(id, x) => StopKeepsLiving(s, b, total, id, FromInspect(s, id), x);
    case RemoveOp(id, x) => RemoveKeepsLiving(s, b, total, id, x);
  }

  lemma UneventfulPrefix(s: State, plugin: Option<string>, ops: seq<Op>, id: string)
    requires AllUneventful(s, plugin, ops, id) && ops != []
    ensures AllUneventful(s, plugin, ops[..|ops| - 1], id)
    ensures Uneventful(AfterAll(s, plugin, ops[..|ops| - 1]), ops[|ops| - 1], id)
  {
    assert forall i :: 0 <= i < |ops| ==> ops[..|ops| - 1][..i] == ops[..i];
  }

  /** A Stop that returns success leaves the network torn down. */
  lemma StopSuccessTearsDown(s: State, b: Sandbox, total: nat, x: StopFaults)
    requires Living(s, b, total) && FlagRecognised(b) && !b.who.hostNetwork && Stop(s, b.id, x).1
    ensures !Stop(s, b.id, x).0.ready[b.id]
  {
  }

  /** The operation at `j` is a Stop of the sandbox that returns success. */
  ghost predicate StopsAt(s: State, plugin: Option<string>, ops: seq<Op>, id: string, j: nat)
    requires j < |ops|
  {
    ops[j].StopOp? && ops[j].id == id && Stop(AfterAll(s, plugin, ops[..j]), id, ops[j].stopFaults).1
  }

  lemma {:induction false} LivingKept(s: State, b: Sandbox, total: nat, plugin: Option<string>, ops: seq<Op>)
    requires Living(s, b, total) && AllUneventful(s, plugin, ops, b.id)
    ensures Living(AfterAll(s, plugin, ops), b, total)
    decreases |ops|
  {
    if ops != [] {
      var n := |ops| - 1;
      UneventfulPrefix(s, plugin, ops, b.id);
      LivingKept(s, b, total, plugin, ops[..n]);
      StepKeepsLiving(AfterAll(s, plugin, ops[..n]), b, total, plugin, ops[n]);
    }
  }

  ghost predicate Down(s: State, id: string) { id in s.ready && !s.ready[id] }

  lemma StepLeavesDown(s: State, b: Sandbox, total: nat, plugin: Option<string>, op: Op)
    requires Living(s, b, total) && Uneventful(s, op, b.id) && Down(s, b.id)
    ensures Down(After(s, plugin, op).0, b.id)
  {
    StepKeepsLiving(s, b, total, plugin, op);
  }

  lemma StopLeavesDown(s: State, b: Sandbox, total: nat, plugin: Option<string>, op: Op)
    requires Living(s, b, total) && Uneventful(s, op, b.id) && FlagRecognised(b) && !b.who.hostNetwork
    requires op.StopOp? && op.id == b.id && Stop(s, b.id, op.stopFaults).1
    ensures Down(After(s, plugin, op).0, b.id)
  {
    StepKeepsLiving(s, b, total, plugin, op);
    StopSuccessTearsDown(s, b, total, op.stopFaults);
  }

  lemma AfterAllStep(s: State, plugin: Option<string>, ops: seq<Op>, k: nat)
    requires k < |ops|
    ensures AfterAll(s, plugin, ops[..k + 1]) == After(AfterAll(s, plugin, ops[..k]), plugin, ops[k]).0
  {
    assert ops[..k + 1][..k] == ops[..k];
  }

  lemma LivingAt(s: State, b: Sandbox, total: nat, plugin: Option<string>, ops: seq<Op>, k: nat)
    requires Living(s, b, total) && AllUneventful(s, plugin, ops, b.id) && k < |ops|
    ensures Living(AfterAll(s, plugin, ops[..k]), b, total) && Uneventful(AfterAll(s, plugin, ops[..k]), ops[k], b.id)
  {
    assert forall n :: 0 <= n < k ==> ops[..k][..n] == ops[..n];
    LivingKept(s, b, total, plugin, ops[..k]);
  }

  lemma {:induction false} DownFrom(s: State, b: Sandbox, total: nat, plugin: Option<string>, ops: seq<Op>, i: nat, m: nat)
    requires Living(s, b, total) && AllUneventful(s, plugin, ops, b.id)
    requires i <= m <= |ops| && Down(AfterAll(s, plugin, ops[..i]), b.id)
    ensures Down(AfterAll(s, plugin, ops[..m]), b.id)
    decreases m
  {
    if i < m {
      var k := m - 1;
      DownFrom(s, b, total, plugin, ops, i, k);
      LivingAt(s, b, total, plugin, ops, k);
      StepLeavesDown(AfterAll(s, plugin, ops[..k]), b, total, plugin, ops[k]);
      AfterAllStep(s, plugin, ops, k);
    }
  }

  /** The flag stays down after a successful Stop. */
  lemma StopStands(s: State, b: Sandbox, total: nat, plugin: Option<string>, ops: seq<Op>, j: nat)
    requires Living(s, b, total) && FlagRecognised(b) && !b.who.hostNetwork && AllUneventful(s, plugin, ops, b.id)
    requires j < |ops| && StopsAt(s, plugin, ops, b.id, j)
    ensures Down(AfterAll(s, plugin, ops), b.id)
  {
    assert Down(AfterAll(s, plugin, ops[..j + 1]), b.id) by {
      LivingAt(s, b, total, plugin, ops, j);
      StopLeavesDown(AfterAll(s, plugin, ops[..j]), b, total, plugin, ops[j]);
      AfterAllStep(s, plugin, ops, j);
    }
    DownFrom(s, b, total, plugin, ops, j + 1, |ops|);
    assert ops[..|ops|] == ops;
  }

  lemma NoCallsNoTearDown(calls: seq<PluginCall>, id: string)
    requires forall c :: c in calls ==> c.id != id
    ensures TornDown(calls, id) == 0
  {
    assert TearDownsAt(calls, id) == {};
  }

  lemma StartedLives(before: seq<PluginCall>, t: State, b: Sandbox)
    requires Started(before, t, b) && forall c :: c in before ==> c.id != b.id
    ensures Living(t, b, 1)
  {
    NoCallsNoTearDown(before, b.id);
    TornDownAppend(before, SetUp(b.id, b.who.namespace, b.who.name, true), b.id);
  }

  /** From a successful Run of a sandbox with its own network until its Remove, over every mix of operations
      and failures, the plugin tears the network down at most once, and exactly once as soon as a Stop of
      the sandbox has returned success. */
  lemma TearDownOnce(s: State, config: PodConfig, plugin: Option<string>, x: RunFaults, t: State, id: string, ops: seq<Op>)
    requires Issued(s) && FreshIds(s, x) && Run(s, config, plugin, x) == (t, Some(id))
    requires Network(config) != Node && AllUneventful(t, plugin, ops, id)
    ensures TornDown(AfterAll(t, plugin, ops).calls, id) <= 1
    ensures (exists j :: 0 <= j < |ops| && StopsAt(t, plugin, ops, id, j)) ==>
              TornDown(AfterAll(t, plugin, ops).calls, id) == 1
  {
    RunSuccess(s, config, plugin, x, t, id);
    StartedLives(s.calls, t, MadeBy(id, config, plugin, x.creation));
    CountOverRun(id, config, plugin, x.creation, t, 1, ops);
  }

  lemma CountOverRun(id: string, config: PodConfig, plugin: Option<string>, c: Creation, t: State, total: nat, ops: seq<Op>)
    requires Living(t, MadeBy(id, config, plugin, c), total) && Network(config) != Node && AllUneventful(t, plugin, ops, id)
    ensures TornDown(AfterAll(t, plugin, ops).calls, id) <= total
    ensures (exists j :: 0 <= j < |ops| && StopsAt(t, plugin, ops, id, j)) ==>
              TornDown(AfterAll(t, plugin, ops).calls, id) == total
  {
    var b := MadeBy(id, config, plugin, c);
    LivingKept(t, b, total, plugin, ops);
    InspectAgreesWithCheckpoint(id, config, plugin, c);
    if j :| 0 <= j < |ops| && StopsAt(t, plugin, ops, id, j) {
      StopStands(t, b, total, plugin, ops, j);
    }
  }

  // ---- how often a sandbox is torn down, whether or not its Run succeeds -------------------------------------------

  /** The Run gets as far as creating the sandbox `id`, in a state that has nothing for ids not issued. */
  ghost predicate Creates(s: State, config: PodConfig, plugin: Option<string>, x: RunFaults, id: string) {
    && Issued(s) && s.checkpoints.Keys <= s.issued && FreshIds(s, x)
    && !x.imageFails && !x.configFails && !x.runtimeFails
    && CreateSandbox(s, config, NetworkModeOf(config, plugin), x.creation).1 == Some(id)
  }

  predicate DnsFails(config: PodConfig, x: RunFaults) {
    config.dns && (x.inspectFails || x.rewriteFails || x.marshalFails)
  }

  /** The teardowns a sandbox with its own network comes to: those of its Run, and one by Stop if it is left
      marked ready. */
  function TearDowns(config: PodConfig, x: RunFaults): nat {
    if x.checkpointFails || x.startFails then 0
    else if DnsFails(config, x) || !x.setUpFails then 1
    else (if x.tearDownFails then 0 else 1) + (if x.stopFails then 0 else 1)
  }

  lemma CreatedLives(s: State, config: PodConfig, plugin: Option<string>, x: RunFaults, id: string)
    requires Creates(s, config, plugin, x, id)
    ensures var s1 := CreateSandbox(s, config, NetworkModeOf(config, plugin), x.creation).0;
      Living(s1.(ready := s1.ready[id := false]), MadeBy(id, config, plugin, x.creation), 0)
  {
    NoCallsNoTearDown(s.calls, id);
  }

  ghost function Flagged(e: Ended, id: string): State {
    if e.err.None? then e.s.(ready := e.s.ready[id := true]) else e.s
  }

  lemma CheckpointKeepsLiving(s: State, b: Sandbox, total: nat)
    requires Living(s, b, total)
    ensures Living(s.(checkpoints := s.checkpoints[b.id := Stored(b.who)]), b, total)
  {
  }

  lemma SetUpCounts(s: State, b: Sandbox, x: RunFaults)
    requires Living(s, b, 0)
    ensures Living(Flagged(AfterSetUp(s, b.id, b.who, x), b.id), b,
                   if x.setUpFails then (if x.tearDownFails then 0 else 1) + (if x.stopFails then 0 else 1) else 1)
  {
    var up := SetUp(b.id, b.who.namespace, b.who.name, !x.setUpFails);
    TornDownAppend(s.calls, up, b.id);
    TornDownAppend(s.calls + [up], TearDown(b.id, b.who.namespace, b.who.name, !x.tearDownFails), b.id);
  }

  lemma StepsCount(s: State, b: Sandbox, config: PodConfig, x: RunFaults)
    requires Living(s, b, 0) && b.who == IdentityOf(config) && Network(config) != Node
    ensures Living(Flagged(AfterCreation(s, b.id, config, x), b.id), b, TearDowns(config, x))
  {
    var s1 := s.(checkpoints := s.checkpoints[b.id := Stored(b.who)]);
    CheckpointKeepsLiving(s, b, 0);
    SetUpCounts(s1, b, x);
  }

  lemma RunCounts(s: State, config: PodConfig, plugin: Option<string>, x: RunFaults, id: string)
    requires Creates(s, config, plugin, x, id) && Network(config) != Node
    ensures Living(Run(s, config, plugin, x).0, MadeBy(id, config, plugin, x.creation), TearDowns(config, x))
  {
    var s1 := CreateSandbox(s, config, NetworkModeOf(config, plugin), x.creation).0;
    CreatedLives(s, config, plugin, x, id);
    StepsCount(s1.(ready := s1.ready[id := false]), MadeBy(id, config, plugin, x.creation), config, x);
  }

  /** From a Run that creates a sandbox with its own network, successful or not, until its Remove, over every
      mix of operations and failures: never more teardowns than `TearDowns`, and exactly that many as soon as
      a Stop of the sandbox has returned success. */
  lemma TearDownsOverRun(s: State, config: PodConfig, plugin: Option<string>, x: RunFaults, id: string, ops: seq<Op>)
    requires Creates(s, config, plugin, x, id) && Network(config) != Node
    requires AllUneventful(Run(s, config, plugin, x).0, plugin, ops, id)
    ensures var t := Run(s, config, plugin, x).0;
      && TornDown(AfterAll(t, plugin, ops).calls, id) <= TearDowns(config, x)
      && ((exists j :: 0 <= j < |ops| && StopsAt(t, plugin, ops, id, j)) ==>
            TornDown(AfterAll(t, plugin, ops).calls, id) == TearDowns(config, x))
  {
    RunCounts(s, config, plugin, x, id);
    CountOverRun(id, config, plugin, x.creation, Run(s, config, plugin, x).0, TearDowns(config, x), ops);
  }

  const NO_STOP_FAULTS := StopFaults(false, false, false, false, false, false)

  /** A Stop without failures succeeds wherever the identity can be found. */
  lemma StopWithoutFaults(t: State, id: string)
    requires FromCheckpoint(t, id).Some? || id !in t.containers
    ensures Stop(t, id, NO_STOP_FAULTS).1
  {
  }

  lemma OneStop(t: State, plugin: Option<string>, id: string, x: StopFaults)
    ensures AllUneventful(t, plugin, [StopOp(id, x)], id) && AfterAll(t, plugin, [StopOp(id, x)]) == Stop(t, id, x).0
    ensures StopsAt(t, plugin, [StopOp(id, x)], id, 0) <==> Stop(t, id, x).1
  {
    var ops := [StopOp(id, x)];
    assert ops[..0] == [] && AfterAll(t, plugin, []) == t;
  }

  /** After every Run that wrote the checkpoint, one Stop without failures reaches the number. */
  lemma OneStopReaches(s: State, config: PodConfig, plugin: Option<string>, x: RunFaults, id: string)
    requires Creates(s, config, plugin, x, id) && Network(config) != Node && !x.checkpointFails
    ensures TornDown(Stop(Run(s, config, plugin, x).0, id, NO_STOP_FAULTS).0.calls, id) == TearDowns(config, x)
  {
    var t := Run(s, config, plugin, x).0;
    CheckpointIsLeft(s, config, plugin, x, id);
    StopWithoutFaults(t, id);
    OneStop(t, plugin, id, NO_STOP_FAULTS);
    assert StopsAt(t, plugin, [StopOp(id, NO_STOP_FAULTS)], id, 0);
    TearDownsOverRun(s, config, plugin, x, id, [StopOp(id, NO_STOP_FAULTS)]);
  }

  lemma CheckpointIsLeft(s: State, config: PodConfig, plugin: Option<string>, x: RunFaults, id: string)
    requires Creates(s, config, plugin, x, id) && !x.checkpointFails
    ensures FromCheckpoint(Run(s, config, plugin, x).0, id).Some?
  {
  }

  /** SetUpPod fails, and its clean-up succeeds whole: the network is torn down and the sandbox stopped. */
  predicate CleansUpWhole(config: PodConfig, x: RunFaults) {
    !x.checkpointFails && !x.startFails && !DnsFails(config, x) && x.setUpFails && !x.tearDownFails && !x.stopFails
  }

  /** At most one teardown, whatever happens until Remove, exactly unless a failing SetUpPod is cleaned up
      whole: the stop that succeeds there clears the error that the deferred closure reads, so the sandbox is
      left marked ready and the next Stop tears its network down a second time. */
  lemma AtMostOnceIff(s: State, config: PodConfig, plugin: Option<string>, x: RunFaults, id: string)
    requires Creates(s, config, plugin, x, id) && Network(config) != Node
    ensures var t := Run(s, config, plugin, x).0;
      (forall ops :: AllUneventful(t, plugin, ops, id) ==> TornDown(AfterAll(t, plugin, ops).calls, id) <= 1) <==>
      !CleansUpWhole(config, x)
  {
    var t := Run(s, config, plugin, x).0;
    if CleansUpWhole(config, x) {
      OneStopReaches(s, config, plugin, x, id);
      OneStop(t, plugin, id, NO_STOP_FAULTS);
      assert TornDown(AfterAll(t, plugin, [StopOp(id, NO_STOP_FAULTS)]).calls, id) == 2;
    } else {
      forall ops | AllUneventful(t, plugin, ops, id)
        ensures TornDown(AfterAll(t, plugin, ops).calls, id) <= 1
      {
        TearDownsOverRun(s, config, plugin, x, id, ops);
      }
    }
  }

  /** No teardown ever succeeds, whatever happens until Remove, exactly if the sandbox was not started, or if
      SetUpPod, the teardown and the stop of its clean-up all failed: the sandbox is then left marked as torn
      down, and no Stop will try again. */
  lemma NeverTornDownIff(s: State, config: PodConfig, plugin: Option<string>, x: RunFaults, id: string)
    requires Creates(s, config, plugin, x, id) && Network(config) != Node
    ensures var t := Run(s, config, plugin, x).0;
      (forall ops :: AllUneventful(t, plugin, ops, id) ==> TornDown(AfterAll(t, plugin, ops).calls, id) == 0) <==>
      x.checkpointFails || x.startFails || (!DnsFails(config, x) && x.setUpFails && x.tearDownFails && x.stopFails)
  {
    var t := Run(s, config, plugin, x).0;
    if TearDowns(config, x) == 0 {
      forall ops | AllUneventful(t, plugin, ops, id)
        ensures TornDown(AfterAll(t, plugin, ops).calls, id) == 0
      {
        TearDownsOverRun(s, config, plugin, x, id, ops);
      }
    } else {
      OneStopReaches(s, config, plugin, x, id);
      OneStop(t, plugin, id, NO_STOP_FAULTS);
    }
  }

  /** The input that shows it: SetUpPod fails and nothing else does. */
  lemma FailedRunIsTornDownTwice(config: PodConfig, plugin: Option<string>)
    requires Network(config) != Node
    ensures var x := RunFaults(false, false, false, First(Created("a")), false, false, false, false, false, true, false, false);
      var (t, r) := Run(State(map[], map[], map[], [], {}), config, plugin, x);
      r == None && TornDown(Stop(t, "a", NO_STOP_FAULTS).0.calls, "a") == 2
  {
    var x := RunFaults(false, false, false, First(Created("a")), false, false, false, false, false, true, false, false);
    FailedRunMarkedReady(config, plugin);
    OneStopReaches(State(map[], map[], map[], [], {}), config, plugin, x, "a");
  }

  // ---- the arguments of the plugin -------------------------------------------------------------------------------

  /** Each call for the sandbox names its namespace and name; a teardown may name neither. */
  ghost predicate CallsAreOurs(calls: seq<PluginCall>, b: Sandbox) {
    forall c :: c in calls && c.id == b.id ==>
      (c.namespace == b.who.namespace && c.name == b.who.name) || (c.TearDown? && c.namespace == "" && c.name == "")
  }

  lemma StopCallsAreOurs(s: State, b: Sandbox, id: string, seen: Option<Identity>, x: StopFaults)
    requires CallsAreOurs(s.calls, b)
    requires id == b.id && Resolve(s, id, seen, x).Some? ==>
      Resolve(s, id, seen, x).value == b.who || Resolve(s, id, seen, x).value == Identity("", "", false)
    ensures CallsAreOurs(StopSeen(s, id, seen, x).0.calls, b)
  {
  }

  lemma RunCallsAreOthers(s: State, b: Sandbox, total: nat, config: PodConfig, plugin: Option<string>, x: RunFaults)
    requires Living(s, b, total) && FreshIds(s, x) && CallsAreOurs(s.calls, b)
    ensures CallsAreOurs(Run(s, config, plugin, x).0.calls, b)
  {
    CreationKeepsLiving(s, b, total, config, NetworkModeOf(config, plugin), x);
  }

  lemma StepCallsAreOurs(s: State, b: Sandbox, total: nat, plugin: Option<string>, op: Op)
    requires Living(s, b, total) && Recognised(b) && CallsAreOurs(s.calls, b) && Uneventful(s, op, b.id)
    ensures CallsAreOurs(After(s, plugin, op).0.calls, b)
  {
    match op
    case RunOp(config, x) => RunCallsAreOthers(s, b, total, config, plugin, x);
    case StopOp(id, x) =>
      if id == b.id {
        StopResolves(s, b, x);
      }
      StopCallsAreOurs(s, b, id, FromInspect(s, id), x);
    case RemoveOp(_, _) =>
  }

  lemma {:induction false} CallsStayOurs(s: State, b: Sandbox, total: nat, plugin: Option<string>, ops: seq<Op>)
    requires Living(s, b, total) && Recognised(b) && CallsAreOurs(s.calls, b) && AllUneventful(s, plugin, ops, b.id)
    ensures CallsAreOurs(AfterAll(s, plugin, ops).calls, b)
    decreases |ops|
  {
    if ops != [] {
      var n := |ops| - 1;
      UneventfulPrefix(s, plugin, ops, b.id);
      CallsStayOurs(s, b, total, plugin, ops[..n]);
      LivingKept(s, b, total, plugin, ops[..n]);
      StepCallsAreOurs(AfterAll(s, plugin, ops[..n]), b, total, plugin, ops[n]);
    }
  }

  /** From a successful Run of a sandbox whose identity can be read until its Remove, every plugin call for
      it names the namespace and name of its SetUpPod, or, in a teardown, neither. */
  lemma PluginArguments(s: State, config: PodConfig, plugin: Option<string>, x: RunFaults, t: State, id: string, ops: seq<Op>)
    requires Issued(s) && FreshIds(s, x) && Run(s, config, plugin, x) == (t, Some(id))
    requires NAME_DELIMITER !in config.metadata.name && NAME_DELIMITER !in config.metadata.namespace
    requires UidReadable(config.metadata.uid, RandomOf(x.creation)) && AllUneventful(t, plugin, ops, id)
    ensures CallsAreOurs(AfterAll(t, plugin, ops).calls, MadeBy(id, config, plugin, x.creation))
  {
    var b := MadeBy(id, config, plugin, x.creation);
    RunSuccess(s, config, plugin, x, t, id);
    StartedLives(s.calls, t, b);
    InspectAgreesWithCheckpoint(id, config, plugin, x.creation);
    CallsStayOurs(t, b, 1, plugin, ops);
  }

  // ---- the service -------------------------------------------------------------------------------------------------

  class DockerService {
    const plugin: Option<string>
    var containers: map<string, Container>
    var checkpoints: map<string, Checkpoint>
    var networkReady: map<string, bool>
    ghost var calls: seq<PluginCall>
    ghost var issued: set<string>

    ghost function View(): State
      reads this
    {
      State(containers, checkpoints, networkReady, calls, issued)
    }

    constructor (plugin: Option<string>)
      ensures this.plugin == plugin && View() == State(map[], map[], map[], [], {})
    {
      this.plugin := plugin;
      containers, checkpoints, networkReady, calls, issued := map[], map[], map[], [], {};
    }

    /** Docker's create call. */
    method Create(name: string, mode: string, c: Create) returns (id: Option<string>)
      modifies this
      ensures (View(), id) == CreateContainer(old(View()), name, mode, c)
    {
      match c
      case Created(new_) =>
        containers := containers[new_ := Container("/" + name, mode, None)];
        issued := issued + {new_};
        id := Some(new_);
      case CreateFailed(left) =>
        if left.Some? {
          containers := containers[left.value := Container("/" + name, mode, None)];
          issued := issued + {left.value};
        }
        id := None;
    }

    /** CreateContainer, then recoverFromCreationConflictIfNeeded. */
    method CreateWithRecovery(config: PodConfig, mode: string, c: Creation) returns (id: Option<string>)
      modifies this
      ensures (View(), id) == CreateSandbox(old(View()), config, mode, c)
    {
      var name := MakeSandboxName(config.metadata);
      match c
      case First(first) => id := Create(name, mode, first);
      case Conflict(other, removeFails, random, again) =>
        if removeFails.Some? {
          if removeFails.value { containers := containers - {other}; }
          id := None;
        } else if other in containers {
          containers := containers - {other};
          id := None;
        } else {
          id := Create(RandomizeName(name, random), mode, again);
        }
    }

    method RunPodSandbox(config: PodConfig, x: RunFaults) returns (r: Option<string>)
      modifies this
      ensures (View(), r) == Run(old(View()), config, plugin, x)
    {
      if x.imageFails { return None; }
      if x.configFails { return None; }
      var hc := new HostConfig();
      hc.ApplySandboxLinuxOptions(config, plugin);
      if x.runtimeFails { return None; }
      var id := CreateWithRecovery(config, hc.networkMode, x.creation);
      if id.None? { return None; }
      networkReady := networkReady[id.value := false];
      var ok, err := RunCreated(id.value, config, x);
      if err.None? { networkReady := networkReady[id.value := true]; }
      r := if ok then Some(id.value) else None;
    }

    /** The steps from the checkpoint on.  The out-parameter `err` is the variable that the deferred closure
        holds a pointer to; the declarations in the inner blocks hide it, as they do in the source. */
    method RunCreated(id: string, config: PodConfig, x: RunFaults) returns (ok: bool, err: Option<Call>)
      modifies this
      ensures Ended(View(), ok, err) == AfterCreation(old(View()), id, config, x)
    {
      ok := false;
      var hostNetwork := Network(config) == Node;
      err := ErrorIf(x.checkpointFails, CreatingCheckpoint);
      if err.Some? { return; }
      checkpoints := checkpoints[id := Stored(Identity(config.metadata.namespace, config.metadata.name, hostNetwork))];
      err := ErrorIf(x.startFails, Starting);
      if err.Some? { return; }
      if config.dns {
        var err := ErrorIf(x.inspectFails, Inspecting);
        if err.Some? { return; }
        {
          var err := ErrorIf(x.rewriteFails, Rewriting);
          if err.Some? { return; }
        }
      }
      if hostNetwork {
        ok := true;
        return;
      }
      if config.dns {
        var err := ErrorIf(x.marshalFails, Marshalling);
        if err.Some? { return; }
      }
      err := ErrorIf(x.setUpFails, SettingUp);
      calls := calls + [SetUp(id, config.metadata.namespace, config.metadata.name, err.None?)];
      if err.Some? {
        err := ErrorIf(x.tearDownFails, TearingDown);
        calls := calls + [TearDown(id, config.metadata.namespace, config.metadata.name, err.None?)];
        err := ErrorIf(x.stopFails, Stopping);
        return;
      }
      ok := true;
    }

    /** The identity of the sandbox, from Docker or from the checkpoint. */
    method Identify(id: string, x: StopFaults) returns (who: Option<Identity>)
      modifies this
      ensures View() == DropUnreadable(old(View()), id, FromInspect(old(View()), id), x)
      ensures who == Resolve(old(View()), id, FromInspect(old(View()), id), x)
    {
      var details := None;
      if !x.inspectFails && id in containers { details := Details(containers[id]); }
      if details.Some? { return details; }
      if !x.readFails && id in checkpoints && checkpoints[id].Stored? { return Some(checkpoints[id].identity); }
      if x.readFails || id in checkpoints {
        if !x.dropFails { checkpoints := checkpoints - {id}; }
      }
      if !x.inspectFails && id !in containers { return Some(Identity("", "", false)); }
      return None;
    }

    method StopPodSandbox(id: string, x: StopFaults) returns (ok: bool)
      modifies this
      ensures (View(), ok) == Stop(old(View()), id, x)
    {
      var who := Identify(id, x);
      if who.None? { return false; }
      ok := true;
      if !who.value.hostNetwork && (id !in networkReady || networkReady[id]) {
        calls := calls + [TearDown(id, who.value.namespace, who.value.name, !x.tearDownFails)];
        if x.tearDownFails {
          ok := false;
        } else {
          networkReady := networkReady[id := false];
        }
      }
      if x.stopFails {
        ok := false;
      } else if id !in containers {
        if !x.removeFails { checkpoints := checkpoints - {id}; }
      }
    }

    /** `listed` is the answer to the request for the sandbox's labelled containers, if that succeeds. */
    method RemovePodSandbox(id: string, listed: seq<string>, x: RemoveFaults) returns (ok: bool)
      requires forall c :: c in listed <==> c in Labelled(View(), id)
      modifies this
      ensures (View(), ok) == Remove(old(View()), id, x)
    {
      var cs := if x.listFails then [] else listed;
      TargetsOf(View(), id, cs, x);
      ok := RemoveListed(cs, x);
      if x.listFails { ok := false; }
      if Goes(id, x) { containers := containers - {id}; }
      if id in x.failing { ok := false; } else { networkReady := networkReady - {id}; }
      if x.checkpointFails { ok := false; } else { checkpoints := checkpoints - {id}; }
      RemovalsAdd(old(containers), cs, id, x);
      assert containers == old(containers) - Gone(cs + [id], x);
      assert View() == Remove(old(View()), id, x).0;
    }

    method RemoveListed(cs: seq<string>, x: RemoveFaults) returns (ok: bool)
      modifies `containers
      ensures containers == old(containers) - Gone(cs, x)
      ensures ok <==> forall c :: c in cs ==> c !in x.failing
    {
      ok := true;
      for i := 0 to |cs|
        invariant containers == old(containers) - Gone(cs[..i], x)
        invariant ok <==> forall c :: c in cs[..i] ==> c !in x.failing
      {
        assert cs[..i + 1] == cs[..i] + [cs[i]];
        RemovalsAdd(old(containers), cs[..i], cs[i], x);
        if Goes(cs[i], x) { containers := containers - {cs[i]}; }
        if cs[i] in x.failing { ok := false; }
      }
      assert cs[..|cs|] == cs;
    }
  }

  function Gone(cs: seq<string>, x: RemoveFaults): set<string> { set c | c in cs && Goes(c, x) }

  lemma TargetsOf(s: State, id: string, cs: seq<string>, x: RemoveFaults)
    requires forall c :: c in cs <==> !x.listFails && c in Labelled(s, id)
    ensures Removed(Targets(s, id, x), x) == Gone(cs + [id], x)
    ensures NoneFails(Targets(s, id, x), x) <==> (forall c :: c in cs ==> c !in x.failing) && id !in x.failing
  {
  }

  lemma RemovalsAdd(m: map<string, Container>, cs: seq<string>, c: string, x: RemoveFaults)
    ensures m - Gone(cs + [c], x) == if Goes(c, x) then m - Gone(cs, x) - {c} else m - Gone(cs, x)
  {
  }
}
