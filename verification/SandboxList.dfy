/** ListPodSandbox, core/sandbox_list.go: the merge of a listing of Docker's containers with an earlier
    listing of the checkpoints, while sandboxes are being created and removed. */
module SandboxList {
  import opened Text
  import opened Naming

  /** One container in Docker's answer. */
  datatype Entry = Entry(id: string, names: seq<string>, ready: bool)

  datatype Item =
    | OfContainer(id: string, metadata: PodMetadata, ready: bool)
    | OfCheckpoint(id: string, namespace: string, name: string)

  datatype Checkpoint = Checkpoint(namespace: string, name: string)

  // ---- the merge -------------------------------------------------------------------------------------------

  predicate WellNamed(names: seq<string>) {
    names != [] && ParseSandboxName(names[0]).Some?
  }

  /** The sandboxes of a container listing; `hideReady` is set by a filter for sandboxes that are not ready. */
  predicate Shown(e: Entry, hideReady: bool) {
    WellNamed(e.names) && !(hideReady && e.ready)
  }

  function Convert(e: Entry): Item
    requires WellNamed(e.names)
  {
    OfContainer(e.id, ParseSandboxName(e.names[0]).value, e.ready)
  }

  function ContainerItems(cs: seq<Entry>, hideReady: bool): seq<Item> {
    if cs == [] then []
    else
      var last := cs[|cs| - 1];
      ContainerItems(cs[..|cs| - 1], hideReady) + if Shown(last, hideReady) then [Convert(last)] else []
  }

  /** `readable` holds the checkpoints that can be read when their turn comes. */
  function CheckpointItems(checkpoints: seq<string>, taken: set<string>, readable: map<string, Checkpoint>): seq<Item> {
    if checkpoints == [] then []
    else
      var id := checkpoints[|checkpoints| - 1];
      CheckpointItems(checkpoints[..|checkpoints| - 1], taken, readable) +
      if id in taken || id !in readable then [] else [OfCheckpoint(id, readable[id].namespace, readable[id].name)]
  }

  function TakenIds(cs: seq<Entry>, hideReady: bool): set<string> {
    set e | e in cs && Shown(e, hideReady) :: e.id
  }

  function Merge(checkpoints: seq<string>, cs: seq<Entry>, hideReady: bool, readable: map<string, Checkpoint>): seq<Item> {
    ContainerItems(cs, hideReady) + CheckpointItems(checkpoints, TakenIds(cs, hideReady), readable)
  }

  method List(checkpoints: seq<string>, cs: seq<Entry>, hideReady: bool, readable: map<string, Checkpoint>)
    returns (result: seq<Item>)
    ensures result == Merge(checkpoints, cs, hideReady, readable)
  {
    var fromDocker, sandboxIDs := ListOfDocker(cs, hideReady);
    result := fromDocker;
    for i := 0 to |checkpoints|
      invariant result == fromDocker + CheckpointItems(checkpoints[..i], sandboxIDs, readable)
    {
      assert checkpoints[..i + 1][..i] == checkpoints[..i];
      if checkpoints[i] in sandboxIDs { continue; }
      if checkpoints[i] !in readable { continue; }
      result := result + [OfCheckpoint(checkpoints[i], readable[checkpoints[i]].namespace, readable[checkpoints[i]].name)];
    }
    assert checkpoints[..|checkpoints|] == checkpoints;
  }

  /** The first loop: the sandboxes among Docker's containers and the set of their ids. */
  method ListOfDocker(cs: seq<Entry>, hideReady: bool) returns (result: seq<Item>, sandboxIDs: set<string>)
    ensures result == ContainerItems(cs, hideReady) && sandboxIDs == TakenIds(cs, hideReady)
  {
    result, sandboxIDs := [], {};
    for i := 0 to |cs|
      invariant result == ContainerItems(cs[..i], hideReady)
      invariant sandboxIDs == TakenIds(cs[..i], hideReady)
    {
      assert cs[..i + 1][..i] == cs[..i];
      TakenAppend(cs[..i], cs[i], hideReady);
      assert cs[..i + 1] == cs[..i] + [cs[i]];
      if !WellNamed(cs[i].names) { continue; }
      if hideReady && cs[i].ready { continue; }
      sandboxIDs := sandboxIDs + {cs[i].id};
      result := result + [Convert(cs[i])];
    }
    assert cs[..|cs|] == cs;
  }

  lemma TakenAppend(cs: seq<Entry>, e: Entry, hideReady: bool)
    ensures TakenIds(cs + [e], hideReady) == TakenIds(cs, hideReady) + if Shown(e, hideReady) then {e.id} else {}
  {
  }

  /** What a container listing contributes, entry by entry. */
  lemma {:induction false} ContainerItemsAre(cs: seq<Entry>, hideReady: bool)
    ensures forall item :: item in ContainerItems(cs, hideReady) <==>
              exists e :: e in cs && Shown(e, hideReady) && item == Convert(e)
  {
    if cs != [] {
      var n := |cs| - 1;
      ContainerItemsAre(cs[..n], hideReady);
      assert forall e :: e in cs <==> e in cs[..n] || e == cs[n];
    }
  }

  lemma {:induction false} CheckpointItemsAre(checkpoints: seq<string>, taken: set<string>, readable: map<string, Checkpoint>)
    ensures forall item :: item in CheckpointItems(checkpoints, taken, readable) <==>
              item.OfCheckpoint? && item.id in checkpoints && item.id !in taken && item.id in readable &&
              readable[item.id] == Checkpoint(item.namespace, item.name)
  {
    if checkpoints != [] {
      var n := |checkpoints| - 1;
      CheckpointItemsAre(checkpoints[..n], taken, readable);
      assert forall c :: c in checkpoints <==> c in checkpoints[..n] || c == checkpoints[n];
    }
  }

  ghost predicate DistinctIds(items: seq<Item>) {
    forall i, j :: 0 <= i < j < |items| ==> items[i].id != items[j].id
  }

  lemma {:induction false} ContainerItemsDistinct(cs: seq<Entry>, hideReady: bool)
    requires forall i, j :: 0 <= i < j < |cs| ==> cs[i].id != cs[j].id
    ensures DistinctIds(ContainerItems(cs, hideReady))
  {
    if cs != [] {
      var n := |cs| - 1;
      ContainerItemsDistinct(cs[..n], hideReady);
      ContainerItemsAre(cs[..n], hideReady);
      forall item | item in ContainerItems(cs[..n], hideReady)
        ensures item.id != cs[n].id
      {
        var e :| e in cs[..n] && Shown(e, hideReady) && item == Convert(e);
      }
    }
  }

  lemma {:induction false} CheckpointItemsDistinct(checkpoints: seq<string>, taken: set<string>, readable: map<string, Checkpoint>)
    requires forall i, j :: 0 <= i < j < |checkpoints| ==> checkpoints[i] != checkpoints[j]
    ensures DistinctIds(CheckpointItems(checkpoints, taken, readable))
  {
    if checkpoints != [] {
      var n := |checkpoints| - 1;
      CheckpointItemsDistinct(checkpoints[..n], taken, readable);
      CheckpointItemsAre(checkpoints[..n], taken, readable);
    }
  }

  /** No id is listed twice. */
  lemma NoIdTwice(checkpoints: seq<string>, cs: seq<Entry>, hideReady: bool, readable: map<string, Checkpoint>)
    requires forall i, j :: 0 <= i < j < |checkpoints| ==> checkpoints[i] != checkpoints[j]
    requires forall i, j :: 0 <= i < j < |cs| ==> cs[i].id != cs[j].id
    ensures DistinctIds(Merge(checkpoints, cs, hideReady, readable))
  {
    var taken := TakenIds(cs, hideReady);
    ContainerItemsDistinct(cs, hideReady);
    CheckpointItemsDistinct(checkpoints, taken, readable);
    ContainerItemsAre(cs, hideReady);
    CheckpointItemsAre(checkpoints, taken, readable);
    forall a, b | a in ContainerItems(cs, hideReady) && b in CheckpointItems(checkpoints, taken, readable)
      ensures a.id != b.id
    {
      var e :| e in cs && Shown(e, hideReady) && a == Convert(e);
    }
  }

  /** Docker's answer shows the sandbox `id`: an entry with a name that can be parsed, as `pod`, in this state. */
  ghost predicate InAnswer(cs: seq<Entry>, id: string, pod: PodMetadata, ready: bool) {
    exists e :: e in cs && e.id == id && e.ready == ready && e.names != [] && ParseSandboxName(e.names[0]) == Some(pod)
  }

  /** The listing reports a sandbox of Docker's with the pod its name tells and its state, and exactly those; with a
      filter for sandboxes that are not ready, exactly those of them that are not. */
  lemma ContainerReportedIff(checkpoints: seq<string>, cs: seq<Entry>, hideReady: bool, readable: map<string, Checkpoint>,
                             id: string, pod: PodMetadata, ready: bool)
    ensures OfContainer(id, pod, ready) in Merge(checkpoints, cs, hideReady, readable) <==>
            InAnswer(cs, id, pod, ready) && !(hideReady && ready)
  {
    ContainerItemsAre(cs, hideReady);
    CheckpointItemsAre(checkpoints, TakenIds(cs, hideReady), readable);
    var item := OfContainer(id, pod, ready);
    if InAnswer(cs, id, pod, ready) && !(hideReady && ready) {
      var e :| e in cs && e.id == id && e.ready == ready && e.names != [] && ParseSandboxName(e.names[0]) == Some(pod);
      assert Shown(e, hideReady) && item == Convert(e);
    }
    if item in ContainerItems(cs, hideReady) {
      var e :| e in cs && Shown(e, hideReady) && item == Convert(e);
      assert e.id == id && e.ready == ready && ParseSandboxName(e.names[0]) == Some(pod);
    }
  }

  /** And it reports a checkpoint, with its names, exactly if it was listed, can be read, and Docker's answer does not
      show its sandbox in a state that the filter lets through. */
  lemma CheckpointReportedIff(checkpoints: seq<string>, cs: seq<Entry>, hideReady: bool, readable: map<string, Checkpoint>,
                              id: string, namespace: string, name: string)
    ensures OfCheckpoint(id, namespace, name) in Merge(checkpoints, cs, hideReady, readable) <==>
      && id in checkpoints && id in readable && readable[id] == Checkpoint(namespace, name)
      && forall pod, ready :: InAnswer(cs, id, pod, ready) ==> hideReady && ready
  {
    ContainerItemsAre(cs, hideReady);
    CheckpointItemsAre(checkpoints, TakenIds(cs, hideReady), readable);
    if id in TakenIds(cs, hideReady) {
      var e :| e in cs && Shown(e, hideReady) && e.id == id;
      assert InAnswer(cs, id, ParseSandboxName(e.names[0]).value, e.ready);
    }
    if pod, ready :| InAnswer(cs, id, pod, ready) && !(hideReady && ready) {
      var e :| e in cs && e.id == id && e.ready == ready && e.names != [] && ParseSandboxName(e.names[0]) == Some(pod);
      assert Shown(e, hideReady);
    }
  }

  // ---- the interleaving --------------------------------------------------------------------------------------

  /** A listing under way: it has listed the checkpoints, then also the containers. `found` is false if
      Docker answered that nothing was found, an answer that is tolerated and leaves no containers. */
  datatype Listing = HasCheckpoints(checkpoints: seq<string>) | HasBoth(checkpoints: seq<string>, cs: seq<Entry>, found: bool)

  /** `created` keeps the names of every sandbox container ever created, `removed` the ids of those that
      have left Docker. */
  datatype World = World(containers: map<string, Entry>, checkpoints: map<string, Checkpoint>,
                         created: map<string, seq<string>>, removed: set<string>, listings: map<nat, Listing>)

  datatype Step =
    | CreateContainer(id: string, names: seq<string>)
    | CreateCheckpoint(id: string, checkpoint: Checkpoint)
    | ChangeState(id: string, ready: bool)
    | RemoveContainer(id: string)
    | RemoveCheckpoint(id: string)
    | ListCheckpoints(who: nat, keys: seq<string>)
    | ListContainers(who: nat, cs: seq<Entry>, found: bool)

  /** A Run creates the checkpoint of a container after the container; a listing asks for the checkpoints,
      which may fail and then answers with none, before the containers. */
  ghost predicate Enabled(w: World, s: Step) {
    match s
    case CreateContainer(id, names) => id !in w.created
    case CreateCheckpoint(id, checkpoint) => id in w.created
    case ChangeState(id, ready) => id in w.containers
    case RemoveContainer(id) => id in w.containers
    case RemoveCheckpoint(id) => true
    case ListCheckpoints(who, keys) =>
      && who !in w.listings && Distinct(keys) && (keys == [] || forall k :: k in keys <==> k in w.checkpoints)
    case ListContainers(who, cs, found) =>
      && who in w.listings && w.listings[who].HasCheckpoints?
      && (if found then Enumerates(cs, w.containers) else cs == [])
  }

  ghost predicate Distinct(keys: seq<string>) { forall i, j :: 0 <= i < j < |keys| ==> keys[i] != keys[j] }

  ghost predicate Enumerates(cs: seq<Entry>, m: map<string, Entry>) {
    && (forall e :: e in cs ==> e.id in m && m[e.id] == e)
    && (forall id :: id in m ==> m[id] in cs)
    && forall i, j :: 0 <= i < j < |cs| ==> cs[i].id != cs[j].id
  }

  function Take(w: World, s: Step): World {
    match s
    case CreateContainer(id, names) =>
      w.(containers := w.containers[id := Entry(id, names, false)], created := w.created[id := names])
    case CreateCheckpoint(id, checkpoint) => w.(checkpoints := w.checkpoints[id := checkpoint])
    case ChangeState(id, ready) =>
      if id in w.containers then w.(containers := w.containers[id := w.containers[id].(ready := ready)]) else w
    case RemoveContainer(id) => w.(containers := w.containers - {id}, removed := w.removed + {id})
    case RemoveCheckpoint(id) => w.(checkpoints := w.checkpoints - {id})
    case ListCheckpoints(who, keys) => w.(listings := w.listings[who := HasCheckpoints(keys)])
    case ListContainers(who, cs, found) =>
      if who in w.listings then w.(listings := w.listings[who := HasBoth(w.listings[who].checkpoints, cs, found)]) else w
  }

  const NO_WORLD := World(map[], map[], map[], {}, map[])

  function WorldAfter(steps: seq<Step>): World {
    if steps == [] then NO_WORLD else Take(WorldAfter(steps[..|steps| - 1]), steps[|steps| - 1])
  }

  ghost predicate Possible(steps: seq<Step>) {
    steps == [] || (Possible(steps[..|steps| - 1]) && Enabled(WorldAfter(steps[..|steps| - 1]), steps[|steps| - 1]))
  }

  /** A created container is in Docker, under its names, until it is removed. */
  ghost predicate ContainersInv(w: World) {
    && (forall id :: id in w.created ==> id in w.containers || id in w.removed)
    && forall id :: id in w.containers ==> id in w.created && w.containers[id].id == id && w.containers[id].names == w.created[id]
  }

  ghost predicate CheckpointsInv(w: World) { forall id :: id in w.checkpoints ==> id in w.created }

  /** The listed checkpoints belong to created containers; those not in the container listing are gone. */
  ghost predicate ListingInv(w: World, l: Listing) {
    && Distinct(l.checkpoints) && (forall id :: id in l.checkpoints ==> id in w.created)
    && (l.HasBoth? ==> forall i, j :: 0 <= i < j < |l.cs| ==> l.cs[i].id != l.cs[j].id)
    && (l.HasBoth? && !l.found ==> l.cs == [])
    && (l.HasBoth? && l.found ==> forall id :: id in l.checkpoints ==> id in w.removed || Entered(l.cs, id, w.created[id]))
  }

  ghost predicate Entered(cs: seq<Entry>, id: string, names: seq<string>) {
    exists e :: e in cs && e.id == id && e.names == names
  }

  ghost predicate Inv(w: World) {
    ContainersInv(w) && CheckpointsInv(w) && forall who :: who in w.listings ==> ListingInv(w, w.listings[who])
  }

  lemma StepKeepsInv(w: World, s: Step)
    requires Inv(w) && Enabled(w, s)
    ensures Inv(Take(w, s))
  {
  }

  lemma {:induction false} PossibleInv(steps: seq<Step>)
    requires Possible(steps)
    ensures Inv(WorldAfter(steps))
    decreases |steps|
  {
    if steps != [] {
      var n := |steps| - 1;
      PossibleInv(steps[..n]);
      StepKeepsInv(WorldAfter(steps[..n]), steps[n]);
    }
  }

  lemma UntakenIsGone(w: World, l: Listing, id: string)
    requires ListingInv(w, l) && l.HasBoth? && l.found && id in l.checkpoints && id !in TakenIds(l.cs, false)
    ensures id in w.removed || !WellNamed(w.created[id])
  {
  }

  /** In every interleaving of creations, removals and listings, a finished unfiltered listing names no id
      twice and reports a sandbox from its checkpoint alone only if the sandbox's container has left Docker
      or has a name that cannot be parsed, unless Docker answered that nothing was found. */
  lemma NeverFromCheckpointAlone(steps: seq<Step>, who: nat, readable: map<string, Checkpoint>)
    requires Possible(steps) && who in WorldAfter(steps).listings && WorldAfter(steps).listings[who].HasBoth?
    ensures var w := WorldAfter(steps); var l := w.listings[who];
      var items := Merge(l.checkpoints, l.cs, false, readable);
      && DistinctIds(items)
      && (l.found ==> forall item :: item in items && item.OfCheckpoint? ==>
            item.id in w.created && (item.id in w.removed || !WellNamed(w.created[item.id])))
  {
    PossibleInv(steps);
    var w := WorldAfter(steps);
    var l := w.listings[who];
    NoIdTwice(l.checkpoints, l.cs, false, readable);
    ContainerItemsAre(l.cs, false);
    CheckpointItemsAre(l.checkpoints, TakenIds(l.cs, false), readable);
    if l.found {
      forall item | item in Merge(l.checkpoints, l.cs, false, readable) && item.OfCheckpoint?
        ensures item.id in w.created && (item.id in w.removed || !WellNamed(w.created[item.id]))
      {
        UntakenIsGone(w, l, item.id);
      }
    }
  }

  /** Without containers in the answer every readable checkpoint is reported alone. */
  lemma NotFoundReportsCheckpoints(checkpoints: seq<string>, readable: map<string, Checkpoint>, id: string)
    requires id in checkpoints && id in readable
    ensures OfCheckpoint(id, readable[id].namespace, readable[id].name) in Merge(checkpoints, [], false, readable)
  {
    CheckpointItemsAre(checkpoints, TakenIds([], false), readable);
    var item := OfCheckpoint(id, readable[id].namespace, readable[id].name);
    assert item in CheckpointItems(checkpoints, TakenIds([], false), readable);
  }

  lemma StepPossible(steps: seq<Step>, s: Step, w: World)
    requires Possible(steps) && Enabled(WorldAfter(steps), s) && w == Take(WorldAfter(steps), s)
    ensures Possible(steps + [s]) && WorldAfter(steps + [s]) == w
  {
  }

  /** The sandbox `id` has a container in Docker whose name can be parsed. */
  ghost predicate Standing(w: World, id: string) { id in w.created && id !in w.removed && WellNamed(w.created[id]) }

  /** In every interleaving a finished listing reports such a sandbox from its checkpoint alone exactly if
      Docker answered that nothing was found and its checkpoint was listed and can be read. */
  lemma FromCheckpointAloneIff(steps: seq<Step>, who: nat, readable: map<string, Checkpoint>, id: string)
    requires Possible(steps) && who in WorldAfter(steps).listings && WorldAfter(steps).listings[who].HasBoth?
    requires Standing(WorldAfter(steps), id)
    ensures var l := WorldAfter(steps).listings[who];
      (exists item :: item in Merge(l.checkpoints, l.cs, false, readable) && item.OfCheckpoint? && item.id == id) <==>
      !l.found && id in l.checkpoints && id in readable
  {
    PossibleInv(steps);
    var l := WorldAfter(steps).listings[who];
    NeverFromCheckpointAlone(steps, who, readable);
    ContainerItemsAre(l.cs, false);
    CheckpointItemsAre(l.checkpoints, TakenIds(l.cs, false), readable);
    if !l.found && id in l.checkpoints && id in readable {
      NotFoundReportsCheckpoints(l.checkpoints, readable, id);
    }
  }

  /** In every interleaving a finished listing that Docker answered reports every sandbox that it had listed the
      checkpoint of and whose container is still there, as the pod its name tells. */
  lemma StandingIsListed(steps: seq<Step>, who: nat, readable: map<string, Checkpoint>, id: string) returns (ready: bool)
    requires Possible(steps) && who in WorldAfter(steps).listings && WorldAfter(steps).listings[who].HasBoth?
    requires var l := WorldAfter(steps).listings[who]; l.found && id in l.checkpoints
    requires Standing(WorldAfter(steps), id)
    ensures var w := WorldAfter(steps); var l := w.listings[who];
      OfContainer(id, ParseSandboxName(w.created[id][0]).value, ready) in Merge(l.checkpoints, l.cs, false, readable)
  {
    PossibleInv(steps);
    var w := WorldAfter(steps);
    var l := w.listings[who];
    assert Entered(l.cs, id, w.created[id]);
    var e :| e in l.cs && e.id == id && e.names == w.created[id];
    ready := e.ready;
    var pod := ParseSandboxName(w.created[id][0]).value;
    assert InAnswer(l.cs, id, pod, ready);
    ContainerReportedIff(l.checkpoints, l.cs, false, readable, id, pod, ready);
  }

  function NotFoundRun(id: string, pod: PodMetadata): seq<Step> {
    [CreateContainer(id, [MakeSandboxName(pod)]), CreateCheckpoint(id, Checkpoint(pod.namespace, pod.name)),
     ListCheckpoints(0, [id]), ListContainers(0, [], false)]
  }

  /** The tolerated answer does hide containers: for every sandbox there is a run in which its container
      stays in Docker, under a name that can be parsed, while the listing reports its checkpoint alone. */
  lemma NotFoundHidesAContainer(id: string, pod: PodMetadata)
    requires DelimiterFree(pod)
    ensures var steps := NotFoundRun(id, pod); var w := WorldAfter(steps);
      && Possible(steps) && id in w.containers && id !in w.removed && id in w.created && WellNamed(w.created[id]) && 0 in w.listings
      && OfCheckpoint(id, pod.namespace, pod.name)
         in Merge(w.listings[0].checkpoints, [], false, map[id := Checkpoint(pod.namespace, pod.name)])
  {
    var steps := NotFoundRun(id, pod);
    var names := [MakeSandboxName(pod)];
    var cp := Checkpoint(pod.namespace, pod.name);
    var w1 := World(map[id := Entry(id, names, false)], map[], map[id := names], {}, map[]);
    var w2 := w1.(checkpoints := map[id := cp]);
    var w3 := w2.(listings := map[0 := HasCheckpoints([id])]);
    var w4 := w2.(listings := map[0 := HasBoth([id], [], false)]);
    assert [] + [steps[0]] == [steps[0]] && [steps[0]] + [steps[1]] == [steps[0], steps[1]];
    assert [steps[0], steps[1]] + [steps[2]] == [steps[0], steps[1], steps[2]];
    StepPossible([], steps[0], w1);
    StepPossible([steps[0]], steps[1], w2);
    StepPossible([steps[0], steps[1]], steps[2], w3);
    StepPossible([steps[0], steps[1], steps[2]], steps[3], w4);
    assert [steps[0], steps[1], steps[2]] + [steps[3]] == steps;
    SandboxNameRoundTrip(pod, false, None);
    NotFoundReportsCheckpoints([id], map[id := cp], id);
  }
}
