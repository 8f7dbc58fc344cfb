/** The per-pod lock table of network/plugins.go.

    Lock objects are made on demand, counted under the global mutex `podsLock`, waited on
    outside it, and dropped from the `pods` map when their count returns to zero.  A Go mutex
    has no owner, and `podUnlock` finds the mutex to release by looking the pod name up again,
    so nothing in the text of the code says that it releases the mutex its caller locked.

    `Ref` and `Unref` are the two critical sections.  `Next` is one step of one goroutine, and
    the theorems range over every run of any number of goroutines on any number of pods. */
module PodLocks {
  import opened Text

  type LockId = nat
  type Tid = nat

  /** A podLock object: its reference count and its mutex.  Which goroutine locked the mutex is
      recorded for the proofs; `Unref` releases it whoever that was. */
  datatype Cell = Cell(refcount: nat, lockedBy: Option<Tid>)

  /** `pods` is the manager's map; `cells` holds every lock object made so far, also dropped ones. */
  datatype Table = Table(pods: map<string, LockId>, cells: map<LockId, Cell>, next: LockId)

  datatype Release = Released | Unbalanced | ZeroRefcount | UnlockOfUnlocked

  // ---- the two critical sections -------------------------------------------------------------

  /** podLock: find or make the lock object and count the caller. */
  function Ref(tab: Table, name: string): (r: (Table, LockId))
    requires name in tab.pods ==> tab.pods[name] in tab.cells
  {
    if name in tab.pods then
      var lock := tab.pods[name];
      var cell := tab.cells[lock];
      (tab.(cells := tab.cells[lock := cell.(refcount := cell.refcount + 1)]), lock)
    else
      (Table(tab.pods[name := tab.next], tab.cells[tab.next := Cell(1, None)], tab.next + 1), tab.next)
  }

  /** podUnlock: uncount the caller, release the mutex found under `name`, drop it at zero. */
  function Unref(tab: Table, name: string): (r: (Table, Release))
    requires name in tab.pods ==> tab.pods[name] in tab.cells
  {
    if name !in tab.pods then (tab, Unbalanced)
    else
      var lock := tab.pods[name];
      var cell := tab.cells[lock];
      if cell.refcount == 0 then (tab.(pods := tab.pods - {name}), ZeroRefcount)
      else if cell.lockedBy.None? then
        (tab.(cells := tab.cells[lock := cell.(refcount := cell.refcount - 1)]), UnlockOfUnlocked)
      else
        var tab' := tab.(cells := tab.cells[lock := Cell(cell.refcount - 1, None)]);
        (if cell.refcount == 1 then tab'.(pods := tab.pods - {name}) else tab', Released)
  }

  // ---- goroutines and their steps ------------------------------------------------------------

  /** Where a goroutine is inside SetUpPod, TearDownPod or GetPodNetworkStatus.  From `Inside`
      on, `lock` records the mutex the goroutine has locked; `podUnlock` never sees it. */
  datatype PC =
    | WantRef(name: string)                    // blocked on podsLock in podLock
    | Refing(name: string)                     // holds podsLock in podLock
    | Waiting(name: string, lock: LockId)      // blocked on the pod's mutex
    | Inside(name: string, lock: LockId)       // calling the plugin
    | WantUnref(name: string, lock: LockId)    // blocked on podsLock in podUnlock
    | Unrefing(name: string, lock: LockId)     // holds podsLock in podUnlock

  datatype State = State(tab: Table, podsLock: Option<Tid>, threads: map<Tid, PC>, fault: bool)

  datatype Action = Call(name: string) | GetPodsLock | DoRef | LockMutex | PluginReturns | DoUnref

  ghost predicate Initial(s: State) {
    s == State(Table(map[], map[], 0), None, map[], false)
  }

  ghost predicate Counted(pc: PC) { !pc.WantRef? && !pc.Refing? }
  ghost predicate Holds(pc: PC) { pc.Inside? || pc.WantUnref? || pc.Unrefing? }
  ghost predicate InCritical(pc: PC) { pc.Refing? || pc.Unrefing? }

  ghost predicate Known(tab: Table, name: string) {
    name in tab.pods ==> tab.pods[name] in tab.cells
  }

  ghost predicate Enabled(s: State, t: Tid, a: Action) {
    if a.Call? then t !in s.threads
    else t in s.threads &&
         var pc := s.threads[t];
         match a
         case GetPodsLock => (pc.WantRef? || pc.WantUnref?) && s.podsLock == None
         case DoRef => pc.Refing? && Known(s.tab, pc.name)
         case LockMutex => pc.Waiting? && pc.lock in s.tab.cells && s.tab.cells[pc.lock].lockedBy.None?
         case PluginReturns => pc.Inside?
         case DoUnref => pc.Unrefing? && Known(s.tab, pc.name)
  }

  ghost function After(s: State, t: Tid, a: Action): State
    requires Enabled(s, t, a)
  {
    match a
    case Call(name) => s.(threads := s.threads[t := WantRef(name)])
    case GetPodsLock =>
      var pc := s.threads[t];
      s.(podsLock := Some(t),
         threads := s.threads[t := if pc.WantRef? then Refing(pc.name) else Unrefing(pc.name, pc.lock)])
    case DoRef =>
      var pc := s.threads[t];
      var (tab, lock) := Ref(s.tab, pc.name);
      s.(tab := tab, podsLock := None, threads := s.threads[t := Waiting(pc.name, lock)])
    case LockMutex =>
      var pc := s.threads[t];
      var cell := s.tab.cells[pc.lock];
      s.(tab := s.tab.(cells := s.tab.cells[pc.lock := cell.(lockedBy := Some(t))]),
         threads := s.threads[t := Inside(pc.name, pc.lock)])
    case PluginReturns =>
      var pc := s.threads[t];
      s.(threads := s.threads[t := WantUnref(pc.name, pc.lock)])
    case DoUnref =>
      var (tab, release) := Unref(s.tab, s.threads[t].name);
      State(tab, None, s.threads - {t}, s.fault || release != Released)
  }

  ghost predicate Next(s: State, s': State) {
    exists t, a :: Enabled(s, t, a) && s' == After(s, t, a)
  }

  ghost predicate Run(run: seq<State>) {
    && |run| > 0 && Initial(run[0])
    && forall i {:trigger Next(run[i], run[i + 1])} :: 0 <= i < |run| - 1 ==> Next(run[i], run[i + 1])
  }

  // ---- the invariant ---------------------------------------------------------------------------

  /** The goroutines that podLock has counted under `name` and podUnlock has not yet uncounted. */
  ghost function Users(threads: map<Tid, PC>, name: string): set<Tid> {
    set t | t in threads && Counted(threads[t]) && threads[t].name == name
  }

  ghost predicate PodsLockInv(s: State) {
    && (s.podsLock.Some? ==> s.podsLock.value in s.threads)
    && (forall t :: t in s.threads ==> (InCritical(s.threads[t]) <==> s.podsLock == Some(t)))
  }

  ghost predicate TableInv(s: State) {
    && (forall l :: l in s.tab.cells ==> l < s.tab.next)
    && (forall n :: n in s.tab.pods ==> s.tab.pods[n] in s.tab.cells)
    && (forall n, m :: n in s.tab.pods && m in s.tab.pods && s.tab.pods[n] == s.tab.pods[m] ==> n == m)
    && (forall n :: n in s.tab.pods ==>
          Users(s.threads, n) != {} && s.tab.cells[s.tab.pods[n]].refcount == |Users(s.threads, n)|)
  }

  ghost predicate UserInv(s: State) {
    forall t :: t in s.threads && Counted(s.threads[t]) ==>
      s.threads[t].name in s.tab.pods && s.tab.pods[s.threads[t].name] == s.threads[t].lock
  }

  ghost predicate HolderInv(s: State) {
    && (forall t :: t in s.threads && Holds(s.threads[t]) ==>
          s.threads[t].lock in s.tab.cells && s.tab.cells[s.threads[t].lock].lockedBy == Some(t))
    && (forall l :: l in s.tab.cells && s.tab.cells[l].lockedBy.Some? ==>
          var t := s.tab.cells[l].lockedBy.value;
          t in s.threads && Holds(s.threads[t]) && s.threads[t].lock == l)
  }

  ghost predicate Inv(s: State) {
    PodsLockInv(s) && TableInv(s) && UserInv(s) && HolderInv(s) && !s.fault
  }

  // ---- every step keeps it ----------------------------------------------------------------------

  /** A step of `t` that leaves its counted name alone leaves every user set alone. */
  lemma UsersUnchanged(threads: map<Tid, PC>, t: Tid, pc: PC)
    requires t in threads ==> Counted(threads[t]) == Counted(pc) && threads[t].name == pc.name
    requires t !in threads ==> !Counted(pc)
    ensures forall n :: Users(threads[t := pc], n) == Users(threads, n)
  {
  }

  /** A step other than counting and uncounting. */
  ghost predicate Quiet(s: State, t: Tid, a: Action) {
    Enabled(s, t, a) && !a.DoRef? && !a.DoUnref?
  }

  lemma QuietKeepsTable(s: State, t: Tid, a: Action)
    requires TableInv(s) && Quiet(s, t, a)
    ensures TableInv(After(s, t, a))
  {
    var s' := After(s, t, a);
    UsersUnchanged(s.threads, t, s'.threads[t]);
    assert forall l :: l in s.tab.cells <==> l in s'.tab.cells;
    assert forall l :: l in s.tab.cells ==> s.tab.cells[l].refcount == s'.tab.cells[l].refcount;
  }

  lemma QuietKeepsHolders(s: State, t: Tid, a: Action)
    requires HolderInv(s) && Quiet(s, t, a)
    ensures HolderInv(After(s, t, a))
  {
  }

  lemma QuietKeepsUsers(s: State, t: Tid, a: Action)
    requires UserInv(s) && Quiet(s, t, a)
    ensures UserInv(After(s, t, a))
  {
  }

  lemma QuietKeepsPodsLock(s: State, t: Tid, a: Action)
    requires PodsLockInv(s) && Quiet(s, t, a)
    ensures PodsLockInv(After(s, t, a))
  {
  }

  lemma QuietKeepsInv(s: State, t: Tid, a: Action)
    requires Inv(s) && Quiet(s, t, a)
    ensures Inv(After(s, t, a))
  {
    QuietKeepsTable(s, t, a);
    QuietKeepsHolders(s, t, a);
    QuietKeepsUsers(s, t, a);
    QuietKeepsPodsLock(s, t, a);
  }

  lemma RefUsers(s: State, t: Tid, n: string)
    requires Inv(s) && Enabled(s, t, DoRef)
    ensures t !in Users(s.threads, n)
    ensures Users(After(s, t, DoRef).threads, n) == Users(s.threads, n) + (if n == s.threads[t].name then {t} else {})
  {
  }

  /** A name outside the map has no users, so a lock object dropped from the map has none either. */
  lemma AbsentHasNoUsers(s: State, name: string)
    requires UserInv(s) && name !in s.tab.pods
    ensures Users(s.threads, name) == {}
  {
  }

  lemma RefKeepsTable(s: State, t: Tid)
    requires Inv(s) && Enabled(s, t, DoRef)
    ensures TableInv(After(s, t, DoRef))
  {
    var s' := After(s, t, DoRef);
    var name := s.threads[t].name;
    forall n | n in s'.tab.pods
      ensures Users(s'.threads, n) != {} && s'.tab.cells[s'.tab.pods[n]].refcount == |Users(s'.threads, n)|
    {
      RefUsers(s, t, n);
      if n == name {
        assert t in Users(s'.threads, n);
        if name !in s.tab.pods { AbsentHasNoUsers(s, name); }
      }
    }
  }

  lemma RefKeepsHolders(s: State, t: Tid)
    requires TableInv(s) && HolderInv(s) && Enabled(s, t, DoRef)
    ensures HolderInv(After(s, t, DoRef))
  {
  }

  lemma RefKeepsInv(s: State, t: Tid)
    requires Inv(s) && Enabled(s, t, DoRef)
    ensures Inv(After(s, t, DoRef))
  {
    RefKeepsTable(s, t);
    RefKeepsHolders(s, t);
    assert UserInv(After(s, t, DoRef));
    assert PodsLockInv(After(s, t, DoRef));
  }

  /** The table that podUnlock meets: the name is there, counted, and its mutex is the caller's. */
  lemma UnrefFindsItsOwnMutex(s: State, t: Tid)
    requires Inv(s) && Enabled(s, t, DoUnref)
    ensures var pc := s.threads[t];
      && pc.name in s.tab.pods && s.tab.pods[pc.name] == pc.lock
      && s.tab.cells[pc.lock].refcount > 0 && s.tab.cells[pc.lock].lockedBy == Some(t)
      && Unref(s.tab, pc.name).1 == Released
  {
  }

  lemma UnrefUsers(s: State, t: Tid, n: string)
    requires Inv(s) && Enabled(s, t, DoUnref)
    ensures t in Users(s.threads, s.threads[t].name)
    ensures Users(After(s, t, DoUnref).threads, n) == Users(s.threads, n) - (if n == s.threads[t].name then {t} else {})
  {
  }

  lemma UnrefCounts(s: State, t: Tid, n: string)
    requires Inv(s) && Enabled(s, t, DoUnref) && n in After(s, t, DoUnref).tab.pods
    ensures var s' := After(s, t, DoUnref);
      && s'.tab.pods[n] in s'.tab.cells && Users(s'.threads, n) != {}
      && s'.tab.cells[s'.tab.pods[n]].refcount == |Users(s'.threads, n)|
  {
    UnrefFindsItsOwnMutex(s, t);
    UnrefUsers(s, t, n);
    var s' := After(s, t, DoUnref);
    assert n == s.threads[t].name ==> |Users(s'.threads, n)| == |Users(s.threads, n)| - 1;
  }

  lemma UnrefKeepsTable(s: State, t: Tid)
    requires Inv(s) && Enabled(s, t, DoUnref)
    ensures TableInv(After(s, t, DoUnref))
  {
    UnrefFindsItsOwnMutex(s, t);
    var s' := After(s, t, DoUnref);
    var name := s.threads[t].name;
    forall n | n in s'.tab.pods
      ensures Users(s'.threads, n) != {} && s'.tab.cells[s'.tab.pods[n]].refcount == |Users(s'.threads, n)|
    {
      UnrefCounts(s, t, n);
    }
  }

  lemma UnrefKeepsUsers(s: State, t: Tid)
    requires Inv(s) && Enabled(s, t, DoUnref)
    ensures UserInv(After(s, t, DoUnref))
  {
    UnrefFindsItsOwnMutex(s, t);
    var s' := After(s, t, DoUnref);
    var name := s.threads[t].name;
    UnrefUsers(s, t, name);
    assert |Users(s'.threads, name)| == s.tab.cells[s.threads[t].lock].refcount - 1;
    forall u | u in s'.threads && Counted(s'.threads[u])
      ensures s'.threads[u].name in s'.tab.pods && s'.tab.pods[s'.threads[u].name] == s'.threads[u].lock
    {
      if s'.threads[u].name == name {
        assert u in Users(s'.threads, name);
      }
    }
  }

  lemma UnrefKeepsHolders(s: State, t: Tid)
    requires Inv(s) && Enabled(s, t, DoUnref)
    ensures HolderInv(After(s, t, DoUnref))
  {
    UnrefFindsItsOwnMutex(s, t);
  }

  lemma UnrefKeepsInv(s: State, t: Tid)
    requires Inv(s) && Enabled(s, t, DoUnref)
    ensures Inv(After(s, t, DoUnref))
  {
    UnrefFindsItsOwnMutex(s, t);
    UnrefKeepsTable(s, t);
    UnrefKeepsUsers(s, t);
    UnrefKeepsHolders(s, t);
    assert PodsLockInv(After(s, t, DoUnref));
  }

  lemma StepKeepsInv(s: State, s': State)
    requires Inv(s) && Next(s, s')
    ensures Inv(s')
  {
    var t, a :| Enabled(s, t, a) && s' == After(s, t, a);
    match a
    case DoRef => RefKeepsInv(s, t);
    case DoUnref => UnrefKeepsInv(s, t);
    case _ => QuietKeepsInv(s, t, a);
  }

  lemma {:induction false} RunKeepsInv(run: seq<State>, i: nat)
    requires Run(run) && i < |run|
    ensures Inv(run[i])
    decreases i
  {
    if i > 0 {
      var k := i - 1;
      RunKeepsInv(run, k);
      assert Next(run[k], run[k + 1]);
      StepKeepsInv(run[k], run[k + 1]);
    }
  }

  // ---- what every run guarantees ------------------------------------------------------------------

  /** Mutual exclusion per full pod name, and one shared lock object per name: everybody that
      waits for, holds or is about to release the pod's mutex refers to the object now in the map. */
  lemma MutualExclusion(run: seq<State>, i: nat, t: Tid, u: Tid)
    requires Run(run) && i < |run|
    requires t in run[i].threads && u in run[i].threads
    requires run[i].threads[t].name == run[i].threads[u].name
    ensures run[i].threads[t].Inside? && run[i].threads[u].Inside? ==> t == u
    ensures Counted(run[i].threads[t]) && Counted(run[i].threads[u]) ==>
      && run[i].threads[t].lock == run[i].threads[u].lock
      && run[i].threads[t].name in run[i].tab.pods
      && run[i].threads[t].lock == run[i].tab.pods[run[i].threads[t].name]
  {
    RunKeepsInv(run, i);
  }

  /** The map holds exactly the names with counted goroutines, each reference count is their
      number, and neither "should never happen" branch nor an unlock of an unlocked mutex is taken. */
  lemma TableIsExact(run: seq<State>, i: nat, name: string)
    requires Run(run) && i < |run|
    ensures name in run[i].tab.pods <==> Users(run[i].threads, name) != {}
    ensures name in run[i].tab.pods ==>
      && run[i].tab.pods[name] in run[i].tab.cells
      && run[i].tab.cells[run[i].tab.pods[name]].refcount == |Users(run[i].threads, name)|
    ensures !run[i].fault
  {
    RunKeepsInv(run, i);
    if name !in run[i].tab.pods { AbsentHasNoUsers(run[i], name); }
  }

  /** The goroutine and action that can move when some goroutine is in flight. */
  lemma SomebodyCanMove(s: State) returns (t: Tid, a: Action)
    requires Inv(s) && s.threads != map[]
    ensures !a.Call? && Enabled(s, t, a)
  {
    if s.podsLock.Some? {
      t := s.podsLock.value;
      assert InCritical(s.threads[t]);
      a := if s.threads[t].Refing? then DoRef else DoUnref;
    } else {
      t :| t in s.threads;
      if s.threads[t].Waiting? && s.tab.cells[s.threads[t].lock].lockedBy.Some? {
        t := s.tab.cells[s.threads[t].lock].lockedBy.value;
      }
      a := match s.threads[t]
        case Waiting(_, _) => LockMutex
        case Inside(_, _) => PluginReturns
        case _ => GetPodsLock;
    }
  }

  /** Steps a goroutine still has to take before its operation has returned. */
  ghost function Left(pc: PC): nat {
    match pc
    case WantRef(_) => 6 case Refing(_) => 5 case Waiting(_, _) => 4
    case Inside(_, _) => 3 case WantUnref(_, _) => 2 case Unrefing(_, _) => 1
  }

  ghost function Work(threads: map<Tid, PC>, bound: Tid): nat {
    if bound == 0 then 0
    else Work(threads, bound - 1) + if bound - 1 in threads then Left(threads[bound - 1]) else 0
  }

  lemma {:induction false} WorkChanges(threads: map<Tid, PC>, threads': map<Tid, PC>, bound: Tid, t: Tid)
    requires t in threads && forall u :: u != t ==> (u in threads <==> u in threads')
    requires forall u :: u in threads && u != t ==> threads'[u] == threads[u]
    ensures Work(threads', bound) - Work(threads, bound) ==
            if t < bound then (if t in threads' then Left(threads'[t]) else 0) - Left(threads[t]) else 0
  {
    if bound > 0 { WorkChanges(threads, threads', bound - 1, t); }
  }

  lemma TidsBounded(tids: set<Tid>) returns (bound: Tid)
    ensures forall t :: t in tids ==> t < bound
  {
    bound := 0;
    var rest := tids;
    while rest != {}
      invariant rest <= tids
      invariant forall t :: t in tids ==> t in rest || t < bound
      decreases rest
    {
      var t :| t in rest;
      rest := rest - {t};
      bound := if t < bound then bound else t + 1;
    }
  }

  /** A step of a goroutine that is already in flight. */
  ghost predicate Finishes(s: State, s': State) {
    exists t, a: Action :: !a.Call? && Enabled(s, t, a) && s' == After(s, t, a)
  }

  /** No deadlock: from every state of every run the operations in flight can all run to their
      end, and the map is then empty. */
  lemma EveryOperationCanReturn(run: seq<State>, i: nat) returns (path: seq<State>)
    requires Run(run) && i < |run|
    ensures |path| > 0 && path[0] == run[i]
    ensures forall k :: 0 <= k < |path| - 1 ==> Finishes(path[k], path[k + 1])
    ensures path[|path| - 1].threads == map[] && path[|path| - 1].tab.pods == map[]
  {
    RunKeepsInv(run, i);
    var bound := TidsBounded(run[i].threads.Keys);
    path := Drain(run[i], bound);
  }

  lemma QuietEnd(s: State)
    requires Inv(s) && s.threads == map[]
    ensures s.tab.pods == map[]
  {
  }

  lemma DrainStep(s: State, bound: Tid) returns (s': State)
    requires Inv(s) && s.threads != map[] && forall t :: t in s.threads ==> t < bound
    ensures Finishes(s, s') && Inv(s') && (forall t :: t in s'.threads ==> t < bound)
    ensures Work(s'.threads, bound) < Work(s.threads, bound)
  {
    var t, a := SomebodyCanMove(s);
    s' := After(s, t, a);
    assert Next(s, s');
    StepKeepsInv(s, s');
    WorkChanges(s.threads, s'.threads, bound, t);
  }

  lemma {:induction false} Drain(s: State, bound: Tid) returns (path: seq<State>)
    requires Inv(s) && forall t :: t in s.threads ==> t < bound
    ensures |path| > 0 && path[0] == s
    ensures forall k :: 0 <= k < |path| - 1 ==> Finishes(path[k], path[k + 1])
    ensures path[|path| - 1].threads == map[] && path[|path| - 1].tab.pods == map[]
    ensures |path| - 1 <= Work(s.threads, bound)
    decreases Work(s.threads, bound)
  {
    if s.threads == map[] {
      QuietEnd(s);
      return [s];
    }
    var s' := DrainStep(s, bound);
    var rest := Drain(s', bound);
    path := [s] + rest;
    forall k | 0 <= k < |path| - 1
      ensures Finishes(path[k], path[k + 1])
    {
      if k > 0 {
        assert path[k] == rest[k - 1] && path[k + 1] == rest[k];
      }
    }
  }

  // ---- the table as callers see it -----------------------------------------------------------------

  /** What the map shows under each name: the reference count, and whether the mutex is locked. */
  type Shown = map<string, (nat, bool)>

  ghost function Show(tab: Table): Shown
    requires forall n :: n in tab.pods ==> tab.pods[n] in tab.cells
  {
    map n | n in tab.pods :: (tab.cells[tab.pods[n]].refcount, tab.cells[tab.pods[n]].lockedBy.Some?)
  }

  ghost function ShownAfterRef(v: Shown, name: string): Shown {
    v[name := if name in v then (v[name].0 + 1, v[name].1) else (1, false)]
  }

  ghost function ShownAfterUnref(v: Shown, name: string): Shown
    requires name in v && v[name].0 > 0
  {
    if v[name].0 == 1 then v - {name} else v[name := (v[name].0 - 1, false)]
  }

  /** Lock objects are not shared between names. */
  ghost predicate Unshared(tab: Table) {
    && (forall l :: l in tab.cells ==> l < tab.next)
    && (forall n :: n in tab.pods ==> tab.pods[n] in tab.cells)
    && (forall n, m :: n in tab.pods && m in tab.pods && tab.pods[n] == tab.pods[m] ==> n == m)
  }

  lemma RefShows(tab: Table, name: string)
    requires Unshared(tab)
    ensures Unshared(Ref(tab, name).0) && Show(Ref(tab, name).0) == ShownAfterRef(Show(tab), name)
  {
  }

  lemma UnrefShows(tab: Table, name: string)
    requires Unshared(tab) && name in tab.pods && tab.cells[tab.pods[name]].refcount > 0 && Unref(tab, name).1 == Released
    ensures Unshared(Unref(tab, name).0) && Show(Unref(tab, name).0) == ShownAfterUnref(Show(tab), name)
  {
    var tab' := Unref(tab, name).0;
    assert tab'.pods == if tab.cells[tab.pods[name]].refcount == 1 then tab.pods - {name} else tab.pods;
    assert Unshared(tab');
    forall n | n in tab'.pods && n != name
      ensures tab'.cells[tab'.pods[n]] == tab.cells[tab.pods[n]]
    {
    }
    assert Show(tab').Keys == ShownAfterUnref(Show(tab), name).Keys;
  }

  /** In every run the table moves exactly as the object-level PluginManager below does. */
  lemma TableMovesLikeManager(run: seq<State>, i: nat, t: Tid)
    requires Run(run) && i < |run| && t in run[i].threads && InCritical(run[i].threads[t])
    ensures Unshared(run[i].tab)
    ensures run[i].threads[t].Refing? ==>
      Show(Ref(run[i].tab, run[i].threads[t].name).0) == ShownAfterRef(Show(run[i].tab), run[i].threads[t].name)
    ensures run[i].threads[t].Unrefing? ==>
      && run[i].threads[t].name in run[i].tab.pods && Show(run[i].tab)[run[i].threads[t].name].0 > 0
      && Show(Unref(run[i].tab, run[i].threads[t].name).0) == ShownAfterUnref(Show(run[i].tab), run[i].threads[t].name)
  {
    RunKeepsInv(run, i);
    var s := run[i];
    assert Unshared(s.tab);
    if s.threads[t].Unrefing? {
      assert Enabled(s, t, DoUnref);
      UnrefFindsItsOwnMutex(s, t);
      UnrefShows(s.tab, s.threads[t].name);
    } else {
      RefShows(s.tab, s.threads[t].name);
    }
  }

  /** A podLock object. */
  class PodLock {
    var refcount: nat
    var locked: bool

    constructor ()
      ensures refcount == 0 && !locked
    {
      refcount := 0;
      locked := false;
    }
  }

  class PluginManager {
    var pods: map<string, PodLock>

    /** No lock object stands under two names. */
    ghost predicate Valid()
      reads this
    {
      forall n, m :: n in pods && m in pods && pods[n] == pods[m] ==> n == m
    }

    ghost function View(): Shown
      reads this, pods.Values
    {
      map n | n in pods :: (pods[n].refcount, pods[n].locked)
    }

    constructor ()
      ensures Valid() && View() == map[]
    {
      pods := map[];
    }

    method Acquire(fullPodName: string) returns (lock: PodLock)
      requires Valid()
      modifies this, pods.Values
      ensures Valid() && View() == ShownAfterRef(old(View()), fullPodName)
      ensures fullPodName in pods && lock == pods[fullPodName]
      ensures fullPodName in old(pods) ==> pods == old(pods)
      ensures fullPodName !in old(pods) ==> fresh(lock) && pods == old(pods)[fullPodName := lock]
    {
      if fullPodName in pods {
        lock := pods[fullPodName];
      } else {
        lock := new PodLock();
        pods := pods[fullPodName := lock];
      }
      lock.refcount := lock.refcount + 1;
    }

    method Release(fullPodName: string) returns (r: Release)
      requires Valid()
      modifies this, pods.Values
      ensures Valid()
      ensures r == (if fullPodName !in old(pods) then Unbalanced
                    else if old(pods[fullPodName].refcount) == 0 then ZeroRefcount
                    else if !old(pods[fullPodName].locked) then UnlockOfUnlocked
                    else Released)
      ensures r == Released ==> View() == ShownAfterUnref(old(View()), fullPodName)
      ensures r == Unbalanced ==> View() == old(View())
      ensures r == ZeroRefcount ==> View() == old(View()) - {fullPodName}
    {
      if fullPodName !in pods {
        return Unbalanced;
      }
      var lock := pods[fullPodName];
      if lock.refcount == 0 {
        pods := pods - {fullPodName};
        return ZeroRefcount;
      }
      lock.refcount := lock.refcount - 1;
      if !lock.locked {
        return UnlockOfUnlocked;
      }
      lock.locked := false;
      if lock.refcount == 0 {
        pods := pods - {fullPodName};
      }
      r := Released;
    }
  }

  function BuildPodFullName(name: string, namespace: string): string {
    name + "_" + namespace
  }

  /** Two pods share a lock name exactly when they are the same pod, since pod names have no underscore. */
  lemma FullNameIdentifiesPod(name: string, namespace: string, name': string, namespace': string)
    requires '_' !in name && '_' !in name'
    ensures BuildPodFullName(name, namespace) == BuildPodFullName(name', namespace') <==>
            name == name' && namespace == namespace'
  {
    var a, b := BuildPodFullName(name, namespace), BuildPodFullName(name', namespace');
    if a == b {
      assert a[|name|] == '_' && b[|name'|] == '_';
      assert a[..|name|] == name && b[..|name|] == name';
      assert a[|name| + 1..] == namespace && b[|name| + 1..] == namespace';
    }
  }
}
