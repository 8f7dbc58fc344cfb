/** The checkpoint file store, store/filestore.go, and its key grammar, store/store.go.

    A value is written to a temporary file that is synced, closed and then renamed over the key; any
    operation of the file system may fail and the process may stop after any of them.  `WriteStates`
    lists every directory content that a stop can leave behind. */
module FileStore {
  import opened Text
  import opened StoreKeys

  type Bytes = seq<int>

  /** `durable` tells whether the content has been synced. */
  datatype File = File(content: Bytes, durable: bool)

  /** The files of the store's directory by name. */
  type Files = map<string, File>

  const TMP_PREFIX := "."

  predicate IsTemp(name: string) { HasPrefix(name, TMP_PREFIX) }

  /** What the store holds: the files that are not temporary. */
  function View(files: Files): Files {
    map n | n in files && !IsTemp(n) :: files[n]
  }

  /** How the file system behaves during one write: whether the directory exists or can be made, the
      random part of the temporary name if one can be created, how much a failing write leaves, and
      which operations succeed. */
  datatype Faults = Faults(dirOk: bool, temp: Option<string>, partial: nat, writeOk: bool, syncOk: bool,
                           closeOk: bool, renameOk: bool, removeOk: bool)

  function TempName(x: Faults): string
    requires x.temp.Some?
  {
    TMP_PREFIX + x.temp.value
  }

  /** os.CreateTemp makes a file that did not exist. */
  predicate FreshTemp(files: Files, x: Faults) {
    x.temp.Some? ==> TempName(x) !in files
  }

  function Clamp(n: nat, data: Bytes): Bytes { data[..if n <= |data| then n else |data|] }

  /** The deferred clean-up of an unsuccessful write. */
  function CleanUp(files: Files, tmp: string, x: Faults): Files {
    if x.removeOk then files - {tmp} else files
  }

  /** The directory after each file-system operation of Write, and whether Write returns nil. */
  function WriteStates(files: Files, key: string, data: Bytes, x: Faults): (seq<Files>, bool) {
    if !ValidKey(key) || !x.dirOk || x.temp.None? then ([], false)
    else
      var tmp := TempName(x);
      var made := files[tmp := File([], false)];
      var part := files[tmp := File(Clamp(x.partial, data), false)];
      var full := files[tmp := File(data, false)];
      var synced := files[tmp := File(data, true)];
      if !x.writeOk then ([made, part, CleanUp(part, tmp, x)], false)
      else if !x.syncOk then ([made, part, full, CleanUp(full, tmp, x)], false)
      else if !x.closeOk || !x.renameOk then ([made, part, full, synced, CleanUp(synced, tmp, x)], false)
      else ([made, part, full, synced, (synced - {tmp})[key := synced[tmp]]], true)
  }

  // ---- success of Write ------------------------------------------------------------------------------------

  /** The key is valid and every operation of the file system succeeds, down to the rename. */
  predicate NoFault(key: string, x: Faults) {
    ValidKey(key) && x.dirOk && x.temp.Some? && x.writeOk && x.syncOk && x.closeOk && x.renameOk
  }

  /** Write returns nil exactly if nothing it needs fails.  A failed write leaves its temporary file exactly
      if it made one and could not remove it; besides that file and the key no name is touched. */
  lemma WriteSucceedsIff(files: Files, key: string, data: Bytes, x: Faults)
    requires FreshTemp(files, x)
    ensures WriteStates(files, key, data, x).1 <==> NoFault(key, x)
    ensures x.temp.Some? ==> (TempName(x) in AfterWrite(files, key, data, x) <==>
              ValidKey(key) && x.dirOk && !NoFault(key, x) && !x.removeOk)
    ensures var end := AfterWrite(files, key, data, x);
      && (NoFault(key, x) ==> key in end && end[key] == File(data, true))
      && forall n :: !(x.temp.Some? && n == TempName(x)) && !(NoFault(key, x) && n == key) ==>
           (n in end <==> n in files) && (n in files ==> end[n] == files[n])
  {
    if NoFault(key, x) {
      TempNameIsTemp(x);
      ValidKeyIsNotTemp(key);
    }
  }

  // ---- atomicity of Write ---------------------------------------------------------------------------------

  ghost predicate OldOrNew(now: Files, before: Files, key: string, data: Bytes) {
    View(now) == View(before) || View(now) == View(before)[key := File(data, true)]
  }

  lemma TempIsInvisible(files: Files, tmp: string, f: File)
    requires IsTemp(tmp) && tmp !in files
    ensures View(files[tmp := f]) == View(files) && View(files[tmp := f] - {tmp}) == View(files)
  {
  }

  lemma KeyIsVisible(files: Files, tmp: string, key: string, f: File)
    requires IsTemp(tmp) && tmp !in files && !IsTemp(key)
    ensures View((files[tmp := f] - {tmp})[key := f]) == View(files)[key := f]
  {
  }

  lemma TempNameIsTemp(x: Faults)
    requires x.temp.Some?
    ensures IsTemp(TempName(x))
  {
  }

  /** Whatever fails and wherever the process stops, what is read is the old content of the store or
      the old content with the whole new, synced value under the key; an error return means old and a
      nil return means new.  No other key is ever affected. */
  lemma WriteIsAtomic(files: Files, key: string, data: Bytes, x: Faults)
    requires FreshTemp(files, x)
    ensures forall i :: 0 <= i < |WriteStates(files, key, data, x).0| ==>
              OldOrNew(WriteStates(files, key, data, x).0[i], files, key, data)
    ensures var end := AfterWrite(files, key, data, x);
      if WriteStates(files, key, data, x).1 then ValidKey(key) && View(end) == View(files)[key := File(data, true)]
      else View(end) == View(files)
  {
    if ValidKey(key) && x.dirOk && x.temp.Some? {
      var tmp := TempName(x);
      TempNameIsTemp(x);
      ValidKeyIsNotTemp(key);
      TempIsInvisible(files, tmp, File([], false));
      TempIsInvisible(files, tmp, File(Clamp(x.partial, data), false));
      TempIsInvisible(files, tmp, File(data, false));
      TempIsInvisible(files, tmp, File(data, true));
      KeyIsVisible(files, tmp, key, File(data, true));
    }
  }

  function AfterWrite(files: Files, key: string, data: Bytes, x: Faults): Files {
    var states := WriteStates(files, key, data, x).0;
    if states == [] then files else states[|states| - 1]
  }

  // ---- runs, with stops --------------------------------------------------------------------------------------

  /** `stop` is the number of file-system operations after which the process stops, if it does; it may
      stop after the last of them and before the call returns. */
  datatype Op =
    | WriteOp(key: string, data: Bytes, faults: Faults, stop: Option<nat>)
    | DeleteOp(key: string, removeOk: bool, stop: Option<nat>)

  /** removePath: a missing file is no error.  `removeOk` is false for every other error. */
  function AfterDelete(files: Files, key: string, removeOk: bool): (Files, bool) {
    if !ValidKey(key) then (files, false)
    else if removeOk then (files - {key}, true)
    else (files, false)
  }

  /** The directory after each file-system operation, and what the call returns if it does. */
  function States(files: Files, op: Op): (seq<Files>, bool) {
    match op
    case WriteOp(key, data, x, _) => WriteStates(files, key, data, x)
    case DeleteOp(key, removeOk, _) =>
      var (after, ok) := AfterDelete(files, key, removeOk);
      (if ValidKey(key) then [after] else [], ok)
  }

  function AfterOp(files: Files, op: Op): Files {
    var states := States(files, op).0;
    var done := if op.stop.Some? && op.stop.value < |states| then op.stop.value else |states|;
    if done == 0 then files else states[done - 1]
  }

  /** What the caller is told: nothing if the process stopped. */
  function Answer(files: Files, op: Op): Option<bool> {
    var (states, ok) := States(files, op);
    if op.stop.Some? && op.stop.value <= |states| then None else Some(ok)
  }

  function FilesAfter(ops: seq<Op>): Files {
    if ops == [] then map[] else AfterOp(FilesAfter(ops[..|ops| - 1]), ops[|ops| - 1])
  }

  ghost predicate TempsFresh(ops: seq<Op>) {
    forall n :: 0 <= n < |ops| && ops[n].WriteOp? ==> FreshTemp(FilesAfter(ops[..n]), ops[n].faults)
  }

  /** What an operation did to the contents of the store. */
  datatype Effect = Wrote(key: string, data: Bytes) | Deleted(key: string) | NoEffect

  ghost function Apply(v: Files, e: Effect): Files {
    match e
    case Wrote(key, data) => v[key := File(data, true)]
    case Deleted(key) => v - {key}
    case NoEffect => v
  }

  function Intended(op: Op): Effect {
    match op
    case WriteOp(key, data, _, _) => Wrote(key, data)
    case DeleteOp(key, _, _) => Deleted(key)
  }

  /** The last operation, a rename or a removal, is the one that counts. */
  function EffectOf(files: Files, op: Op): Effect {
    var (states, ok) := States(files, op);
    if ok && !(op.stop.Some? && op.stop.value < |states|) then Intended(op) else NoEffect
  }

  /** Every operation, stopped or not, has its intended effect or none.  A nil answer means the effect, an
      error means none, and without an answer it is one or the other. */
  lemma OpHasItsEffect(files: Files, op: Op)
    requires op.WriteOp? ==> FreshTemp(files, op.faults)
    ensures View(AfterOp(files, op)) == Apply(View(files), EffectOf(files, op))
    ensures EffectOf(files, op) == NoEffect || (EffectOf(files, op) == Intended(op) && ValidKey(op.key))
    ensures Answer(files, op).Some? ==> (Answer(files, op).value <==> EffectOf(files, op) != NoEffect)
  {
    match op
    case DeleteOp(key, removeOk, _) =>
      if ValidKey(key) {
        ValidKeyIsNotTemp(key);
        assert View(files - {key}) == View(files) - {key};
      }
    case WriteOp(key, data, x, _) =>
      WriteIsAtomic(files, key, data, x);
      StatesBeforeRename(files, key, data, x);
  }

  lemma StatesBeforeRename(files: Files, key: string, data: Bytes, x: Faults)
    requires FreshTemp(files, x)
    ensures var states := WriteStates(files, key, data, x).0;
      forall i :: 0 <= i < |states| - 1 ==> View(states[i]) == View(files)
  {
  }

  ghost predicate Writes(ops: seq<Op>, j: nat, key: string, data: Bytes)
    requires j < |ops|
  {
    EffectOf(FilesAfter(ops[..j]), ops[j]) == Wrote(key, data)
  }

  ghost predicate Changes(ops: seq<Op>, j: nat, key: string)
    requires j < |ops|
  {
    var e := EffectOf(FilesAfter(ops[..j]), ops[j]);
    e != NoEffect && e.key == key
  }

  /** The write at `j` put `data` under `key` and nothing has changed that key since. */
  ghost predicate Stands(ops: seq<Op>, j: nat, key: string, data: Bytes)
    requires j < |ops|
  {
    Writes(ops, j, key, data) && forall k :: j < k < |ops| ==> !Changes(ops, k, key)
  }

  /** The key is held, with its value, as the standing writes say. */
  ghost predicate AsWritten(ops: seq<Op>, key: string) {
    && (key in View(FilesAfter(ops)) <==> exists j, data :: 0 <= j < |ops| && Stands(ops, j, key, data))
    && (forall j, data :: 0 <= j < |ops| && Stands(ops, j, key, data) ==>
          key in View(FilesAfter(ops)) && View(FilesAfter(ops))[key] == File(data, true))
    && (key in View(FilesAfter(ops)) ==> ValidKey(key))
  }

  /** The last operation concerns the key. */
  lemma LastChanges(ops: seq<Op>, key: string)
    requires ops != [] && Changes(ops, |ops| - 1, key) && StepsView(ops)
    ensures AsWritten(ops, key)
  {
    var n := |ops| - 1;
    var e := EffectOf(FilesAfter(ops[..n]), ops[n]);
    StandsStep(ops, key);
    if e.Wrote? {
      assert Stands(ops, n, key, e.data);
    }
  }

  /** The last operation does not concern the key. */
  lemma LastLeaves(ops: seq<Op>, key: string)
    requires ops != [] && !Changes(ops, |ops| - 1, key) && StepsView(ops) && AsWritten(ops[..|ops| - 1], key)
    ensures AsWritten(ops, key)
  {
    var n := |ops| - 1;
    StandsStep(ops, key);
    assert key in View(FilesAfter(ops)) <==> key in View(FilesAfter(ops[..n]));
    if key in View(FilesAfter(ops)) {
      var j, data :| 0 <= j < |ops[..n]| && Stands(ops[..n], j, key, data);
      assert Stands(ops, j, key, data);
    }
  }

  ghost predicate StepsView(ops: seq<Op>)
    requires ops != []
  {
    var files := FilesAfter(ops[..|ops| - 1]);
    var e := EffectOf(files, ops[|ops| - 1]);
    View(FilesAfter(ops)) == Apply(View(files), e) && (e == NoEffect || ValidKey(e.key))
  }

  /** The store holds a key exactly if some write of it took effect and nothing changed it since, and
      then it holds that write's value, synced. */
  lemma {:induction false} HoldsLastWritten(ops: seq<Op>, key: string)
    requires TempsFresh(ops)
    ensures AsWritten(ops, key)
    decreases |ops|
  {
    if ops == [] {
      NothingWritten(key);
    } else {
      TempsFreshBefore(ops);
      HoldsLastWritten(ops[..|ops| - 1], key);
      LastStep(ops, key);
    }
  }

  lemma NothingWritten(key: string)
    ensures AsWritten([], key)
  {
  }

  lemma LastStep(ops: seq<Op>, key: string)
    requires ops != [] && AsWritten(ops[..|ops| - 1], key)
    requires ops[|ops| - 1].WriteOp? ==> FreshTemp(FilesAfter(ops[..|ops| - 1]), ops[|ops| - 1].faults)
    ensures AsWritten(ops, key)
  {
    OpHasItsEffect(FilesAfter(ops[..|ops| - 1]), ops[|ops| - 1]);
    if Changes(ops, |ops| - 1, key) {
      LastChanges(ops, key);
    } else {
      LastLeaves(ops, key);
    }
  }

  lemma TempsFreshBefore(ops: seq<Op>)
    requires TempsFresh(ops) && ops != []
    ensures TempsFresh(ops[..|ops| - 1])
    ensures ops[|ops| - 1].WriteOp? ==> FreshTemp(FilesAfter(ops[..|ops| - 1]), ops[|ops| - 1].faults)
  {
    assert forall i :: 0 <= i < |ops| ==> ops[..|ops| - 1][..i] == ops[..i];
  }

  lemma PrefixSame(ops: seq<Op>, n: nat, j: nat, key: string)
    requires j < n <= |ops|
    ensures Changes(ops, j, key) == Changes(ops[..n], j, key)
    ensures forall data :: Writes(ops, j, key, data) == Writes(ops[..n], j, key, data)
  {
    assert ops[..n][..j] == ops[..j] && ops[..n][j] == ops[j];
  }

  lemma StandsAt(ops: seq<Op>, j: nat, key: string, data: Bytes)
    requires j < |ops| - 1
    ensures var n := |ops| - 1; Stands(ops, j, key, data) <==> Stands(ops[..n], j, key, data) && !Changes(ops, n, key)
  {
    var n := |ops| - 1;
    forall k | j <= k < n
      ensures Changes(ops, k, key) == Changes(ops[..n], k, key)
    {
      PrefixSame(ops, n, k, key);
    }
    PrefixSame(ops, n, j, key);
  }

  /** `Stands` moves with the last operation. */
  lemma StandsStep(ops: seq<Op>, key: string)
    requires ops != []
    ensures var n := |ops| - 1;
      forall j, data :: 0 <= j < |ops| ==>
        (Stands(ops, j, key, data) <==>
         if j == n then Writes(ops, n, key, data) else Stands(ops[..n], j, key, data) && !Changes(ops, n, key))
  {
    forall j, data | 0 <= j < |ops| - 1
      ensures Stands(ops, j, key, data) <==> Stands(ops[..|ops| - 1], j, key, data) && !Changes(ops, |ops| - 1, key)
    {
      StandsAt(ops, j, key, data);
    }
  }

  // ---- what is read, by the operations alone -----------------------------------------------------------------

  /** WriteOp does five operations on the directory if none fails, and DeleteOp one. */
  function Steps(op: Op): nat { if op.WriteOp? then 5 else 1 }

  /** The operation has a valid key, meets no fault and is not stopped before its last step. */
  predicate TakesEffect(op: Op) {
    && (if op.WriteOp? then NoFault(op.key, op.faults) else ValidKey(op.key) && op.removeOk)
    && (op.stop.Some? ==> op.stop.value >= Steps(op))
  }

  lemma EffectIff(files: Files, op: Op)
    requires op.WriteOp? ==> FreshTemp(files, op.faults)
    ensures EffectOf(files, op) == if TakesEffect(op) then Intended(op) else NoEffect
    ensures Answer(files, op) == Some(true) <==> TakesEffect(op) && !(op.stop.Some? && op.stop.value == Steps(op))
  {
    if op.WriteOp? { WriteSucceedsIff(files, op.key, op.data, op.faults); }
  }

  /** The operation at `j` is the last on the key that took effect. */
  ghost predicate Latest(ops: seq<Op>, j: nat, key: string) {
    && j < |ops| && ops[j].key == key && TakesEffect(ops[j])
    && forall k :: j < k < |ops| && ops[k].key == key ==> !TakesEffect(ops[k])
  }

  lemma EffectInRun(ops: seq<Op>, j: nat)
    requires TempsFresh(ops) && j < |ops|
    ensures EffectOf(FilesAfter(ops[..j]), ops[j]) == if TakesEffect(ops[j]) then Intended(ops[j]) else NoEffect
  {
    EffectIff(FilesAfter(ops[..j]), ops[j]);
  }

  lemma StandsIsLatest(ops: seq<Op>, j: nat, key: string, data: Bytes)
    requires TempsFresh(ops) && j < |ops|
    ensures Stands(ops, j, key, data) <==> Latest(ops, j, key) && ops[j].WriteOp? && ops[j].data == data
  {
    EffectInRun(ops, j);
    forall k | j < k < |ops| ensures Changes(ops, k, key) <==> ops[k].key == key && TakesEffect(ops[k]) {
      EffectInRun(ops, k);
    }
  }

  /** Which keys the store holds and with which values, on every run with faults and stops: those whose last
      operation that took effect is a Write, with its data. */
  lemma HoldsIff(ops: seq<Op>, key: string)
    requires TempsFresh(ops)
    ensures key in View(FilesAfter(ops)) <==> exists j: nat :: Latest(ops, j, key) && ops[j].WriteOp?
    ensures forall j: nat :: Latest(ops, j, key) && ops[j].WriteOp? ==>
              key in View(FilesAfter(ops)) && View(FilesAfter(ops))[key] == File(ops[j].data, true)
  {
    HoldsLastWritten(ops, key);
    if key in View(FilesAfter(ops)) {
      var j, data :| 0 <= j < |ops| && Stands(ops, j, key, data);
      StandsIsLatest(ops, j, key, data);
    }
    forall j: nat | Latest(ops, j, key) && ops[j].WriteOp? ensures Stands(ops, j, key, ops[j].data) {
      StandsIsLatest(ops, j, key, ops[j].data);
    }
  }

  function ReadFrom(files: Files, key: string, readOk: bool): ReadResult {
    if !ValidKey(key) then InvalidKey
    else if !readOk then ReadFailed
    else if key !in files then KeyNotFound
    else Value(files[key].content)
  }

  /** On every run a Read that does not fail gives the data of the last Write that took effect, unless a
      Delete took effect since. */
  lemma ReadGivesLastWritten(ops: seq<Op>, key: string, data: Bytes)
    requires TempsFresh(ops)
    ensures ReadFrom(FilesAfter(ops), key, true) == Value(data) <==>
            exists j: nat :: Latest(ops, j, key) && ops[j].WriteOp? && ops[j].data == data
    ensures ReadFrom(FilesAfter(ops), key, true) == KeyNotFound <==>
            ValidKey(key) && forall j: nat :: Latest(ops, j, key) ==> ops[j].DeleteOp?
  {
    HoldsIff(ops, key);
    if ValidKey(key) { ValidKeyIsNotTemp(key); }
  }

  datatype ReadResult = InvalidKey | KeyNotFound | ReadFailed | Value(content: Bytes)

  /** The store over its directory; `history` records the directory after each file-system operation. */
  class DiskStore {
    var files: Files
    ghost var history: seq<Files>

    constructor ()
      ensures files == map[] && history == []
    {
      files, history := map[], [];
    }

    method Put(name: string, f: File)
      modifies this
      ensures files == old(files)[name := f] && history == old(history) + [files]
    {
      files := files[name := f];
      history := history + [files];
    }

    /** The deferred function: it runs after an error, closes the temporary file if that is still open
        and removes it.  The error of either is folded into the one being returned. */
    method Abandon(tmp: string, x: Faults)
      modifies this
      ensures files == CleanUp(old(files), tmp, x) && history == old(history) + [files]
    {
      if x.removeOk { files := files - {tmp}; }
      history := history + [files];
    }

    /** Every directory content on the way holds the old store or the old store with the whole value
        under the key; the result tells which one remains. */
    method Write(key: string, data: Bytes, x: Faults) returns (ok: bool)
      requires FreshTemp(files, x)
      modifies this
      ensures history == old(history) + WriteStates(old(files), key, data, x).0
      ensures files == AfterWrite(old(files), key, data, x)
      ensures ok == WriteStates(old(files), key, data, x).1
      ensures forall i :: |old(history)| <= i < |history| ==> OldOrNew(history[i], old(files), key, data)
      ensures View(files) == if ok then View(old(files))[key := File(data, true)] else View(old(files))
      ensures ok <==> NoFault(key, x)
    {
      WriteIsAtomic(files, key, data, x);
      WriteSucceedsIff(files, key, data, x);
      ok := WriteFile(key, data, x);
    }

    method WriteFile(key: string, data: Bytes, x: Faults) returns (ok: bool)
      requires FreshTemp(files, x)
      modifies this
      ensures history == old(history) + WriteStates(old(files), key, data, x).0
      ensures files == AfterWrite(old(files), key, data, x)
      ensures ok == WriteStates(old(files), key, data, x).1
      ensures ok <==> NoFault(key, x)
    {
      if !ValidKey(key) { return false; }
      if !x.dirOk { return false; }
      if x.temp.None? { return false; }
      var tmp := TempName(x);
      Put(tmp, File([], false));
      Put(tmp, File(Clamp(x.partial, data), false));
      assert files == old(files)[tmp := File(Clamp(x.partial, data), false)];
      if !x.writeOk {
        Abandon(tmp, x);
        return false;
      }
      Put(tmp, File(data, false));
      assert files == old(files)[tmp := File(data, false)];
      if !x.syncOk {
        Abandon(tmp, x);
        return false;
      }
      assert files[tmp := File(data, true)] == old(files)[tmp := File(data, true)];
      ok := Finish(tmp, key, data, x);
    }

    /** The synced file is closed and renamed. */
    method Finish(tmp: string, key: string, data: Bytes, x: Faults) returns (ok: bool)
      requires tmp in files && files[tmp] == File(data, false)
      modifies this
      ensures ok == (x.closeOk && x.renameOk)
      ensures var synced := old(files)[tmp := File(data, true)];
        && files == (if ok then (synced - {tmp})[key := synced[tmp]] else CleanUp(synced, tmp, x))
        && history == old(history) + [synced, files]
    {
      Put(tmp, File(data, true));
      if !x.closeOk {
        Abandon(tmp, x);
        return false;
      }
      if !x.renameOk {
        Abandon(tmp, x);
        return false;
      }
      files := (files - {tmp})[key := files[tmp]];
      history := history + [files];
      return true;
    }

    /** What a successful write of the key left is what is read; a missing key has its own error.  `readOk`
        is false for every other error. */
    method Read(key: string, readOk: bool) returns (r: ReadResult)
      ensures r == InvalidKey <==> !ValidKey(key)
      ensures ValidKey(key) ==> (r == ReadFailed <==> !readOk)
      ensures r == ReadFrom(files, key, readOk)
      ensures ValidKey(key) && readOk ==> r == if key in View(files) then Value(View(files)[key].content) else KeyNotFound
    {
      if !ValidKey(key) { return InvalidKey; }
      ValidKeyIsNotTemp(key);
      if !readOk { return ReadFailed; }
      if key !in files { return KeyNotFound; }
      return Value(files[key].content);
    }

    method Delete(key: string, removeOk: bool) returns (ok: bool)
      modifies this
      ensures (files, ok) == AfterDelete(old(files), key, removeOk)
      ensures ok <==> ValidKey(key) && removeOk
      ensures View(files) == if ok then View(old(files)) - {key} else View(old(files))
      ensures history == old(history) + if ValidKey(key) then [files] else []
    {
      OpHasItsEffect(files, DeleteOp(key, removeOk, None));
      if !ValidKey(key) { return false; }
      ok := removeOk;
      if removeOk { files := files - {key}; }
      history := history + [files];
    }

    /** `names` is the directory in the order in which it is read, if it can be read. */
    method List(names: seq<string>, readOk: bool) returns (keys: seq<string>, ok: bool)
      requires forall n :: n in names <==> n in files
      requires forall i, j :: 0 <= i < j < |names| ==> names[i] != names[j]
      ensures ok == readOk && (!ok ==> keys == [])
      ensures ok ==> forall k :: k in keys <==> k in View(files)
      ensures forall i, j :: 0 <= i < j < |keys| ==> keys[i] != keys[j]
    {
      keys, ok := [], readOk;
      if !readOk { return; }
      for i := 0 to |names|
        invariant forall k :: k in keys <==> k in names[..i] && !IsTemp(k)
        invariant forall a, b :: 0 <= a < b < |keys| ==> keys[a] != keys[b]
      {
        assert names[..i + 1] == names[..i] + [names[i]];
        if !IsTemp(names[i]) {
          assert names[i] !in names[..i];
          keys := keys + [names[i]];
        }
      }
      assert names[..|names|] == names;
    }
  }
}

/** The key grammar: the regular expression of store/store.go and what it accepts. */
module StoreKeys {
  import opened Text

  const KEY_MAX_LENGTH := 250

  predicate KeyChar(c: char) { 'A' <= c <= 'Z' || 'a' <= c <= 'z' || '0' <= c <= '9' }
  predicate KeyExtChar(c: char) { KeyChar(c) || c == '-' || c == '_' || c == '.' }

  /** ValidateKey returns nil. */
  predicate ValidKey(key: string) {
    && 0 < |key| <= KEY_MAX_LENGTH && KeyChar(key[0]) && KeyChar(key[|key| - 1])
    && forall i :: 0 <= i < |key| ==> KeyExtChar(key[i])
  }

  datatype Regex = Class(chars: char -> bool) | Cat(left: Regex, right: Regex) | Opt(inner: Regex) | Star(inner: Regex)

  ghost predicate Matches(r: Regex, s: string)
    decreases r, |s|
  {
    match r
    case Class(chars) => |s| == 1 && chars(s[0])
    case Cat(left, right) => exists i :: 0 <= i <= |s| && Matches(left, s[..i]) && Matches(right, s[i..])
    case Opt(inner) => s == "" || Matches(inner, s)
    case Star(inner) => s == "" || exists i :: 0 < i <= |s| && Matches(inner, s[..i]) && Matches(r, s[i..])
  }

  /** ^([A-Za-z0-9][-A-Za-z0-9_.]*)?[A-Za-z0-9]$ */
  ghost function KeyRegex(): Regex {
    Cat(Opt(BodyRegex()), Class(KeyChar))
  }

  lemma {:induction false} StarOfClass(chars: char -> bool, s: string)
    ensures Matches(Star(Class(chars)), s) <==> forall i :: 0 <= i < |s| ==> chars(s[i])
    decreases |s|
  {
    if s != "" {
      StarOfClass(chars, s[1..]);
      if Matches(Star(Class(chars)), s) {
        var i :| 0 < i <= |s| && Matches(Class(chars), s[..i]) && Matches(Star(Class(chars)), s[i..]);
        assert s[i..] == s[1..];
        assert forall k :: 0 < k < |s| ==> s[k] == s[1..][k - 1];
      }
      if forall i :: 0 <= i < |s| ==> chars(s[i]) {
        assert Matches(Class(chars), s[..1]) && Matches(Star(Class(chars)), s[1..]);
      }
    }
  }

  ghost function BodyRegex(): Regex { Cat(Class(KeyChar), Star(Class(KeyExtChar))) }

  ghost predicate Body(p: string) {
    p != "" && KeyChar(p[0]) && forall i :: 1 <= i < |p| ==> KeyExtChar(p[i])
  }

  lemma BodyMatches(p: string)
    ensures Matches(BodyRegex(), p) <==> Body(p)
  {
    if p != "" {
      StarOfClass(KeyExtChar, p[1..]);
      assert forall k :: 1 <= k < |p| ==> p[k] == p[1..][k - 1];
    }
    if Matches(BodyRegex(), p) {
      var i :| 0 <= i <= |p| && Matches(Class(KeyChar), p[..i]) && Matches(Star(Class(KeyExtChar)), p[i..]);
      assert |p[..i]| == 1;
    }
    if Body(p) {
      assert Matches(Class(KeyChar), p[..1]) && Matches(Star(Class(KeyExtChar)), p[1..]);
    }
  }

  ghost predicate Shape(key: string) {
    key != "" && KeyChar(key[|key| - 1]) && (key[..|key| - 1] == "" || Body(key[..|key| - 1]))
  }

  lemma KeyMatches(key: string)
    ensures Matches(KeyRegex(), key) <==> Shape(key)
  {
    var front := Opt(BodyRegex());
    if key != "" {
      BodyMatches(key[..|key| - 1]);
    }
    if Shape(key) {
      var n := |key| - 1;
      assert Matches(front, key[..n]) && Matches(Class(KeyChar), key[n..]);
    }
    if Matches(KeyRegex(), key) {
      var n :| 0 <= n <= |key| && Matches(front, key[..n]) && Matches(Class(KeyChar), key[n..]);
      assert |key[n..]| == 1 && key[n..][0] == key[n];
    }
  }

  /** ValidateKey accepts exactly the texts of at most 250 characters that the expression matches. */
  lemma ValidKeyIsTheGrammar(key: string)
    ensures ValidKey(key) <==> |key| <= KEY_MAX_LENGTH && Matches(KeyRegex(), key)
  {
    KeyMatches(key);
    if key != "" {
      var p := key[..|key| - 1];
      assert forall i :: 0 <= i < |p| ==> p[i] == key[i];
    }
  }

  /** No key begins with the prefix of temporary files, and none leaves the directory. */
  lemma ValidKeyIsNotTemp(key: string)
    requires ValidKey(key)
    ensures !HasPrefix(key, ".") && '/' !in key
  {
  }
}
