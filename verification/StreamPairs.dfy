/** Port-forward stream pairing, streaming/portforward/httpstream.go.

    One loop takes admitted streams from a channel, finds or makes the pair of the stream's
    request id and adds the stream to it; a monitor goroutine per pair waits for the pair to be
    complete or for a timeout and then deletes the request id, not the pair, from the map.  The
    model interleaves admission, the loop and all monitors one atomic section at a time. */
module StreamPairs {
  import opened Text

  const TYPE_ERROR := "error"
  const TYPE_DATA := "data"
  const MAX_PORT := 65535

  type PairId = nat

  /** A stream: `uid` tells stream objects apart, the strings are its headers, `ident` its SPDY id. */
  datatype Stream = Stream(uid: nat, requestHeader: string, streamType: string, port: string, ident: nat)

  /** An httpStreamPair; `closed` is the state of its `complete` channel. */
  datatype Pair = Pair(requestID: string, data: Option<Stream>, error: Option<Stream>, closed: bool)

  datatype Added = Complete | Incomplete | AlreadyAssigned | CloseOfClosed

  // ---- the pieces of the code ----------------------------------------------------------------------

  predicate KnownType(t: string) { t == TYPE_ERROR || t == TYPE_DATA }

  /** httpStreamReceived sends the stream on exactly when its port and type headers are valid. */
  predicate Admissible(stream: Stream) {
    var port := ParseUint(stream.port, MAX_PORT);
    port.Some? && port.value >= 1 && KnownType(stream.streamType)
  }

  /** Admission, by the number its port header is the decimal text of: every port from 1 to 65535 and both types are
      let in, and nothing else. */
  lemma AdmissibleIff(stream: Stream, n: nat)
    requires stream.port == Decimal(n)
    ensures Admissible(stream) <==> 1 <= n <= 65535 && (stream.streamType == "error" || stream.streamType == "data")
  {
    ParseDecimal(n, MAX_PORT);
  }

  /** requestID: the header, or a number derived from the stream id for clients that send none. */
  function RequestID(stream: Stream): string {
    if stream.requestHeader != "" then stream.requestHeader
    else if stream.streamType == TYPE_ERROR then Itoa(stream.ident)
    else if stream.streamType == TYPE_DATA then Itoa(stream.ident - 2)
    else ""
  }

  /** httpStreamPair.add. */
  function AddStream(p: Pair, stream: Stream): (Pair, Added) {
    if stream.streamType == TYPE_ERROR && p.error.Some? then (p, AlreadyAssigned)
    else if stream.streamType == TYPE_DATA && p.data.Some? then (p, AlreadyAssigned)
    else
      var q := if stream.streamType == TYPE_ERROR then p.(error := Some(stream))
               else if stream.streamType == TYPE_DATA then p.(data := Some(stream)) else p;
      if q.error.None? || q.data.None? then (q, Incomplete)
      else if q.closed then (q, CloseOfClosed)
      else (q.(closed := true), Complete)
  }

  /** A pair whose channel is closed exactly when both streams are set panics in `add` exactly when
      it is complete and the stream has a type that admission refuses. */
  lemma AddPanicsIff(p: Pair, stream: Stream)
    requires p.closed <==> p.data.Some? && p.error.Some?
    ensures AddStream(p, stream).1 == CloseOfClosed <==> p.closed && !KnownType(stream.streamType)
  {
  }

  /** The slot for streams of type `t`, and the other one. */
  ghost function Slot(p: Pair, t: string): Option<Stream> { if t == TYPE_DATA then p.data else p.error }
  ghost function OtherSlot(p: Pair, t: string): Option<Stream> { if t == TYPE_DATA then p.error else p.data }

  /** What becomes of a pair `p` to which a stream of a known type is added: the stream is turned away
      exactly if its own slot is taken; otherwise it takes that slot, nothing else moves, and the pair is
      complete exactly if the other slot was set. */
  ghost predicate Accepts(p: Pair, stream: Stream, q: Pair, added: Added) {
    var t := stream.streamType;
    && (added == AlreadyAssigned <==> Slot(p, t).Some?)
    && (Slot(p, t).Some? ==> q == p)
    && (Slot(p, t).None? ==>
          && Slot(q, t) == Some(stream) && OtherSlot(q, t) == OtherSlot(p, t) && q.requestID == p.requestID
          && (added == Complete <==> OtherSlot(p, t).Some?) && (added == Incomplete <==> OtherSlot(p, t).None?)
          && (q.closed <==> added == Complete))
  }

  lemma AddAccepts(p: Pair, stream: Stream)
    requires (p.closed <==> p.data.Some? && p.error.Some?) && KnownType(stream.streamType)
    ensures Accepts(p, stream, AddStream(p, stream).0, AddStream(p, stream).1)
  {
  }

  /** An error stream and a data stream belong together exactly if their headers are equal, for clients that
      send them; a derived id is the decimal number of the error stream. */
  lemma PairedIff(e: Stream, d: Stream)
    requires e.streamType == TYPE_ERROR && d.streamType == TYPE_DATA
    ensures RequestID(e) == RequestID(d) <==>
      if e.requestHeader == "" && d.requestHeader == "" then d.ident == e.ident + 2
      else if e.requestHeader == "" then d.requestHeader == Itoa(e.ident)
      else if d.requestHeader == "" then e.requestHeader == Itoa(d.ident - 2)
      else e.requestHeader == d.requestHeader
  {
    ItoaInjective(e.ident, d.ident - 2);
  }

  // ---- goroutines and their steps --------------------------------------------------------------------

  datatype Loop =
    | Selecting
    | Received(stream: Stream)
    | Found(stream: Stream, pair: PairId, created: bool)   // after getStreamPair
    | Adding(stream: Stream, pair: PairId)                 // the monitor, if any, has been started
    | Starting(pair: PairId)                               // add returned complete
    | Stopped                                              // the connection was closed

  datatype Monitor = Watching | Removing

  /** The last four fields are history: stream objects seen, the pair each was added to, the pairs
      portForward was started for, and for each removal the monitor's pair and the pair it hit. */
  datatype State = State(
    chan: Option<Stream>, loop: Loop, table: map<string, PairId>, pairs: map<PairId, Pair>, next: PairId,
    monitors: map<PairId, Monitor>, panicked: bool,
    seen: set<nat>, home: map<nat, PairId>, started: seq<PairId>, removed: seq<(PairId, Option<PairId>)>)

  datatype Action =
    | Admit(stream: Stream) | Receive | LookUp | Spawn | Add | Start | CloseConnection
    | TimeOut(pair: PairId) | SeeComplete(pair: PairId) | Remove(pair: PairId)

  ghost predicate Initial(s: State) {
    s == State(None, Selecting, map[], map[], 0, map[], false, {}, map[], [], [])
  }

  ghost predicate Enabled(s: State, a: Action) {
    && !s.panicked
    && match a
       case Admit(stream) => Admissible(stream) && stream.uid !in s.seen && s.chan.None?
       case Receive => s.loop.Selecting? && s.chan.Some?
       case LookUp => s.loop.Received?
       case Spawn => s.loop.Found?
       case Add => s.loop.Adding? && s.loop.pair in s.pairs
       case Start => s.loop.Starting?
       case CloseConnection => s.loop.Selecting?
       case TimeOut(p) => p in s.monitors && s.monitors[p].Watching?
       case SeeComplete(p) => p in s.monitors && s.monitors[p].Watching? && p in s.pairs && s.pairs[p].closed
       case Remove(p) => p in s.monitors && s.monitors[p].Removing? && p in s.pairs
  }

  /** getStreamPair. */
  ghost function AfterLookUp(s: State, stream: Stream): State {
    var id := RequestID(stream);
    if id in s.table then s.(loop := Found(stream, s.table[id], false))
    else s.(loop := Found(stream, s.next, true), table := s.table[id := s.next],
            pairs := s.pairs[s.next := Pair(id, None, None, false)], next := s.next + 1)
  }

  ghost function AfterAdd(s: State, stream: Stream, p: PairId): State
    requires p in s.pairs
  {
    var (pair, added) := AddStream(s.pairs[p], stream);
    s.(pairs := s.pairs[p := pair],
       loop := if added == Complete then Starting(p) else Selecting,
       home := if added == AlreadyAssigned then s.home else s.home[stream.uid := p],
       panicked := added == CloseOfClosed)
  }

  /** removeStreamPair, by request id. */
  ghost function AfterRemove(s: State, p: PairId): State
    requires p in s.pairs
  {
    var id := s.pairs[p].requestID;
    s.(table := s.table - {id}, monitors := s.monitors - {p},
       removed := s.removed + [(p, if id in s.table then Some(s.table[id]) else None)])
  }

  ghost function After(s: State, a: Action): State
    requires Enabled(s, a)
  {
    match a
    case Admit(stream) => s.(chan := Some(stream), seen := s.seen + {stream.uid})
    case Receive => s.(chan := None, loop := Received(s.chan.value))
    case LookUp => AfterLookUp(s, s.loop.stream)
    case Spawn =>
      s.(loop := Adding(s.loop.stream, s.loop.pair),
         monitors := if s.loop.created then s.monitors[s.loop.pair := Watching] else s.monitors)
    case Add => AfterAdd(s, s.loop.stream, s.loop.pair)
    case Start => s.(loop := Selecting, started := s.started + [s.loop.pair])
    case CloseConnection => s.(loop := Stopped)
    case TimeOut(p) => s.(monitors := s.monitors[p := Removing])
    case SeeComplete(p) => s.(monitors := s.monitors[p := Removing])
    case Remove(p) => AfterRemove(s, p)
  }

  ghost predicate Next(s: State, s': State) {
    exists a :: Enabled(s, a) && s' == After(s, a)
  }

  ghost predicate Run(run: seq<State>) {
    && |run| > 0 && Initial(run[0])
    && forall i {:trigger Next(run[i], run[i + 1])} :: 0 <= i < |run| - 1 ==> Next(run[i], run[i + 1])
  }

  // ---- the invariant -----------------------------------------------------------------------------------

  ghost predicate Holding(l: Loop) { l.Received? || l.Found? || l.Adding? }
  ghost predicate Fresh(l: Loop, p: PairId) { l.Found? && l.created && l.pair == p }

  /** Streams on their way to a pair are admitted ones, not yet in any pair, and distinct. */
  ghost predicate TransitInv(s: State) {
    && (s.chan.Some? ==> KnownType(s.chan.value.streamType) && s.chan.value.uid in s.seen - s.home.Keys)
    && (Holding(s.loop) ==> KnownType(s.loop.stream.streamType) && s.loop.stream.uid in s.seen - s.home.Keys)
    && (Holding(s.loop) && s.chan.Some? ==> s.loop.stream.uid != s.chan.value.uid)
    && s.home.Keys <= s.seen
  }

  ghost predicate LoopInv(s: State) {
    && ((s.loop.Found? || s.loop.Adding?) ==>
          s.loop.pair in s.pairs && s.pairs[s.loop.pair].requestID == RequestID(s.loop.stream))
    && (s.loop.Starting? ==> s.loop.pair in s.pairs && s.loop.pair !in s.started)
  }

  /** The map, the monitors and the pair just made agree: a pair is in the map exactly while its
      monitor, started or about to be started, has not removed it. */
  ghost predicate TableInv(s: State) {
    && (forall p :: p in s.pairs ==> p < s.next)
    && (forall id :: id in s.table ==> s.table[id] in s.pairs && s.pairs[s.table[id]].requestID == id)
    && (forall id :: id in s.table ==> s.table[id] in s.monitors || Fresh(s.loop, s.table[id]))
    && (forall p :: p in s.monitors || Fresh(s.loop, p) ==>
          p in s.pairs && s.pairs[p].requestID in s.table && s.table[s.pairs[p].requestID] == p)
    && (forall p :: p in s.monitors ==> !Fresh(s.loop, p))
  }

  ghost predicate PairInv(s: State, p: PairId)
    requires p in s.pairs
  {
    var pair := s.pairs[p];
    && (pair.closed <==> pair.data.Some? && pair.error.Some?)
    && (pair.data.Some? ==> pair.data.value.streamType == TYPE_DATA && RequestID(pair.data.value) == pair.requestID
                            && pair.data.value.uid in s.home && s.home[pair.data.value.uid] == p)
    && (pair.error.Some? ==> pair.error.value.streamType == TYPE_ERROR && RequestID(pair.error.value) == pair.requestID
                             && pair.error.value.uid in s.home && s.home[pair.error.value.uid] == p)
    && (pair.data.Some? && pair.error.Some? ==> pair.data.value.uid != pair.error.value.uid)
    && (pair.closed <==> p in s.started || s.loop == Starting(p))
  }

  ghost predicate HistoryInv(s: State) {
    && (forall p :: p in s.started ==> p in s.pairs)
    && (forall i, j :: 0 <= i < j < |s.started| ==> s.started[i] != s.started[j])
    && (forall r :: r in s.removed ==> r.1 == Some(r.0))
    && (forall p :: p in s.pairs ==> p in s.monitors || Fresh(s.loop, p) || (p, Some(p)) in s.removed)
  }

  ghost predicate Inv(s: State) {
    && !s.panicked && TransitInv(s) && LoopInv(s) && TableInv(s) && HistoryInv(s)
    && forall p :: p in s.pairs ==> PairInv(s, p)
  }

  /** Each part of the invariant is kept for its own reasons; the table part first. */
  lemma LookUpKeepsTable(s: State)
    requires TableInv(s) && Enabled(s, LookUp)
    ensures TableInv(After(s, LookUp)) && LoopInv(After(s, LookUp))
  {
  }

  lemma AddKeepsTable(s: State)
    requires TableInv(s) && Enabled(s, Add)
    ensures TableInv(After(s, Add))
  {
  }

  lemma RemoveKeepsTable(s: State, p: PairId)
    requires TableInv(s) && Enabled(s, Remove(p))
    ensures TableInv(After(s, Remove(p)))
  {
  }

  lemma SpawnKeepsTable(s: State)
    requires TableInv(s) && Enabled(s, Spawn)
    ensures TableInv(After(s, Spawn))
  {
  }

  lemma StepKeepsTable(s: State, a: Action)
    requires TableInv(s) && LoopInv(s) && Enabled(s, a)
    ensures TableInv(After(s, a))
  {
    match a
    case LookUp => LookUpKeepsTable(s);
    case Add => AddKeepsTable(s);
    case Remove(p) => RemoveKeepsTable(s, p);
    case Spawn => SpawnKeepsTable(s);
    case _ =>
  }

  lemma AddKeepsPair(s: State, q: PairId)
    requires Enabled(s, Add) && LoopInv(s) && TransitInv(s) && q in s.pairs && PairInv(s, q) && PairInv(s, s.loop.pair)
    ensures PairInv(After(s, Add), q) && !After(s, Add).panicked
  {
  }

  lemma OtherKeepsPair(s: State, a: Action, p: PairId)
    requires Enabled(s, a) && !a.Add? && !a.LookUp? && p in s.pairs && PairInv(s, p)
    ensures p in After(s, a).pairs && PairInv(After(s, a), p)
  {
  }

  lemma LookUpKeepsPair(s: State, p: PairId)
    requires TableInv(s) && HistoryInv(s) && Enabled(s, LookUp) && p in After(s, LookUp).pairs && (p in s.pairs ==> PairInv(s, p))
    ensures PairInv(After(s, LookUp), p)
  {
  }

  lemma StepKeepsPair(s: State, a: Action, p: PairId)
    requires Inv(s) && Enabled(s, a) && p in After(s, a).pairs
    ensures PairInv(After(s, a), p)
  {
    assert p in s.pairs ==> PairInv(s, p);
    if a.Add? {
      assert PairInv(s, s.loop.pair);
      AddKeepsPair(s, p);
    } else if a.LookUp? {
      LookUpKeepsPair(s, p);
    } else {
      OtherKeepsPair(s, a, p);
    }
  }

  lemma StepKeepsTransit(s: State, a: Action)
    requires TransitInv(s) && Enabled(s, a)
    ensures TransitInv(After(s, a))
  {
  }

  lemma StepKeepsLoop(s: State, a: Action)
    requires Inv(s) && Enabled(s, a)
    ensures LoopInv(After(s, a)) && !After(s, a).panicked
  {
    match a
    case LookUp => LookUpKeepsTable(s);
    case Add =>
      assert PairInv(s, s.loop.pair);
      AddKeepsPair(s, s.loop.pair);
    case _ =>
  }

  lemma StepKeepsHistory(s: State, a: Action)
    requires TableInv(s) && LoopInv(s) && HistoryInv(s) && Enabled(s, a)
    ensures HistoryInv(After(s, a))
  {
    match a
    case Remove(p) => RemoveKeepsHistory(s, p);
    case _ =>
  }

  lemma RemoveKeepsHistory(s: State, p: PairId)
    requires TableInv(s) && HistoryInv(s) && Enabled(s, Remove(p))
    ensures HistoryInv(After(s, Remove(p)))
  {
    var t := After(s, Remove(p));
    assert t.removed == s.removed + [(p, Some(p))];
    assert t.removed[|s.removed|] == (p, Some(p));
    assert forall r :: r in s.removed ==> r in t.removed;
  }

  lemma StepKeepsInv(s: State, s': State)
    requires Inv(s) && Next(s, s')
    ensures Inv(s')
  {
    var a :| Enabled(s, a) && s' == After(s, a);
    StepKeepsTable(s, a);
    StepKeepsTransit(s, a);
    StepKeepsLoop(s, a);
    StepKeepsHistory(s, a);
    forall p | p in s'.pairs ensures PairInv(s', p) { StepKeepsPair(s, a, p); }
  }

  lemma {:induction false} RunKeepsInv(run: seq<State>, i: nat)
    requires Run(run) && i < |run|
    ensures Inv(run[i])
    decreases i
  {
    if i > 0 {
      var k := i - 1;
      RunKeepsInv(run, k);
      assert Next(run[k], run[k + 1]);
      StepKeepsInv(run[k], run[k + 1]);
    }
  }

  // ---- what every run guarantees -------------------------------------------------------------------------

  /** The complete channel of a pair is never closed twice: no step of any run panics. */
  lemma NeverClosesTwice(run: seq<State>, i: nat)
    requires Run(run) && i < |run|
    ensures !run[i].panicked
  {
    RunKeepsInv(run, i);
  }

  /** portForward is started at most once per pair, and only for a pair that has an error stream
      and a data stream of the pair's own request id; a complete pair has been started or is
      about to be. */
  lemma StartsOncePerCompletePair(run: seq<State>, i: nat)
    requires Run(run) && i < |run|
    ensures forall j, k :: 0 <= j < k < |run[i].started| ==> run[i].started[j] != run[i].started[k]
    ensures forall p :: p in run[i].pairs && (p in run[i].started || run[i].loop == Starting(p)) <==>
                        p in run[i].pairs && run[i].pairs[p].data.Some? && run[i].pairs[p].error.Some?
    ensures forall p :: p in run[i].started ==>
      && p in run[i].pairs && run[i].pairs[p].data.Some? && run[i].pairs[p].error.Some?
      && run[i].pairs[p].data.value.streamType == TYPE_DATA
      && run[i].pairs[p].error.value.streamType == TYPE_ERROR
      && RequestID(run[i].pairs[p].data.value) == RequestID(run[i].pairs[p].error.value) == run[i].pairs[p].requestID
  {
    RunKeepsInv(run, i);
    assert forall p :: p in run[i].pairs ==> PairInv(run[i], p);
  }

  /** A monitor's deletion by request id always hits its own pair, however request ids are reused,
      and every pair in the map has a monitor that is running or about to be started. */
  lemma MonitorsRemoveTheirOwnPair(run: seq<State>, i: nat)
    requires Run(run) && i < |run|
    ensures forall r :: r in run[i].removed ==> r.1 == Some(r.0)
    ensures forall id :: id in run[i].table ==>
      run[i].table[id] in run[i].monitors || Fresh(run[i].loop, run[i].table[id])
  {
    RunKeepsInv(run, i);
  }

  /** No stream ends up in two pairs or in both slots of one. */
  lemma StreamsAreNotShared(run: seq<State>, i: nat, p: PairId, q: PairId)
    requires Run(run) && i < |run| && p in run[i].pairs && q in run[i].pairs
    ensures run[i].pairs[p].data.Some? && run[i].pairs[q].data.Some? && p != q ==>
            run[i].pairs[p].data.value.uid != run[i].pairs[q].data.value.uid
    ensures run[i].pairs[p].error.Some? && run[i].pairs[q].error.Some? && p != q ==>
            run[i].pairs[p].error.value.uid != run[i].pairs[q].error.value.uid
    ensures run[i].pairs[p].data.Some? && run[i].pairs[q].error.Some? ==>
            run[i].pairs[p].data.value.uid != run[i].pairs[q].error.value.uid
  {
    RunKeepsInv(run, i);
    assert PairInv(run[i], p) && PairInv(run[i], q);
  }

  ghost predicate Grown(pair: Pair, pair': Pair) {
    && pair'.requestID == pair.requestID && (pair.closed ==> pair'.closed)
    && (pair.data.Some? ==> pair'.data == pair.data) && (pair.error.Some? ==> pair'.error == pair.error)
  }

  lemma ActionGrowsPair(s: State, a: Action, p: PairId)
    requires Enabled(s, a) && p in s.pairs && p < s.next && PairInv(s, p)
    ensures p in After(s, a).pairs && Grown(s.pairs[p], After(s, a).pairs[p])
  {
  }

  lemma RunGrowsPair(run: seq<State>, i: nat, p: PairId)
    requires Run(run) && i < |run| - 1 && p in run[i].pairs
    ensures p in run[i + 1].pairs && Grown(run[i].pairs[p], run[i + 1].pairs[p])
  {
    assert p < run[i].next && PairInv(run[i], p) by { RunKeepsInv(run, i); }
    assert Next(run[i], run[i + 1]);
    var a :| Enabled(run[i], a) && run[i + 1] == After(run[i], a);
    ActionGrowsPair(run[i], a, p);
  }

  lemma GrownTrans(a: Pair, b: Pair, c: Pair)
    requires Grown(a, b) && Grown(b, c)
    ensures Grown(a, c)
  {
  }

  /** What a pair has received it keeps: once set, a stream is never replaced. */
  lemma {:induction false} PairsOnlyGrow(run: seq<State>, i: nat, j: nat, p: PairId)
    requires Run(run) && i <= j < |run| && p in run[i].pairs
    ensures p in run[j].pairs && Grown(run[i].pairs[p], run[j].pairs[p])
    decreases j - i
  {
    if i < j {
      PairsOnlyGrow(run, i, j - 1, p);
      RunGrowsPair(run, j - 1, p);
      GrownTrans(run[i].pairs[p], run[j - 1].pairs[p], run[j].pairs[p]);
    }
  }

  // ---- two streams of a new request start a forward -------------------------------------------------------

  /** The loop looks the pair of `stream` up in the step from `run[i]`. */
  ghost predicate LooksUp(run: seq<State>, i: nat, stream: Stream) {
    i < |run| - 1 && run[i].loop == Received(stream) && run[i + 1].loop.Found?
  }

  /** The loop is still on its way to add `stream` to `p`. */
  ghost predicate Carrying(l: Loop, stream: Stream, p: PairId) {
    (l.Found? || l.Adding?) && l.stream == stream && l.pair == p
  }

  /** `stream` is on its way to `p`, or the slot it was meant for is set. */
  ghost predicate Heading(s: State, stream: Stream, p: PairId) {
    p in s.pairs && (Carrying(s.loop, stream, p) || Slot(s.pairs[p], stream.streamType).Some?)
  }

  /** The slot was free, and `stream` is on its way to it or in it. */
  ghost predicate Winning(s: State, stream: Stream, p: PairId) {
    && p in s.pairs
    && if Carrying(s.loop, stream, p) then Slot(s.pairs[p], stream.streamType).None?
       else Slot(s.pairs[p], stream.streamType) == Some(stream)
  }

  lemma AddKeepsHeading(s: State, stream: Stream, p: PairId)
    requires Enabled(s, Add) && TransitInv(s) && p in s.pairs && PairInv(s, p)
    ensures Heading(s, stream, p) ==> Heading(After(s, Add), stream, p)
    ensures Winning(s, stream, p) ==> Winning(After(s, Add), stream, p)
  {
    if s.loop.pair == p {
      AddAccepts(s.pairs[p], s.loop.stream);
    }
  }

  lemma OtherKeepsHeading(s: State, a: Action, stream: Stream, p: PairId)
    requires Enabled(s, a) && !a.Add? && TransitInv(s) && p in s.pairs && p < s.next && PairInv(s, p)
    ensures Heading(s, stream, p) ==> Heading(After(s, a), stream, p)
    ensures Winning(s, stream, p) ==> Winning(After(s, a), stream, p)
  {
  }

  lemma StepKeepsHeading(s: State, s': State, stream: Stream, p: PairId)
    requires Inv(s) && Next(s, s')
    ensures Heading(s, stream, p) ==> Heading(s', stream, p)
    ensures Winning(s, stream, p) ==> Winning(s', stream, p)
  {
    var a :| Enabled(s, a) && s' == After(s, a);
    if p in s.pairs {
      assert PairInv(s, p);
      if a.Add? {
        AddKeepsHeading(s, stream, p);
      } else {
        OtherKeepsHeading(s, a, stream, p);
      }
    }
  }

  lemma {:induction false} StaysHeading(run: seq<State>, i: nat, j: nat, stream: Stream, p: PairId)
    requires Run(run) && i <= j < |run|
    ensures Heading(run[i], stream, p) ==> Heading(run[j], stream, p)
    ensures Winning(run[i], stream, p) ==> Winning(run[j], stream, p)
    decreases j - i
  {
    if i < j {
      var k := j - 1;
      StaysHeading(run, i, k, stream, p);
      RunKeepsHeading(run, k, stream, p);
    }
  }

  lemma RunKeepsHeading(run: seq<State>, k: nat, stream: Stream, p: PairId)
    requires Run(run) && k < |run| - 1
    ensures Heading(run[k], stream, p) ==> Heading(run[k + 1], stream, p)
    ensures Winning(run[k], stream, p) ==> Winning(run[k + 1], stream, p)
  {
    RunKeepsInv(run, k);
    assert Next(run[k], run[k + 1]);
    StepKeepsHeading(run[k], run[k + 1], stream, p);
  }

  lemma LooksUpStep(run: seq<State>, i: nat, stream: Stream)
    requires Run(run) && LooksUp(run, i, stream)
    ensures Inv(run[i]) && Enabled(run[i], LookUp) && run[i + 1] == After(run[i], LookUp)
  {
    RunKeepsInv(run, i);
    assert Next(run[i], run[i + 1]);
    var a :| Enabled(run[i], a) && run[i + 1] == After(run[i], a);
    assert a == LookUp;
  }

  /** After the first stream of a new request has been looked up, it is the one to fill its slot. */
  lemma FirstWins(run: seq<State>, i: nat, first: Stream, j: nat)
    requires Run(run) && i < j < |run| && LooksUp(run, i, first) && RequestID(first) !in run[i].table
    ensures var p := run[i].next; Winning(run[j], first, p) && run[j].pairs[p].requestID == RequestID(first)
  {
    var p := run[i].next;
    assert Winning(run[i + 1], first, p) by { LooksUpStep(run, i, first); }
    assert run[i + 1].pairs[p].requestID == RequestID(first) by { LooksUpStep(run, i, first); }
    StaysHeading(run, i + 1, j, first, p);
    PairsOnlyGrow(run, i + 1, j, p);
  }

  /** A stream that is looked up while the pair of its request is in the map gets to that pair. */
  lemma SecondArrives(run: seq<State>, j: nat, second: Stream, k: nat, p: PairId)
    requires Run(run) && j < k < |run| && LooksUp(run, j, second) && p in run[j].pairs
    requires run[j].pairs[p].requestID == RequestID(second) && (p, Some(p)) !in run[j].removed
    ensures Heading(run[k], second, p)
    ensures Slot(run[j].pairs[p], second.streamType).None? ==> Winning(run[k], second, p)
  {
    LooksUpStep(run, j, second);
    assert p in run[j].monitors;
    assert run[j].table[RequestID(second)] == p;
    StaysHeading(run, j + 1, k, second, p);
  }

  /** Liveness of the pairing: if a request id is new when a stream of it is looked up, and a stream of the
      other type is looked up before the monitor of the pair has removed it, then portForward has been
      started for the pair the next time the loop waits.  The pair holds the first stream, and the second
      one unless another of its type came before it. */
  lemma BothStreamsStartForwarding(run: seq<State>, i: nat, first: Stream, j: nat, second: Stream, k: nat)
    requires Run(run) && i < j < k < |run| && LooksUp(run, i, first) && LooksUp(run, j, second)
    requires RequestID(first) == RequestID(second) && first.streamType != second.streamType
    requires RequestID(first) !in run[i].table && (run[i].next, Some(run[i].next)) !in run[j].removed
    requires run[k].loop.Selecting?
    ensures var p := run[i].next;
      && p in run[j].pairs && p in run[k].pairs && p in run[k].started
      && Slot(run[k].pairs[p], first.streamType) == Some(first)
      && Slot(run[k].pairs[p], second.streamType).Some?
      && (Slot(run[j].pairs[p], second.streamType).None? ==>
            Slot(run[k].pairs[p], second.streamType) == Some(second))
  {
    var p := run[i].next;
    FirstWins(run, i, first, j);
    FirstWins(run, i, first, k);
    SecondArrives(run, j, second, k, p);
    KnownTypesLookUp(run, i, first);
    KnownTypesLookUp(run, j, second);
    assert PairInv(run[k], p) by { RunKeepsInv(run, k); }
  }

  lemma KnownTypesLookUp(run: seq<State>, i: nat, stream: Stream)
    requires Run(run) && LooksUp(run, i, stream)
    ensures KnownType(stream.streamType)
  {
    RunKeepsInv(run, i);
  }

  // ---- and such runs exist ------------------------------------------------------------------------------------

  ghost function Last(run: seq<State>): State
    requires run != []
  {
    run[|run| - 1]
  }

  lemma Extend(run: seq<State>, a: Action) returns (longer: seq<State>)
    requires Run(run) && Enabled(Last(run), a)
    ensures Run(longer) && Last(longer) == After(Last(run), a)
  {
    var s' := After(Last(run), a);
    longer := run + [s'];
    assert Next(Last(run), s');
    forall i | 0 <= i < |longer| - 1 ensures Next(longer[i], longer[i + 1]) {
      if i < |run| - 1 { assert Next(run[i], run[i + 1]); }
    }
  }

  /** The loop waits and nothing is on its way. */
  ghost predicate Idle(s: State) { !s.panicked && s.loop.Selecting? && s.chan.None? }

  /** The stream is about to be added to the pair of its request, which is new if the request is. */
  ghost predicate Brought(s: State, t: State, stream: Stream) {
    var id := RequestID(stream);
    var p := if id in s.table then s.table[id] else s.next;
    && !t.panicked && t.chan.None? && t.loop == Adding(stream, p) && t.seen == s.seen + {stream.uid}
    && t.table == s.table[id := p] && t.started == s.started && p in t.pairs
    && (if id in s.table then p in s.pairs && t.pairs[p] == s.pairs[p] else t.pairs[p] == Pair(id, None, None, false))
  }

  lemma Bring(run: seq<State>, stream: Stream) returns (longer: seq<State>)
    requires Run(run) && Idle(Last(run)) && Admissible(stream) && stream.uid !in Last(run).seen
    requires RequestID(stream) in Last(run).table ==> Last(run).table[RequestID(stream)] in Last(run).pairs
    ensures Run(longer) && Brought(Last(run), Last(longer), stream)
  {
    longer := Extend(run, Admit(stream));
    longer := Extend(longer, Receive);
    longer := Extend(longer, LookUp);
    longer := Extend(longer, Spawn);
  }

  /** What adding the stream then does. */
  ghost predicate Taken(s: State, t: State, stream: Stream, p: PairId)
    requires p in s.pairs
  {
    && Idle(t) && t.table == s.table && t.seen == s.seen && p in t.pairs
    && Slot(t.pairs[p], stream.streamType) == Some(stream)
    && OtherSlot(t.pairs[p], stream.streamType) == OtherSlot(s.pairs[p], stream.streamType)
    && t.started == s.started + if OtherSlot(s.pairs[p], stream.streamType).Some? then [p] else []
  }

  lemma TakeIn(run: seq<State>, stream: Stream, p: PairId) returns (longer: seq<State>)
    requires Run(run) && !Last(run).panicked && Last(run).chan.None? && Last(run).loop == Adding(stream, p)
    requires p in Last(run).pairs && Slot(Last(run).pairs[p], stream.streamType).None?
    ensures Run(longer) && Taken(Last(run), Last(longer), stream, p)
  {
    var s := Last(run);
    assert TransitInv(s) && PairInv(s, p) by { RunKeepsInv(run, |run| - 1); }
    AddAccepts(s.pairs[p], stream);
    longer := Extend(run, Add);
    if Last(longer).loop.Starting? {
      longer := Extend(longer, Start);
    }
  }

  /** From every reachable state in which the loop waits, two admissible streams of a new request, one of each type,
      in either order, can be taken in, and portForward is then started for their pair. */
  lemma TwoStreamsCanStart(run: seq<State>, first: Stream, second: Stream) returns (longer: seq<State>)
    requires Run(run) && Idle(Last(run)) && Admissible(first) && Admissible(second)
    requires first.uid !in Last(run).seen && second.uid !in Last(run).seen && first.uid != second.uid
    requires first.streamType != second.streamType && RequestID(first) == RequestID(second) && RequestID(first) !in Last(run).table
    ensures Run(longer) && Last(longer).started == Last(run).started + [Last(run).next]
    ensures var p := Last(run).next;
      && p in Last(longer).pairs && Slot(Last(longer).pairs[p], first.streamType) == Some(first)
      && Slot(Last(longer).pairs[p], second.streamType) == Some(second)
  {
    var p := Last(run).next;
    longer := Bring(run, first);
    longer := TakeIn(longer, first, p);
    longer := Bring(longer, second);
    longer := TakeIn(longer, second, p);
  }

  // ---- the objects the steps stand for -------------------------------------------------------------------

  class HttpStreamPair {
    const requestID: string
    var dataStream: Option<Stream>
    var errorStream: Option<Stream>
    var closed: bool

    ghost function View(): Pair
      reads this
    {
      Pair(requestID, dataStream, errorStream, closed)
    }

    constructor (requestID: string)
      ensures View() == Pair(requestID, None, None, false)
    {
      this.requestID := requestID;
      dataStream, errorStream, closed := None, None, false;
    }

    method Add(stream: Stream) returns (added: Added)
      modifies this
      ensures (View(), added) == AddStream(old(View()), stream)
      ensures old(closed <==> dataStream.Some? && errorStream.Some?) && KnownType(stream.streamType) ==>
              Accepts(old(View()), stream, View(), added)
    {
      if stream.streamType == TYPE_ERROR {
        if errorStream.Some? { return AlreadyAssigned; }
        errorStream := Some(stream);
      } else if stream.streamType == TYPE_DATA {
        if dataStream.Some? { return AlreadyAssigned; }
        dataStream := Some(stream);
      }
      if errorStream.None? || dataStream.None? { return Incomplete; }
      if closed { return CloseOfClosed; }
      closed := true;
      added := Complete;
    }
  }

  class HttpStreamHandler {
    var streamPairs: map<string, HttpStreamPair>

    ghost predicate Valid()
      reads this
    {
      forall id :: id in streamPairs ==> streamPairs[id].requestID == id
    }

    method GetStreamPair(requestID: string) returns (p: HttpStreamPair, created: bool)
      requires Valid()
      modifies this
      ensures Valid() && requestID in streamPairs && streamPairs == old(streamPairs)[requestID := p]
      ensures created <==> requestID !in old(streamPairs)
      ensures created ==> fresh(p) && p.View() == Pair(requestID, None, None, false)
      ensures !created ==> p == old(streamPairs)[requestID]
    {
      if requestID in streamPairs {
        p, created := streamPairs[requestID], false;
      } else {
        p := new HttpStreamPair(requestID);
        streamPairs := streamPairs[requestID := p];
        created := true;
      }
    }

    method RemoveStreamPair(requestID: string)
      requires Valid()
      modifies this
      ensures Valid() && streamPairs == old(streamPairs) - {requestID}
    {
      streamPairs := streamPairs - {requestID};
    }
  }
}
