/** The byte limit that several log streams share, SharedWriteLimiter in core/helpers.go: each Write loads
    the limit, hands at most that much to its delegate and then subtracts what was written, and other
    writers may act between any two of these. */
module WriteLimiter {

  /** Where one writer is: `cap` bytes may still be handed over, or `n` have been and are not subtracted. */
  datatype Writer = Idle | Loaded(cap: nat) | Wrote(n: nat)

  /** `subtracted` and `delivered` count the bytes taken off the limit and written by the delegates. */
  datatype State = State(limit: int, writers: seq<Writer>, subtracted: nat, delivered: nat)

  datatype Step = Load(who: nat, len: nat) | Deliver(who: nat, count: nat) | Subtract(who: nat)

  ghost predicate Enabled(s: State, t: Step) {
    t.who < |s.writers| &&
    match t
    case Load(who, len) => s.writers[who].Idle? && len > 0
    case Deliver(who, count) => s.writers[who].Loaded? && count <= s.writers[who].cap
    case Subtract(who) => s.writers[who].Wrote?
  }

  function Min(a: int, b: int): int { if a < b then a else b }

  /** A writer that finds no limit left returns at once. */
  function Take(s: State, t: Step): State {
    if t.who >= |s.writers| then s
    else
      match t
      case Load(who, len) => if s.limit <= 0 then s else s.(writers := s.writers[who := Loaded(Min(s.limit, len))])
      case Deliver(who, count) => s.(writers := s.writers[who := Wrote(count)], delivered := s.delivered + count)
      case Subtract(who) =>
        if !s.writers[who].Wrote? then s
        else
          var n := s.writers[who].n;
          s.(limit := s.limit - n, writers := s.writers[who := Idle], subtracted := s.subtracted + n)
  }

  function Start(limit: int, k: nat): State { State(limit, seq(k, _ => Idle), 0, 0) }

  function After(limit: int, k: nat, steps: seq<Step>): State {
    if steps == [] then Start(limit, k) else Take(After(limit, k, steps[..|steps| - 1]), steps[|steps| - 1])
  }

  ghost predicate Possible(limit: int, k: nat, steps: seq<Step>) {
    steps == [] ||
    (Possible(limit, k, steps[..|steps| - 1]) && Enabled(After(limit, k, steps[..|steps| - 1]), steps[|steps| - 1]))
  }

  // ---- sums ------------------------------------------------------------------------------------------------

  /** What a writer has written or may yet write beyond what is subtracted. */
  function Claim(w: Writer): nat {
    match w case Idle => 0 case Loaded(cap) => cap case Wrote(n) => n
  }

  function Unsubtracted(w: Writer): nat { if w.Wrote? then w.n else 0 }

  function Sum(ws: seq<Writer>, f: Writer -> nat): nat {
    if ws == [] then 0 else f(ws[0]) + Sum(ws[1..], f)
  }

  lemma OneLess(k: nat, n: nat)
    requires k > 0
    ensures k * n == (k - 1) * n + n
  {
  }

  lemma {:induction false} SumUpdate(ws: seq<Writer>, f: Writer -> nat, i: nat, w: Writer)
    requires i < |ws|
    ensures Sum(ws[i := w], f) == Sum(ws, f) - f(ws[i]) + f(w)
  {
    if i == 0 {
      assert ws[0 := w][1..] == ws[1..];
    } else {
      SumUpdate(ws[1..], f, i - 1, w);
      assert ws[i := w][1..] == ws[1..][i - 1 := w];
    }
  }

  lemma {:induction false} SumBounded(ws: seq<Writer>, f: Writer -> nat, bound: nat)
    requires forall i :: 0 <= i < |ws| ==> f(ws[i]) <= bound
    ensures Sum(ws, f) <= |ws| * bound
  {
    if ws != [] {
      SumBounded(ws[1..], f, bound);
      OneLess(|ws|, bound);
    }
  }

  /** All writers but one. */
  lemma OthersBounded(ws: seq<Writer>, f: Writer -> nat, bound: nat, i: nat)
    requires i < |ws| && forall j :: 0 <= j < |ws| ==> f(ws[j]) <= bound
    ensures Sum(ws, f) - f(ws[i]) <= (|ws| - 1) * bound
  {
    var others := ws[..i] + ws[i + 1..];
    forall j | 0 <= j < |others|
      ensures f(others[j]) <= bound
    {
      assert others[j] == if j < i then ws[j] else ws[j + 1];
    }
    SumBounded(others, f, bound);
    SumWithout(ws, f, i);
  }

  lemma {:induction false} SumWithout(ws: seq<Writer>, f: Writer -> nat, i: nat)
    requires i < |ws|
    ensures Sum(ws[..i] + ws[i + 1..], f) == Sum(ws, f) - f(ws[i])
  {
    if i == 0 {
      assert ws[..0] + ws[1..] == ws[1..];
    } else {
      SumWithout(ws[1..], f, i - 1);
      assert (ws[..i] + ws[i + 1..])[1..] == ws[1..][..i - 1] + ws[1..][i..];
    }
  }

  lemma {:induction false} SumOfIdle(ws: seq<Writer>, f: Writer -> nat)
    requires f(Idle) == 0 && forall i :: 0 <= i < |ws| ==> ws[i] == Idle
    ensures Sum(ws, f) == 0
  {
    if ws != [] {
      SumOfIdle(ws[1..], f);
    }
  }

  // ---- every interleaving ------------------------------------------------------------------------------------

  /** Nothing is lost: the limit and what was subtracted make up the start, and what was delivered and
      not yet subtracted is held by the writers. */
  ghost predicate Accounted(s: State, limit: int, k: nat) {
    && |s.writers| == k && s.limit + s.subtracted == limit
    && s.delivered == s.subtracted + Sum(s.writers, Unsubtracted)
  }

  ghost predicate Bounded(s: State, limit: nat, k: nat) {
    && (forall i :: 0 <= i < |s.writers| ==> Claim(s.writers[i]) <= limit)
    && s.subtracted + Sum(s.writers, Claim) <= k * limit
  }

  lemma StepAccounts(s: State, t: Step, limit: int, k: nat)
    requires Accounted(s, limit, k) && Enabled(s, t)
    ensures Accounted(Take(s, t), limit, k)
  {
    match t
    case Load(who, len) => if s.limit > 0 { SumUpdate(s.writers, Unsubtracted, who, Loaded(Min(s.limit, len))); }
    case Deliver(who, count) => SumUpdate(s.writers, Unsubtracted, who, Wrote(count));
    case Subtract(who) => SumUpdate(s.writers, Unsubtracted, who, Idle);
  }

  lemma LoadStaysBounded(s: State, who: nat, len: nat, limit: nat, k: nat)
    requires Accounted(s, limit, k) && Bounded(s, limit, k) && Enabled(s, Load(who, len)) && s.limit > 0
    ensures Bounded(Take(s, Load(who, len)), limit, k)
  {
    var cap := Min(s.limit, len);
    SumUpdate(s.writers, Claim, who, Loaded(cap));
    OthersBounded(s.writers, Claim, limit, who);
    OneLess(k, limit);
  }

  lemma StepStaysBounded(s: State, t: Step, limit: nat, k: nat)
    requires Accounted(s, limit, k) && Bounded(s, limit, k) && Enabled(s, t)
    ensures Bounded(Take(s, t), limit, k)
  {
    match t
    case Load(who, len) => if s.limit > 0 { LoadStaysBounded(s, who, len, limit, k); }
    case Deliver(who, count) => SumUpdate(s.writers, Claim, who, Wrote(count));
    case Subtract(who) => SumUpdate(s.writers, Claim, who, Idle);
  }

  lemma {:induction false} UnsubtractedIsClaimed(ws: seq<Writer>)
    ensures Sum(ws, Unsubtracted) <= Sum(ws, Claim)
  {
    if ws != [] {
      UnsubtractedIsClaimed(ws[1..]);
    }
  }

  lemma {:induction false} RunInv(limit: int, k: nat, steps: seq<Step>)
    requires Possible(limit, k, steps)
    ensures Accounted(After(limit, k, steps), limit, k)
    ensures limit >= 0 ==> Bounded(After(limit, k, steps), limit, k)
    decreases |steps|
  {
    if steps == [] {
      SumOfIdle(Start(limit, k).writers, Claim);
      SumOfIdle(Start(limit, k).writers, Unsubtracted);
      if limit >= 0 {
        assert 0 <= k * limit;
      }
    } else {
      var n := |steps| - 1;
      RunInv(limit, k, steps[..n]);
      StepAccounts(After(limit, k, steps[..n]), steps[n], limit, k);
      if limit >= 0 {
        StepStaysBounded(After(limit, k, steps[..n]), steps[n], limit, k);
      }
    }
  }

  /** In every interleaving of k writers the remaining limit and the subtracted bytes make up the limit
      L, at most k * L bytes are delivered, and the counter never falls below -(k - 1) * L. */
  lemma DeliveredAtMostKTimes(limit: nat, k: nat, steps: seq<Step>)
    requires Possible(limit, k, steps)
    ensures var s := After(limit, k, steps);
      s.limit + s.subtracted == limit && s.delivered <= k * limit && (k > 0 ==> s.limit >= -((k - 1) * limit))
  {
    RunInv(limit, k, steps);
    var s := After(limit, k, steps);
    UnsubtractedIsClaimed(s.writers);
    if k > 0 {
      OneLess(k, limit);
    }
  }

  /** A limit that is not positive lets nothing through. */
  lemma {:induction false} NothingWithoutLimit(limit: int, k: nat, steps: seq<Step>)
    requires limit <= 0 && Possible(limit, k, steps)
    ensures After(limit, k, steps) == Start(limit, k)
    decreases |steps|
  {
    if steps != [] {
      NothingWithoutLimit(limit, k, steps[..|steps| - 1]);
    }
  }

  // ---- writes that do not overlap ------------------------------------------------------------------------------

  /** Each Write begins when no other is under way. */
  ghost predicate Serial(limit: int, k: nat, steps: seq<Step>) {
    forall n :: 0 <= n < |steps| && steps[n].Load? ==>
      forall i :: 0 <= i < k ==> WriterAfter(limit, k, steps[..n], i) == Idle
  }

  ghost function WriterAfter(limit: int, k: nat, steps: seq<Step>, i: nat): Writer {
    var ws := After(limit, k, steps).writers;
    if i < |ws| then ws[i] else Idle
  }

  lemma {:induction false} SerialInv(limit: nat, k: nat, steps: seq<Step>)
    requires Possible(limit, k, steps) && Serial(limit, k, steps)
    ensures var s := After(limit, k, steps); s.subtracted + Sum(s.writers, Claim) <= limit
    decreases |steps|
  {
    if steps == [] {
      SumOfIdle(Start(limit, k).writers, Claim);
    } else {
      var n := |steps| - 1;
      assert forall i :: 0 <= i <= n ==> steps[..n][..i] == steps[..i];
      SerialInv(limit, k, steps[..n]);
      RunInv(limit, k, steps[..n]);
      SerialStep(limit, k, steps);
    }
  }

  lemma SerialStep(limit: nat, k: nat, steps: seq<Step>)
    requires steps != [] && Possible(limit, k, steps) && Serial(limit, k, steps)
    requires Accounted(After(limit, k, steps[..|steps| - 1]), limit, k)
    requires var s := After(limit, k, steps[..|steps| - 1]); s.subtracted + Sum(s.writers, Claim) <= limit
    ensures var s := After(limit, k, steps); s.subtracted + Sum(s.writers, Claim) <= limit
  {
    var n := |steps| - 1;
    var s := After(limit, k, steps[..n]);
    match steps[n]
    case Load(who, len) =>
      if s.limit > 0 {
        assert forall i :: 0 <= i < k ==> WriterAfter(limit, k, steps[..n], i) == Idle;
        assert forall i :: 0 <= i < k ==> s.writers[i] == WriterAfter(limit, k, steps[..n], i);
        SumOfIdle(s.writers, Claim);
        SumUpdate(s.writers, Claim, who, Loaded(Min(s.limit, len)));
      }
    case Deliver(who, count) => SumUpdate(s.writers, Claim, who, Wrote(count));
    case Subtract(who) => SumUpdate(s.writers, Claim, who, Idle);
  }

  /** Writes that do not overlap deliver at most the limit. */
  lemma SerialWritesRespectLimit(limit: nat, k: nat, steps: seq<Step>)
    requires Possible(limit, k, steps) && Serial(limit, k, steps)
    ensures After(limit, k, steps).delivered <= limit && After(limit, k, steps).limit >= 0
  {
    SerialInv(limit, k, steps);
    RunInv(limit, k, steps);
    UnsubtractedIsClaimed(After(limit, k, steps).writers);
  }

  // ---- the bound is reached --------------------------------------------------------------------------------------

  /** The first `i` writers load the whole limit. */
  function Loads(limit: nat, i: nat): seq<Step> { if i == 0 then [] else Loads(limit, i - 1) + [Load(i - 1, limit)] }

  /** Then the first `i` of `k` deliver all they loaded. */
  function LoadsAndDelivers(limit: nat, k: nat, i: nat): seq<Step> {
    if i == 0 then Loads(limit, k) else LoadsAndDelivers(limit, k, i - 1) + [Deliver(i - 1, limit)]
  }

  /** `k` writers of which the first `i` are in state `first` and the others in state `then_`. */
  function Split(k: nat, i: nat, first: Writer, then_: Writer): seq<Writer> {
    if k == 0 then [] else Split(k - 1, i, first, then_) + [if k - 1 < i then first else then_]
  }

  lemma {:induction false} SplitShape(k: nat, i: nat, first: Writer, then_: Writer)
    ensures var ws := Split(k, i, first, then_);
      |ws| == k && forall j :: 0 <= j < k ==> ws[j] == if j < i then first else then_
  {
    if k > 0 {
      SplitShape(k - 1, i, first, then_);
    }
  }

  lemma SplitMoves(k: nat, i: nat, first: Writer, then_: Writer)
    requires i < k
    ensures |Split(k, i, first, then_)| == k && Split(k, i, first, then_)[i] == then_
    ensures Split(k, i, first, then_)[i := first] == Split(k, i + 1, first, then_)
  {
    SplitShape(k, i, first, then_);
    SplitShape(k, i + 1, first, then_);
  }

  lemma LoadOne(s: State, who: nat)
    requires who < |s.writers| && s.writers[who] == Idle && s.limit > 0
    ensures Enabled(s, Load(who, s.limit))
    ensures Take(s, Load(who, s.limit)) == s.(writers := s.writers[who := Loaded(s.limit)])
  {
  }

  lemma Extend(limit: nat, k: nat, steps: seq<Step>, t: Step)
    requires Possible(limit, k, steps) && Enabled(After(limit, k, steps), t)
    ensures Possible(limit, k, steps + [t]) && After(limit, k, steps + [t]) == Take(After(limit, k, steps), t)
  {
    assert (steps + [t])[..|steps|] == steps;
  }

  lemma {:induction false} LoadsRun(limit: nat, k: nat, i: nat)
    requires limit > 0 && i <= k
    ensures Possible(limit, k, Loads(limit, i))
    ensures After(limit, k, Loads(limit, i)) == State(limit, Split(k, i, Loaded(limit), Idle), 0, 0)
  {
    if i == 0 {
      SplitShape(k, 0, Loaded(limit), Idle);
      assert Start(limit, k).writers == Split(k, 0, Loaded(limit), Idle);
    } else {
      LoadsRun(limit, k, i - 1);
      SplitMoves(k, i - 1, Loaded(limit), Idle);
      LoadOne(State(limit, Split(k, i - 1, Loaded(limit), Idle), 0, 0), i - 1);
      Extend(limit, k, Loads(limit, i - 1), Load(i - 1, limit));
    }
  }

  lemma DeliverOne(s: State, who: nat, n: nat)
    requires who < |s.writers| && s.writers[who] == Loaded(n)
    ensures Enabled(s, Deliver(who, n))
    ensures Take(s, Deliver(who, n)) == State(s.limit, s.writers[who := Wrote(n)], s.subtracted, s.delivered + n)
  {
  }

  lemma {:induction false} DeliversRun(limit: nat, k: nat, i: nat)
    requires limit > 0 && i <= k
    ensures Possible(limit, k, LoadsAndDelivers(limit, k, i))
    ensures After(limit, k, LoadsAndDelivers(limit, k, i)) == State(limit, Split(k, i, Wrote(limit), Loaded(limit)), 0, i * limit)
  {
    if i == 0 {
      LoadsRun(limit, k, k);
      SplitShape(k, k, Loaded(limit), Idle);
      SplitShape(k, 0, Wrote(limit), Loaded(limit));
      assert Split(k, k, Loaded(limit), Idle) == Split(k, 0, Wrote(limit), Loaded(limit));
    } else {
      DeliversRun(limit, k, i - 1);
      OneLess(i, limit);
      SplitMoves(k, i - 1, Wrote(limit), Loaded(limit));
      DeliverOne(State(limit, Split(k, i - 1, Wrote(limit), Loaded(limit)), 0, (i - 1) * limit), i - 1, limit);
      Extend(limit, k, LoadsAndDelivers(limit, k, i - 1), Deliver(i - 1, limit));
    }
  }

  /** For every limit and number of writers some interleaving delivers k times the limit. */
  lemma BoundIsReached(limit: nat, k: nat)
    requires limit > 0
    ensures Possible(limit, k, LoadsAndDelivers(limit, k, k))
    ensures After(limit, k, LoadsAndDelivers(limit, k, k)).delivered == k * limit
  {
    DeliversRun(limit, k, k);
  }

  /** The limit is kept in every interleaving exactly if there is at most one writer, or nothing to write. */
  lemma LimitIsKeptIff(limit: nat, k: nat)
    ensures (forall steps :: Possible(limit, k, steps) ==> After(limit, k, steps).delivered <= limit) <==> k <= 1 || limit == 0
  {
    if k <= 1 || limit == 0 {
      forall steps | Possible(limit, k, steps)
        ensures After(limit, k, steps).delivered <= limit
      {
        DeliveredAtMostKTimes(limit, k, steps);
        AtMostOnce(k, limit);
      }
    } else {
      BoundIsReached(limit, k);
      MoreThanOnce(k, limit);
    }
  }

  lemma AtMostOnce(k: nat, n: nat)
    requires k <= 1 || n == 0
    ensures k * n <= n
  {
  }

  lemma MoreThanOnce(k: nat, n: nat)
    requires k > 1 && n > 0
    ensures k * n > n
  {
    OneLess(k, n);
    OneLess(k - 1, n);
  }

  // ---- one writer alone --------------------------------------------------------------------------------------------

  datatype WriteError = NoError | MaximumWrite | DelegateError

  class Limiter {
    var limit: int
    var output: seq<int>

    constructor (limit: int)
      ensures this.limit == limit && output == []
    {
      this.limit, output := limit, [];
    }

    /** `accepts` is how many of the bytes offered the delegate takes; a delegate that takes fewer than it
        was offered reports an error. */
    method Write(p: seq<int>, accepts: nat, fails: bool) returns (n: nat, err: WriteError)
      modifies this
      ensures n <= |p| && output == old(output) + p[..n]
      ensures limit == old(limit) - n && (old(limit) >= 0 ==> limit >= 0) && (old(limit) <= 0 ==> n == 0)
      ensures err == NoError <==> p == [] || (|p| <= old(limit) && !fails)
      ensures err == DelegateError <==> p != [] && old(limit) > 0 && fails
      ensures !fails && accepts >= |p| && old(limit) > 0 ==> n == if |p| <= old(limit) then |p| else old(limit)
    {
      if |p| == 0 { return 0, NoError; }
      if limit <= 0 { return 0, MaximumWrite; }
      var offered := p;
      var truncated := false;
      if limit < |p| {
        offered := p[..limit];
        truncated := true;
      }
      n := if accepts < |offered| then accepts else |offered|;
      output := output + offered[..n];
      assert offered[..n] == p[..n];
      if n > 0 { limit := limit - n; }
      err := if fails then DelegateError else if truncated then MaximumWrite else NoError;
    }
  }
}
