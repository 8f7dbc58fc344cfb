/** The single-use token cache of streaming/request_cache.go.

    The code keeps a token map and an age-ordered list, collects expired entries only from the old
    end of the list and only on insert.  The specification is a plain map from token to request and
    expiry time from which nothing is ever collected; the two give the same answers on every
    sequence of operations whose clock readings do not decrease. */
module RequestCache {
  import opened Text
  import opened TokenText

  const CACHE_TTL := 60_000_000_000   // one minute, in nanoseconds
  const MAX_IN_FLIGHT := 1000
  const MAX_TRIES := 10

  type Request = nat   // the identity of a request object
  type Time = int

  datatype Entry = Entry(token: string, req: Request, expireTime: Time)

  /** `ll` is the list from front (newest) to back (oldest). */
  datatype Cache = Cache(ll: seq<Entry>, tokens: map<string, Entry>)

  /** One call of rand.Read. */
  datatype Draw = Fails | Raw(bytes: seq<Byte>)

  ghost predicate ValidDraws(draws: seq<Draw>) {
    |draws| >= MAX_TRIES && forall d :: d in draws && d.Raw? ==> |d.bytes| == TokenSize(TOKEN_LEN)
  }

  datatype TokenResult = Token(token: string) | RandError | NoUniqueToken

  datatype InsertResult = Inserted(token: string) | TooManyInFlight | NoToken(error: TokenResult)

  // ---- what the code computes ---------------------------------------------------------------------

  function GcList(ll: seq<Entry>, now: Time): seq<Entry> {
    if ll == [] || now <= ll[|ll| - 1].expireTime then ll else GcList(ll[..|ll| - 1], now)
  }

  function GcTokens(ll: seq<Entry>, tokens: map<string, Entry>, now: Time): map<string, Entry> {
    if ll == [] || now <= ll[|ll| - 1].expireTime then tokens
    else GcTokens(ll[..|ll| - 1], tokens - {ll[|ll| - 1].token}, now)
  }

  function Gc(c: Cache, now: Time): Cache {
    Cache(GcList(c.ll, now), GcTokens(c.ll, c.tokens, now))
  }

  /** uniqueToken from its i-th try on; it looks the whole encoded text up and returns a prefix of it. */
  function UniqueToken(taken: set<string>, draws: seq<Draw>, i: nat): TokenResult
    requires ValidDraws(draws)
    decreases MAX_TRIES - i
  {
    if i >= MAX_TRIES then NoUniqueToken
    else if draws[i].Fails? then RandError
    else
      var encoded := EncodeRaw(draws[i].bytes);
      EncodedTokenLength(draws[i].bytes);
      if encoded !in taken then Token(encoded[..TOKEN_LEN]) else UniqueToken(taken, draws, i + 1)
  }

  function Insert(c: Cache, req: Request, draws: seq<Draw>, now: Time, later: Time): (Cache, InsertResult)
    requires ValidDraws(draws)
  {
    var g := Gc(c, now);
    if |g.ll| == MAX_IN_FLIGHT then (g, TooManyInFlight)
    else
      var t := UniqueToken(g.tokens.Keys, draws, 0);
      if !t.Token? then (g, NoToken(t))
      else
        var e := Entry(t.token, req, later + CACHE_TTL);
        (Cache([e] + g.ll, g.tokens[t.token := e]), Inserted(t.token))
  }

  function RemoveEntry(ll: seq<Entry>, e: Entry): seq<Entry> {
    if ll == [] then [] else if ll[0] == e then ll[1..] else [ll[0]] + RemoveEntry(ll[1..], e)
  }

  function Consume(c: Cache, token: string, now: Time): (Cache, Option<Request>) {
    if token !in c.tokens then (c, None)
    else
      var e := c.tokens[token];
      (Cache(RemoveEntry(c.ll, e), c.tokens - {token}), if now > e.expireTime then None else Some(e.req))
  }

  // ---- the specification: a plain map, never collected --------------------------------------------------

  type Plain = map<string, (Request, Time)>

  /** The tokens whose requests are neither consumed nor expired. */
  function Live(m: Plain, now: Time): set<string> {
    set t | t in m && now <= m[t].1
  }

  function PlainInsert(m: Plain, req: Request, draws: seq<Draw>, now: Time, later: Time): (Plain, InsertResult)
    requires ValidDraws(draws)
  {
    if |Live(m, now)| == MAX_IN_FLIGHT then (m, TooManyInFlight)
    else
      var t := UniqueToken(Live(m, now), draws, 0);
      if !t.Token? then (m, NoToken(t)) else (m[t.token := (req, later + CACHE_TTL)], Inserted(t.token))
  }

  function PlainConsume(m: Plain, token: string, now: Time): (Plain, Option<Request>) {
    if token in m && now <= m[token].1 then (m - {token}, Some(m[token].0)) else (m - {token}, None)
  }

  // ---- the list and the map of the cache ----------------------------------------------------------------

  /** List and map are in bijection, and the list is sorted by expiry, oldest at the back. */
  ghost predicate WF(c: Cache) {
    ListInMap(c) && MapInList(c) && Distinct(c.ll) && Sorted(c.ll)
  }

  ghost predicate ListInMap(c: Cache) {
    forall i :: 0 <= i < |c.ll| ==> c.ll[i].token in c.tokens && c.tokens[c.ll[i].token] == c.ll[i]
  }

  ghost predicate MapInList(c: Cache) {
    forall t :: t in c.tokens ==> c.tokens[t] in c.ll && c.tokens[t].token == t
  }

  ghost predicate Distinct(ll: seq<Entry>) {
    forall i, j :: 0 <= i < j < |ll| ==> ll[i].token != ll[j].token
  }

  ghost predicate Sorted(ll: seq<Entry>) {
    forall i, j :: 0 <= i < j < |ll| ==> ll[i].expireTime >= ll[j].expireTime
  }

  lemma {:induction false} SizesAgree(c: Cache)
    requires WF(c)
    ensures |c.ll| == |c.tokens|
    decreases |c.ll|
  {
    if c.ll == [] {
      assert c.tokens == map[];
    } else {
      var e := c.ll[|c.ll| - 1];
      var c' := Cache(c.ll[..|c.ll| - 1], c.tokens - {e.token});
      DropBack(c);
      SizesAgree(c');
      assert c.tokens.Keys == c'.tokens.Keys + {e.token};
      assert |c.tokens.Keys| == |c.tokens| && |c'.tokens.Keys| == |c'.tokens|;
    }
  }

  lemma DropBack(c: Cache)
    requires WF(c) && c.ll != []
    ensures WF(Cache(c.ll[..|c.ll| - 1], c.tokens - {c.ll[|c.ll| - 1].token}))
  {
  }

  ghost function Unexpired(tokens: map<string, Entry>, now: Time): map<string, Entry> {
    map t | t in tokens && now <= tokens[t].expireTime :: tokens[t]
  }

  lemma OldestUnexpired(c: Cache, now: Time)
    requires WF(c) && c.ll != [] && now <= c.ll[|c.ll| - 1].expireTime
    ensures Unexpired(c.tokens, now) == c.tokens
  {
  }

  lemma OldestExpired(c: Cache, now: Time)
    requires WF(c) && c.ll != [] && c.ll[|c.ll| - 1].expireTime < now
    ensures var e := c.ll[|c.ll| - 1]; Unexpired(c.tokens - {e.token}, now) == Unexpired(c.tokens, now)
  {
  }

  /** The early stop is exact: collecting from the back removes all and only the expired entries. */
  lemma {:induction false} GcRemovesExactlyExpired(c: Cache, now: Time)
    requires WF(c)
    ensures WF(Gc(c, now)) && Gc(c, now).tokens == Unexpired(c.tokens, now)
    decreases |c.ll|
  {
    if c.ll == [] {
    } else if now <= c.ll[|c.ll| - 1].expireTime {
      OldestUnexpired(c, now);
    } else {
      DropBack(c);
      var e := c.ll[|c.ll| - 1];
      GcRemovesExactlyExpired(Cache(c.ll[..|c.ll| - 1], c.tokens - {e.token}), now);
      OldestExpired(c, now);
    }
  }

  lemma {:induction false} RemoveEntryDropsOne(ll: seq<Entry>, e: Entry) returns (k: nat)
    requires e in ll
    ensures k < |ll| && ll[k] == e && RemoveEntry(ll, e) == Without(ll, k)
  {
    if ll[0] == e {
      k := 0;
    } else {
      k := RemoveEntryDropsOne(ll[1..], e);
      k := k + 1;
    }
  }

  function Without(ll: seq<Entry>, k: nat): seq<Entry>
    requires k < |ll|
  {
    ll[..k] + ll[k + 1..]
  }

  function DropEntry(c: Cache, k: nat): Cache
    requires k < |c.ll|
  {
    Cache(Without(c.ll, k), c.tokens - {c.ll[k].token})
  }

  lemma DropKeepsMapInList(c: Cache, k: nat)
    requires MapInList(c) && k < |c.ll|
    ensures MapInList(DropEntry(c, k))
  {
  }

  lemma DropKeepsOrder(ll: seq<Entry>, k: nat)
    requires Distinct(ll) && Sorted(ll) && k < |ll|
    ensures Distinct(Without(ll, k)) && Sorted(Without(ll, k))
    ensures forall i :: 0 <= i < |ll| - 1 ==> Without(ll, k)[i].token != ll[k].token
  {
  }

  lemma DropKeepsListInMap(c: Cache, k: nat)
    requires ListInMap(c) && k < |c.ll|
    requires forall i :: 0 <= i < |c.ll| - 1 ==> Without(c.ll, k)[i].token != c.ll[k].token
    ensures ListInMap(DropEntry(c, k))
  {
  }

  lemma DropAt(c: Cache, k: nat)
    requires WF(c) && k < |c.ll|
    ensures WF(DropEntry(c, k))
  {
    DropKeepsMapInList(c, k);
    DropKeepsOrder(c.ll, k);
    DropKeepsListInMap(c, k);
  }

  lemma ConsumeKeepsWF(c: Cache, token: string, now: Time)
    requires WF(c)
    ensures WF(Consume(c, token, now).0)
  {
    if token in c.tokens {
      var k := RemoveEntryDropsOne(c.ll, c.tokens[token]);
      DropAt(c, k);
    }
  }

  /** A token that was returned is fresh for the set it was checked against, and URL-safe. */
  lemma {:induction false} UniqueTokenIsFresh(taken: set<string>, draws: seq<Draw>, i: nat)
    requires ValidDraws(draws)
    ensures var r := UniqueToken(taken, draws, i);
      r.Token? ==> r.token !in taken && |r.token| == TOKEN_LEN && forall c :: c in r.token ==> UrlSafe(c)
    decreases MAX_TRIES - i
  {
    if i < MAX_TRIES && draws[i].Raw? {
      var encoded := EncodeRaw(draws[i].bytes);
      EncodedTokenLength(draws[i].bytes);
      assert encoded[..TOKEN_LEN] == encoded;
      EncodeRawIsUrlSafe(draws[i].bytes);
      UniqueTokenIsFresh(taken, draws, i + 1);
    }
  }

  /** The first i draws gave bytes, and tokens that are taken. */
  ghost predicate Tried(taken: set<string>, draws: seq<Draw>, i: nat) {
    && i <= MAX_TRIES <= |draws|
    && forall k :: 0 <= k < i ==> draws[k].Raw? && EncodeRaw(draws[k].bytes) in taken
  }

  /** The i-th draw is the first to give a token that is not taken. */
  ghost predicate FirstFree(taken: set<string>, draws: seq<Draw>, i: nat) {
    i < MAX_TRIES && Tried(taken, draws, i) && draws[i].Raw? && EncodeRaw(draws[i].bytes) !in taken
  }

  /** The i-th draw fails before any gave a token that is not taken. */
  ghost predicate FirstFails(taken: set<string>, draws: seq<Draw>, i: nat) {
    i < MAX_TRIES && Tried(taken, draws, i) && draws[i].Fails?
  }

  /** One try. */
  lemma UniqueTokenStep(taken: set<string>, draws: seq<Draw>, i: nat)
    requires ValidDraws(draws) && i < MAX_TRIES
    ensures UniqueToken(taken, draws, i) ==
      if draws[i].Fails? then RandError
      else if EncodeRaw(draws[i].bytes) !in taken then Token(EncodeRaw(draws[i].bytes))
      else UniqueToken(taken, draws, i + 1)
  {
    if draws[i].Raw? {
      var encoded := EncodeRaw(draws[i].bytes);
      EncodedTokenLength(draws[i].bytes);
      assert encoded[..TOKEN_LEN] == encoded;
    }
  }

  /** The i-th try, or the end of the tries, gives `r`. */
  ghost predicate StopsWith(taken: set<string>, draws: seq<Draw>, i: nat, r: TokenResult) {
    && Tried(taken, draws, i)
    && if i == MAX_TRIES then r == NoUniqueToken
       else if draws[i].Fails? then r == RandError
       else EncodeRaw(draws[i].bytes) !in taken && r == Token(EncodeRaw(draws[i].bytes))
  }

  lemma {:induction false} WhereUniqueTokenStops(taken: set<string>, draws: seq<Draw>, from: nat, r: TokenResult) returns (i: nat)
    requires ValidDraws(draws) && Tried(taken, draws, from) && r == UniqueToken(taken, draws, from)
    ensures StopsWith(taken, draws, i, r)
    decreases MAX_TRIES - from
  {
    i := from;
    if from < MAX_TRIES {
      UniqueTokenStep(taken, draws, from);
      if draws[from].Raw? && EncodeRaw(draws[from].bytes) in taken {
        i := WhereUniqueTokenStops(taken, draws, from + 1, r);
      }
    }
  }

  /** What uniqueToken is to return, by the draws alone. */
  ghost predicate AnswersToken(taken: set<string>, draws: seq<Draw>, r: TokenResult) {
    && (r.Token? <==> exists i: nat :: FirstFree(taken, draws, i))
    && (forall i: nat :: FirstFree(taken, draws, i) ==> r == Token(EncodeRaw(draws[i].bytes)))
    && (r == RandError <==> exists i: nat :: FirstFails(taken, draws, i))
    && (r == NoUniqueToken <==> Tried(taken, draws, MAX_TRIES))
  }

  lemma UniqueTokenIff(taken: set<string>, draws: seq<Draw>)
    requires ValidDraws(draws)
    ensures AnswersToken(taken, draws, UniqueToken(taken, draws, 0))
  {
    var i := WhereUniqueTokenStops(taken, draws, 0, UniqueToken(taken, draws, 0));
    if i < MAX_TRIES {
      assert FirstFails(taken, draws, i) || FirstFree(taken, draws, i);
    }
    forall k: nat | FirstFree(taken, draws, k) ensures k == i { }
  }

  // ---- refinement -------------------------------------------------------------------------------------------

  /** The cache `c` and the plain map `m` after operations whose last clock reading was `clock`. */
  ghost predicate Related(c: Cache, m: Plain, clock: Time) {
    && WF(c)
    && (forall t :: t in c.tokens ==> t in m && m[t] == (c.tokens[t].req, c.tokens[t].expireTime))
    && (forall t :: t in m && t !in c.tokens ==> m[t].1 < clock)
    && (forall t :: t in c.tokens ==> c.tokens[t].expireTime <= clock + CACHE_TTL)
  }

  lemma GcShowsLive(c: Cache, m: Plain, clock: Time, now: Time)
    requires Related(c, m, clock) && clock <= now
    ensures Related(Gc(c, now), m, now) && Gc(c, now).tokens.Keys == Live(m, now)
    ensures |Gc(c, now).ll| == |Live(m, now)|
  {
    GcRemovesExactlyExpired(c, now);
    SizesAgree(Gc(c, now));
    assert |Gc(c, now).tokens| == |Gc(c, now).tokens.Keys|;
  }

  lemma PushFrontRelated(g: Cache, m: Plain, e: Entry, now: Time, later: Time)
    requires Related(g, m, now) && now <= later && e.expireTime == later + CACHE_TTL && e.token !in g.tokens
    ensures Related(Cache([e] + g.ll, g.tokens[e.token := e]), m[e.token := (e.req, e.expireTime)], later)
  {
  }

  lemma LaterRelated(c: Cache, m: Plain, clock: Time, later: Time)
    requires Related(c, m, clock) && clock <= later
    ensures Related(c, m, later)
  {
  }

  /** What an Insert does after its collection. */
  lemma InsertCollected(g: Cache, m: Plain, req: Request, draws: seq<Draw>, now: Time, later: Time)
    requires Related(g, m, now) && now <= later && ValidDraws(draws)
    ensures var t := UniqueToken(g.tokens.Keys, draws, 0);
      && Related(g, m, later)
      && (t.Token? ==>
            var e := Entry(t.token, req, later + CACHE_TTL);
            Related(Cache([e] + g.ll, g.tokens[t.token := e]), m[t.token := (req, later + CACHE_TTL)], later))
  {
    var t := UniqueToken(g.tokens.Keys, draws, 0);
    LaterRelated(g, m, now, later);
    if t.Token? {
      assert t.token !in g.tokens by { UniqueTokenIsFresh(g.tokens.Keys, draws, 0); }
      PushFrontRelated(g, m, Entry(t.token, req, later + CACHE_TTL), now, later);
    }
  }

  lemma InsertRefines(c: Cache, m: Plain, clock: Time, req: Request, draws: seq<Draw>, now: Time, later: Time)
    requires Related(c, m, clock) && clock <= now <= later && ValidDraws(draws)
    ensures Insert(c, req, draws, now, later).1 == PlainInsert(m, req, draws, now, later).1
    ensures Related(Insert(c, req, draws, now, later).0, PlainInsert(m, req, draws, now, later).0, later)
  {
    var g := Gc(c, now);
    assert Related(g, m, now) && g.tokens.Keys == Live(m, now) && |g.ll| == |Live(m, now)| by {
      GcShowsLive(c, m, clock, now);
    }
    InsertCollected(g, m, req, draws, now, later);
  }

  lemma ConsumeRefines(c: Cache, m: Plain, clock: Time, token: string, now: Time)
    requires Related(c, m, clock) && clock <= now
    ensures Consume(c, token, now).1 == PlainConsume(m, token, now).1
    ensures Related(Consume(c, token, now).0, PlainConsume(m, token, now).0, now)
  {
    ConsumeKeepsWF(c, token, now);
  }

  // ---- runs -----------------------------------------------------------------------------------------------------

  /** Insert reads the clock twice: for the collection and for the expiry time. */
  datatype Op = InsertOp(req: Request, draws: seq<Draw>, now: Time, later: Time) | ConsumeOp(token: string, now: Time)

  datatype Out = InsertOut(result: InsertResult) | ConsumeOut(found: Option<Request>)

  function FirstReading(op: Op): Time { op.now }
  function LastReading(op: Op): Time { if op.InsertOp? then op.later else op.now }

  /** The clock does not decrease from reading to reading, starting at `clock`. */
  ghost predicate Ticks(ops: seq<Op>, clock: Time) {
    && (forall i :: 0 <= i < |ops| ==> FirstReading(ops[i]) <= LastReading(ops[i]))
    && (|ops| > 0 ==> clock <= FirstReading(ops[0]))
    && (forall i :: 0 < i < |ops| ==> LastReading(ops[i - 1]) <= FirstReading(ops[i]))
    && (forall i :: 0 <= i < |ops| && ops[i].InsertOp? ==> ValidDraws(ops[i].draws))
  }

  ghost function Apply(c: Cache, op: Op): (Cache, Out)
    requires op.InsertOp? ==> ValidDraws(op.draws)
  {
    match op
    case InsertOp(req, draws, now, later) =>
      var (c', r) := Insert(c, req, draws, now, later); (c', InsertOut(r))
    case ConsumeOp(token, now) =>
      var (c', r) := Consume(c, token, now); (c', ConsumeOut(r))
  }

  ghost function PlainApply(m: Plain, op: Op): (Plain, Out)
    requires op.InsertOp? ==> ValidDraws(op.draws)
  {
    match op
    case InsertOp(req, draws, now, later) =>
      var (m', r) := PlainInsert(m, req, draws, now, later); (m', InsertOut(r))
    case ConsumeOp(token, now) =>
      var (m', r) := PlainConsume(m, token, now); (m', ConsumeOut(r))
  }

  /** The cache, and the plain map, after the first n operations on an empty one. */
  ghost function CacheAfter(ops: seq<Op>, clock: Time, n: nat): Cache
    requires Ticks(ops, clock) && n <= |ops|
  {
    if n == 0 then Cache([], map[]) else Apply(CacheAfter(ops, clock, n - 1), ops[n - 1]).0
  }

  ghost function PlainAfter(ops: seq<Op>, clock: Time, n: nat): Plain
    requires Ticks(ops, clock) && n <= |ops|
  {
    if n == 0 then map[] else PlainApply(PlainAfter(ops, clock, n - 1), ops[n - 1]).0
  }

  /** What the code answers to the n-th operation. */
  ghost function Answer(ops: seq<Op>, clock: Time, n: nat): Out
    requires Ticks(ops, clock) && n < |ops|
  {
    Apply(CacheAfter(ops, clock, n), ops[n]).1
  }

  lemma {:induction false} RunsStayRelated(ops: seq<Op>, clock: Time, n: nat)
    requires Ticks(ops, clock) && n <= |ops|
    ensures Related(CacheAfter(ops, clock, n), PlainAfter(ops, clock, n),
                    if n == 0 then clock else LastReading(ops[n - 1]))
  {
    if n > 0 {
      RunsStayRelated(ops, clock, n - 1);
      var c, m := CacheAfter(ops, clock, n - 1), PlainAfter(ops, clock, n - 1);
      var before := if n == 1 then clock else LastReading(ops[n - 2]);
      match ops[n - 1]
      case InsertOp(req, draws, now, later) => InsertRefines(c, m, before, req, draws, now, later);
      case ConsumeOp(token, now) => ConsumeRefines(c, m, before, token, now);
    }
  }

  ghost function PlainAnswer(ops: seq<Op>, clock: Time, n: nat): Out
    requires Ticks(ops, clock) && n < |ops|
  {
    PlainApply(PlainAfter(ops, clock, n), ops[n]).1
  }

  /** Refinement: on every sequence of operations the cache answers as the plain map does. */
  lemma CacheRefinesPlainMap(ops: seq<Op>, clock: Time, n: nat)
    requires Ticks(ops, clock) && n < |ops|
    ensures Answer(ops, clock, n) == PlainAnswer(ops, clock, n)
  {
    RunsStayRelated(ops, clock, n);
    var c, m := CacheAfter(ops, clock, n), PlainAfter(ops, clock, n);
    var before := if n == 0 then clock else LastReading(ops[n - 1]);
    match ops[n]
    case InsertOp(req, draws, now, later) => InsertRefines(c, m, before, req, draws, now, later);
    case ConsumeOp(token, now) => ConsumeRefines(c, m, before, token, now);
  }

  /** In every run list and map stay in bijection, sorted by expiry. */
  lemma ListAndMapAgree(ops: seq<Op>, clock: Time, n: nat)
    requires Ticks(ops, clock) && n <= |ops|
    ensures WF(CacheAfter(ops, clock, n)) && |CacheAfter(ops, clock, n).ll| == |CacheAfter(ops, clock, n).tokens|
  {
    RunsStayRelated(ops, clock, n);
    SizesAgree(CacheAfter(ops, clock, n));
  }

  /** Insert is refused for capacity exactly when the limit of live requests is reached, and the
      token it returns is never the token of a live request. */
  lemma InsertLimitAndFreshness(ops: seq<Op>, clock: Time, n: nat)
    requires Ticks(ops, clock) && n < |ops| && ops[n].InsertOp?
    ensures var live := Live(PlainAfter(ops, clock, n), ops[n].now);
      && (Answer(ops, clock, n) == InsertOut(TooManyInFlight) <==> |live| == MAX_IN_FLIGHT)
      && (Answer(ops, clock, n).result.Inserted? ==> Answer(ops, clock, n).result.token !in live)
  {
    CacheRefinesPlainMap(ops, clock, n);
    UniqueTokenIsFresh(Live(PlainAfter(ops, clock, n), ops[n].now), ops[n].draws, 0);
  }

  /** The operation, with its answer, put `req` in under `token`; and: it concerned `token` at all. */
  ghost predicate Inserts(op: Op, out: Out, token: string, req: Request) {
    op.InsertOp? && op.req == req && out == InsertOut(Inserted(token))
  }

  ghost predicate Touches(op: Op, out: Out, token: string) {
    (op.ConsumeOp? && op.token == token) || out == InsertOut(Inserted(token))
  }

  lemma PlainStepOrigin(m: Plain, op: Op, token: string)
    requires (op.InsertOp? ==> ValidDraws(op.draws)) && token in PlainApply(m, op).0
    ensures var (m', out) := PlainApply(m, op);
      if Touches(op, out, token) then Inserts(op, out, token, m'[token].0) && m'[token].1 == op.later + CACHE_TTL
      else token in m && m'[token] == m[token]
  {
  }

  ghost predicate Carries(op: Op, out: Out, m: Plain, m': Plain) {
    forall t :: t in m' ==>
      if Touches(op, out, t) then Inserts(op, out, t, m'[t].0) && m'[t].1 == op.later + CACHE_TTL
      else t in m && m'[t] == m[t]
  }

  lemma {:induction false} OriginInTrace(ops: seq<Op>, outs: seq<Out>, ms: seq<Plain>, n: nat, token: string) returns (j: nat)
    requires |ops| >= n && |outs| >= n && |ms| > n && ms[0] == map[] && token in ms[n]
    requires forall k :: 0 <= k < n ==> Carries(ops[k], outs[k], ms[k], ms[k + 1])
    ensures j < n && Inserts(ops[j], outs[j], token, ms[n][token].0)
    ensures ms[n][token].1 == ops[j].later + CACHE_TTL
    ensures forall k :: j < k < n ==> !Touches(ops[k], outs[k], token)
  {
    assert n > 0;
    assert Carries(ops[n - 1], outs[n - 1], ms[n - 1], ms[n]);
    if Touches(ops[n - 1], outs[n - 1], token) {
      j := n - 1;
    } else {
      j := OriginInTrace(ops, outs, ms, n - 1, token);
    }
  }

  /** Every token of the plain map has an insert behind it that nothing has touched since. */
  lemma Origin(ops: seq<Op>, clock: Time, n: nat, token: string) returns (j: nat)
    requires Ticks(ops, clock) && n <= |ops| && token in PlainAfter(ops, clock, n)
    ensures j < n && Inserts(ops[j], PlainAnswer(ops, clock, j), token, PlainAfter(ops, clock, n)[token].0)
    ensures PlainAfter(ops, clock, n)[token].1 == ops[j].later + CACHE_TTL
    ensures forall k :: j < k < n ==> !Touches(ops[k], PlainAnswer(ops, clock, k), token)
  {
    var outs := seq(n, k requires 0 <= k < n => PlainAnswer(ops, clock, k));
    var ms := seq(n + 1, k requires 0 <= k <= n => PlainAfter(ops, clock, k));
    forall k | 0 <= k < n ensures Carries(ops[k], outs[k], ms[k], ms[k + 1]) {
      forall t | t in ms[k + 1] { PlainStepOrigin(ms[k], ops[k], t); }
    }
    j := OriginInTrace(ops, outs, ms, n, token);
    forall k | j < k < n ensures !Touches(ops[k], PlainAnswer(ops, clock, k), token) {
      assert outs[k] == PlainAnswer(ops, clock, k);
    }
  }

  /** Single use: a request handed out was put in by an earlier insert that returned this token,
      not longer ago than the time to live, and no operation on the token came in between.  So a
      request is handed out at most once, never after expiry, and only for its own token. */
  lemma ConsumeIsSingleUse(ops: seq<Op>, clock: Time, n: nat) returns (j: nat)
    requires Ticks(ops, clock) && n < |ops| && ops[n].ConsumeOp? && Answer(ops, clock, n).found.Some?
    ensures j < n && Inserts(ops[j], Answer(ops, clock, j), ops[n].token, Answer(ops, clock, n).found.value)
    ensures ops[n].now <= ops[j].later + CACHE_TTL
    ensures forall k :: j < k < n ==> !Touches(ops[k], Answer(ops, clock, k), ops[n].token)
  {
    CacheRefinesPlainMap(ops, clock, n);
    j := Origin(ops, clock, n, ops[n].token);
    CacheRefinesPlainMap(ops, clock, j);
    forall k | j < k < n ensures !Touches(ops[k], Answer(ops, clock, k), ops[n].token) {
      CacheRefinesPlainMap(ops, clock, k);
    }
  }

  // ---- answers, by the history alone ---------------------------------------------------------------------------

  /** The j-th operation returned `token` for `req`, and no operation before the n-th concerned it since. */
  ghost predicate Stands(ops: seq<Op>, clock: Time, j: nat, n: nat, token: string, req: Request)
    requires Ticks(ops, clock) && n <= |ops|
  {
    && j < n && Inserts(ops[j], Answer(ops, clock, j), token, req)
    && forall k :: j < k < n ==> !Touches(ops[k], Answer(ops, clock, k), token)
  }

  /** It does, and its time to live is not over at the n-th operation. */
  ghost predicate StandsInTime(ops: seq<Op>, clock: Time, j: nat, n: nat, token: string, req: Request)
    requires Ticks(ops, clock) && n < |ops|
  {
    Stands(ops, clock, j, n, token, req) && ops[n].now <= ops[j].later + CACHE_TTL
  }

  /** The tokens returned before the n-th operation that nothing has concerned since and that are in time. */
  ghost function InFlight(ops: seq<Op>, clock: Time, n: nat): set<string>
    requires Ticks(ops, clock) && n < |ops|
  {
    set j | 0 <= j < n && ops[j].InsertOp? && Answer(ops, clock, j).result.Inserted?
            && StandsInTime(ops, clock, j, n, Answer(ops, clock, j).result.token, ops[j].req)
          :: Answer(ops, clock, j).result.token
  }

  /** One operation on the plain map, forwards. */
  ghost predicate Keeps(op: Op, out: Out, m: Plain, m': Plain, token: string, req: Request) {
    && (Inserts(op, out, token, req) ==> token in m' && m'[token] == (req, op.later + CACHE_TTL))
    && (token in m && !Touches(op, out, token) ==> token in m' && m'[token] == m[token])
  }

  lemma PlainStepKeeps(m: Plain, op: Op, token: string, req: Request)
    requires op.InsertOp? ==> ValidDraws(op.draws)
    ensures Keeps(op, PlainApply(m, op).1, m, PlainApply(m, op).0, token, req)
  {
  }

  lemma {:induction false} HeldInTrace(ops: seq<Op>, outs: seq<Out>, ms: seq<Plain>, j: nat, n: nat, token: string, req: Request)
    requires j < n <= |ops| && |outs| >= n && |ms| > n && Inserts(ops[j], outs[j], token, req)
    requires forall k :: 0 <= k < n ==> Keeps(ops[k], outs[k], ms[k], ms[k + 1], token, req)
    requires forall k :: j < k < n ==> !Touches(ops[k], outs[k], token)
    ensures token in ms[n] && ms[n][token] == (req, ops[j].later + CACHE_TTL)
    decreases n
  {
    assert Keeps(ops[n - 1], outs[n - 1], ms[n - 1], ms[n], token, req);
    if j < n - 1 {
      HeldInTrace(ops, outs, ms, j, n - 1, token, req);
    }
  }

  lemma AnswerKeeps(ops: seq<Op>, clock: Time, k: nat, token: string, req: Request)
    requires Ticks(ops, clock) && k < |ops|
    ensures Keeps(ops[k], Answer(ops, clock, k), PlainAfter(ops, clock, k), PlainAfter(ops, clock, k + 1), token, req)
  {
    CacheRefinesPlainMap(ops, clock, k);
    PlainStepKeeps(PlainAfter(ops, clock, k), ops[k], token, req);
  }

  lemma StandingIsHeld(ops: seq<Op>, clock: Time, j: nat, n: nat, token: string, req: Request)
    requires Ticks(ops, clock) && n <= |ops| && Stands(ops, clock, j, n, token, req)
    ensures var m := PlainAfter(ops, clock, n); token in m && m[token] == (req, ops[j].later + CACHE_TTL)
  {
    var outs := seq(n, k requires 0 <= k < n => Answer(ops, clock, k));
    var ms := seq(n + 1, k requires 0 <= k <= n => PlainAfter(ops, clock, k));
    forall k | 0 <= k < n ensures Keeps(ops[k], outs[k], ms[k], ms[k + 1], token, req) {
      AnswerKeeps(ops, clock, k, token, req);
    }
    HeldInTrace(ops, outs, ms, j, n, token, req);
  }

  lemma HeldStands(ops: seq<Op>, clock: Time, n: nat, token: string) returns (j: nat)
    requires Ticks(ops, clock) && n <= |ops| && token in PlainAfter(ops, clock, n)
    ensures var (req, expiry) := PlainAfter(ops, clock, n)[token];
      Stands(ops, clock, j, n, token, req) && expiry == ops[j].later + CACHE_TTL
  {
    j := Origin(ops, clock, n, token);
    CacheRefinesPlainMap(ops, clock, j);
    forall k | j < k < n ensures !Touches(ops[k], Answer(ops, clock, k), token) {
      CacheRefinesPlainMap(ops, clock, k);
    }
  }

  lemma InFlightIff(ops: seq<Op>, clock: Time, n: nat, token: string)
    requires Ticks(ops, clock) && n < |ops|
    ensures token in InFlight(ops, clock, n) <==> exists j: nat, req :: StandsInTime(ops, clock, j, n, token, req)
  {
    if j: nat, req :| StandsInTime(ops, clock, j, n, token, req) {
      assert Answer(ops, clock, j).result.token == token && ops[j].req == req;
    }
  }

  lemma LiveIff(ops: seq<Op>, clock: Time, n: nat, token: string)
    requires Ticks(ops, clock) && n < |ops|
    ensures token in Live(PlainAfter(ops, clock, n), ops[n].now) <==>
            exists j: nat, req :: StandsInTime(ops, clock, j, n, token, req)
  {
    var m := PlainAfter(ops, clock, n);
    if token in Live(m, ops[n].now) {
      var j := HeldStands(ops, clock, n, token);
      assert StandsInTime(ops, clock, j, n, token, m[token].0);
    }
    if j: nat, req :| StandsInTime(ops, clock, j, n, token, req) {
      StandingIsHeld(ops, clock, j, n, token, req);
    }
  }

  /** The plain map's live tokens are those in flight. */
  lemma LiveIsInFlight(ops: seq<Op>, clock: Time, n: nat)
    requires Ticks(ops, clock) && n < |ops|
    ensures Live(PlainAfter(ops, clock, n), ops[n].now) == InFlight(ops, clock, n)
  {
    forall t ensures t in Live(PlainAfter(ops, clock, n), ops[n].now) <==> t in InFlight(ops, clock, n) {
      LiveIff(ops, clock, n, t);
      InFlightIff(ops, clock, n, t);
    }
  }

  lemma {:induction false} NeverOverLimit(ops: seq<Op>, clock: Time, n: nat)
    requires Ticks(ops, clock) && n <= |ops|
    ensures |CacheAfter(ops, clock, n).ll| <= MAX_IN_FLIGHT
  {
    if n > 0 {
      NeverOverLimit(ops, clock, n - 1);
      var c := CacheAfter(ops, clock, n - 1);
      match ops[n - 1]
      case InsertOp(_, _, now, _) => GcListShrinks(c.ll, now);
      case ConsumeOp(token, _) =>
        RunsStayRelated(ops, clock, n - 1);
        if token in c.tokens {
          var k := RemoveEntryDropsOne(c.ll, c.tokens[token]);
        }
    }
  }

  lemma {:induction false} GcListShrinks(ll: seq<Entry>, now: Time)
    ensures |GcList(ll, now)| <= |ll|
  {
    if ll != [] && now > ll[|ll| - 1].expireTime { GcListShrinks(ll[..|ll| - 1], now); }
  }

  lemma InFlightAtMostLimit(ops: seq<Op>, clock: Time, n: nat)
    requires Ticks(ops, clock) && n < |ops|
    ensures |InFlight(ops, clock, n)| <= MAX_IN_FLIGHT
  {
    var c, m := CacheAfter(ops, clock, n), PlainAfter(ops, clock, n);
    RunsStayRelated(ops, clock, n);
    NeverOverLimit(ops, clock, n);
    GcShowsLive(c, m, if n == 0 then clock else LastReading(ops[n - 1]), ops[n].now);
    GcListShrinks(c.ll, ops[n].now);
    LiveIsInFlight(ops, clock, n);
  }

  /** When an Insert succeeds and with which token, and when it fails and how: by the tokens in flight and
      the random draws alone. */
  ghost predicate AnswersInsert(live: set<string>, draws: seq<Draw>, r: InsertResult) {
    && |live| <= MAX_IN_FLIGHT && |draws| >= MAX_TRIES
    && (r.Inserted? <==> |live| < MAX_IN_FLIGHT && exists i: nat :: FirstFree(live, draws, i))
    && (forall i: nat :: r.Inserted? && FirstFree(live, draws, i) ==> r.token == EncodeRaw(draws[i].bytes))
    && (r == TooManyInFlight <==> |live| == MAX_IN_FLIGHT)
    && (r == NoToken(RandError) <==> |live| < MAX_IN_FLIGHT && exists i: nat :: FirstFails(live, draws, i))
    && (r == NoToken(NoUniqueToken) <==> |live| < MAX_IN_FLIGHT && Tried(live, draws, MAX_TRIES))
  }

  lemma PlainInsertAnswers(m: Plain, req: Request, draws: seq<Draw>, now: Time, later: Time)
    requires ValidDraws(draws) && |Live(m, now)| <= MAX_IN_FLIGHT
    ensures AnswersInsert(Live(m, now), draws, PlainInsert(m, req, draws, now, later).1)
  {
    UniqueTokenIff(Live(m, now), draws);
  }

  lemma InsertAnswers(c: Cache, req: Request, draws: seq<Draw>, now: Time, later: Time)
    requires WF(c) && |c.ll| <= MAX_IN_FLIGHT && ValidDraws(draws)
    ensures AnswersInsert(Unexpired(c.tokens, now).Keys, draws, Insert(c, req, draws, now, later).1)
  {
    var g := Gc(c, now);
    GcRemovesExactlyExpired(c, now);
    GcListShrinks(c.ll, now);
    SizesAgree(g);
    assert |g.tokens.Keys| == |g.tokens|;
    UniqueTokenIff(g.tokens.Keys, draws);
  }

  lemma InsertAnswersIff(ops: seq<Op>, clock: Time, n: nat)
    requires Ticks(ops, clock) && n < |ops| && ops[n].InsertOp?
    ensures AnswersInsert(InFlight(ops, clock, n), ops[n].draws, Answer(ops, clock, n).result)
  {
    LiveIsInFlight(ops, clock, n);
    InFlightAtMostLimit(ops, clock, n);
    CacheRefinesPlainMap(ops, clock, n);
    var op := ops[n];
    PlainInsertAnswers(PlainAfter(ops, clock, n), op.req, op.draws, op.now, op.later);
  }

  /** A Consume is answered with a request exactly if an Insert returned this token for it, no operation on the
      token came in between, and the time to live is not over. */
  lemma ConsumeAnswersIff(ops: seq<Op>, clock: Time, n: nat, req: Request)
    requires Ticks(ops, clock) && n < |ops| && ops[n].ConsumeOp?
    ensures Answer(ops, clock, n) == ConsumeOut(Some(req)) <==>
            exists j: nat :: StandsInTime(ops, clock, j, n, ops[n].token, req)
  {
    CacheRefinesPlainMap(ops, clock, n);
    if Answer(ops, clock, n) == ConsumeOut(Some(req)) {
      var j := HeldStands(ops, clock, n, ops[n].token);
      assert StandsInTime(ops, clock, j, n, ops[n].token, req);
    }
    if j: nat :| StandsInTime(ops, clock, j, n, ops[n].token, req) {
      StandingIsHeld(ops, clock, j, n, ops[n].token, req);
    }
  }

  // ---- the cache object ------------------------------------------------------------------------------------------

  class RequestCacheObject {
    var tokens: map<string, Entry>
    var ll: seq<Entry>

    ghost function View(): Cache
      reads this
    {
      Cache(ll, tokens)
    }

    constructor ()
      ensures View() == Cache([], map[])
    {
      tokens, ll := map[], [];
    }

    method CollectExpired(now: Time)
      modifies this
      ensures View() == Gc(old(View()), now)
    {
      while |ll| > 0
        invariant Gc(View(), now) == Gc(old(View()), now)
        decreases |ll|
      {
        var oldest := ll[|ll| - 1];
        if now <= oldest.expireTime {
          return;
        }
        ll := ll[..|ll| - 1];
        tokens := tokens - {oldest.token};
      }
    }

    method DrawToken(draws: seq<Draw>) returns (r: TokenResult)
      requires ValidDraws(draws)
      ensures r == UniqueToken(tokens.Keys, draws, 0)
      ensures AnswersToken(tokens.Keys, draws, r)
    {
      UniqueTokenIff(tokens.Keys, draws);
      for i := 0 to MAX_TRIES
        invariant UniqueToken(tokens.Keys, draws, 0) == UniqueToken(tokens.Keys, draws, i)
      {
        if draws[i].Fails? {
          return RandError;
        }
        var encoded := EncodeRaw(draws[i].bytes);
        EncodedTokenLength(draws[i].bytes);
        if encoded !in tokens {
          return Token(encoded[..TOKEN_LEN]);
        }
      }
      r := NoUniqueToken;
    }

    method Put(req: Request, draws: seq<Draw>, now: Time, later: Time) returns (r: InsertResult)
      requires ValidDraws(draws)
      modifies this
      ensures (View(), r) == Insert(old(View()), req, draws, now, later)
      ensures WF(old(View())) && |old(ll)| <= MAX_IN_FLIGHT ==>
              AnswersInsert(Unexpired(old(tokens), now).Keys, draws, r)
    {
      if WF(View()) && |ll| <= MAX_IN_FLIGHT {
        InsertAnswers(View(), req, draws, now, later);
      }
      CollectExpired(now);
      if |ll| == MAX_IN_FLIGHT {
        return TooManyInFlight;
      }
      var t := DrawToken(draws);
      if !t.Token? {
        return NoToken(t);
      }
      var e := Entry(t.token, req, later + CACHE_TTL);
      ll := [e] + ll;
      tokens := tokens[t.token := e];
      r := Inserted(t.token);
    }

    method Take(token: string, now: Time) returns (found: Option<Request>)
      modifies this
      ensures (View(), found) == Consume(old(View()), token, now)
    {
      if token !in tokens {
        return None;
      }
      var e := tokens[token];
      ll := RemoveEntry(ll, e);
      tokens := tokens - {token};
      found := if now > e.expireTime then None else Some(e.req);
    }
  }
}

/** Raw URL-safe base64 without padding, section 5 of RFC 4648, and the token length. */
module TokenText {

  const TOKEN_LEN := 8

  type Byte = n: nat | n < 256

  /** The number of random bytes drawn for a token of `len` characters: ceil(len * 6 / 8). */
  function TokenSize(len: nat): nat { (len * 6 + 7) / 8 }

  predicate UrlSafe(c: char) {
    'A' <= c <= 'Z' || 'a' <= c <= 'z' || '0' <= c <= '9' || c == '-' || c == '_'
  }

  function Alpha(i: nat): (c: char)
    requires i < 64
    ensures UrlSafe(c)
  {
    if i < 26 then ('A' as int + i) as char
    else if i < 52 then ('a' as int + (i - 26)) as char
    else if i < 62 then ('0' as int + (i - 52)) as char
    else if i == 62 then '-' else '_'
  }

  lemma AlphaInjective(i: nat, j: nat)
    requires i < 64 && j < 64 && Alpha(i) == Alpha(j)
    ensures i == j
  {
  }

  function EncodeRaw(b: seq<Byte>): string {
    if |b| == 0 then ""
    else if |b| == 1 then [Alpha(b[0] / 4), Alpha(b[0] % 4 * 16)]
    else if |b| == 2 then [Alpha(b[0] / 4), Alpha(b[0] % 4 * 16 + b[1] / 16), Alpha(b[1] % 16 * 4)]
    else [Alpha(b[0] / 4), Alpha(b[0] % 4 * 16 + b[1] / 16), Alpha(b[1] % 16 * 4 + b[2] / 64), Alpha(b[2] % 64)]
         + EncodeRaw(b[3..])
  }

  lemma {:induction false} EncodeRawLength(b: seq<Byte>)
    ensures |EncodeRaw(b)| == (|b| * 8 + 5) / 6
  {
    if |b| >= 3 { EncodeRawLength(b[3..]); }
  }

  lemma {:induction false} EncodeRawIsUrlSafe(b: seq<Byte>)
    ensures forall c :: c in EncodeRaw(b) ==> UrlSafe(c)
  {
    if |b| >= 3 { EncodeRawIsUrlSafe(b[3..]); }
  }

  lemma EncodedTokenLength(b: seq<Byte>)
    requires |b| == TokenSize(TOKEN_LEN)
    ensures |EncodeRaw(b)| == TOKEN_LEN
  {
    assert |b| == 6;
    EncodeRawLength(b);
  }

  lemma TokenLengthArithmetic(q: nat, r: nat)
    requires r < 4
    ensures TokenSize(4 * q + r) == 3 * q + r
    ensures ((3 * q + r) * 8 + 5) / 6 == 4 * q + (if r == 0 then 0 else r + 1)
  {
  }

  /** The uniqueness check is made on the encoded text and the token is a prefix of it; the two are
      the same text exactly for the token lengths that are multiples of four, as 8 is. */
  lemma CheckedTextIsTheTokenIff(len: nat, b: seq<Byte>)
    requires |b| == TokenSize(len)
    ensures |EncodeRaw(b)| >= len && (EncodeRaw(b)[..len] == EncodeRaw(b) <==> len % 4 == 0)
  {
    EncodeRawLength(b);
    TokenLengthArithmetic(len / 4, len % 4);
  }

  lemma SextetsDetermineBytes(a: seq<Byte>, b: seq<Byte>)
    requires |a| == |b| == 3
    requires a[0] / 4 == b[0] / 4 && a[0] % 4 * 16 + a[1] / 16 == b[0] % 4 * 16 + b[1] / 16
    requires a[1] % 16 * 4 + a[2] / 64 == b[1] % 16 * 4 + b[2] / 64 && a[2] % 64 == b[2] % 64
    ensures a == b
  {
  }

  /** The first group, with the bytes that are missing read as zero. */
  function Group(b: seq<Byte>): (g: seq<Byte>)
    requires |b| > 0
    ensures |g| == 3
  {
    if |b| == 1 then [b[0], 0, 0] else if |b| == 2 then [b[0], b[1], 0] else b[..3]
  }

  lemma TextOfOne(b: seq<Byte>)
    requires |b| == 1
    ensures EncodeRaw(b) == [Alpha(b[0] / 4), Alpha(b[0] % 4 * 16)]
  {
  }

  lemma TextOfTwo(b: seq<Byte>)
    requires |b| == 2
    ensures EncodeRaw(b) == [Alpha(b[0] / 4), Alpha(b[0] % 4 * 16 + b[1] / 16), Alpha(b[1] % 16 * 4)]
  {
  }

  lemma TextOfThree(b: seq<Byte>)
    requires |b| >= 3
    ensures EncodeRaw(b) == [Alpha(b[0] / 4), Alpha(b[0] % 4 * 16 + b[1] / 16), Alpha(b[1] % 16 * 4 + b[2] / 64), Alpha(b[2] % 64)]
                            + EncodeRaw(b[3..])
  {
  }

  lemma TextOfGroup(b: seq<Byte>)
    requires |b| > 0
    ensures var x, g := EncodeRaw(b), Group(b);
      && |x| >= 2 && x[0] == Alpha(g[0] / 4) && x[1] == Alpha(g[0] % 4 * 16 + g[1] / 16)
      && (|b| > 1 ==> |x| >= 3 && x[2] == Alpha(g[1] % 16 * 4 + g[2] / 64))
      && (|b| > 2 ==> |x| >= 4 && x[3] == Alpha(g[2] % 64))
  {
    if |b| == 1 { TextOfOne(b); } else if |b| == 2 { TextOfTwo(b); } else { TextOfThree(b); }
  }

  lemma EqualTextEqualGroup(a: seq<Byte>, b: seq<Byte>)
    requires |a| == |b| > 0 && EncodeRaw(a) == EncodeRaw(b)
    ensures Group(a) == Group(b)
  {
    var g, h := Group(a), Group(b);
    TextOfGroup(a); TextOfGroup(b);
    AlphaInjective(g[0] / 4, h[0] / 4);
    AlphaInjective(g[0] % 4 * 16 + g[1] / 16, h[0] % 4 * 16 + h[1] / 16);
    if |a| > 1 {
      AlphaInjective(g[1] % 16 * 4 + g[2] / 64, h[1] % 16 * 4 + h[2] / 64);
    }
    if |a| > 2 {
      AlphaInjective(g[2] % 64, h[2] % 64);
    }
    SextetsDetermineBytes(g, h);
  }

  /** Different random bytes give different tokens. */
  lemma {:induction false} EncodeRawInjective(a: seq<Byte>, b: seq<Byte>)
    requires |a| == |b| && EncodeRaw(a) == EncodeRaw(b)
    ensures a == b
  {
    if |a| > 0 {
      EqualTextEqualGroup(a, b);
      if |a| <= 3 {
        assert forall i :: 0 <= i < |a| ==> a[i] == Group(a)[i] == Group(b)[i] == b[i];
      } else {
        assert EncodeRaw(a)[4..] == EncodeRaw(a[3..]) && EncodeRaw(b)[4..] == EncodeRaw(b[3..]);
        EncodeRawInjective(a[3..], b[3..]);
        assert a == a[..3] + a[3..] && b == b[..3] + b[3..];
      }
    }
  }
}
