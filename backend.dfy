/** The FastAPI server: the Valkey key/value store it uses, the fixed-window
    rate limiter, the success-count difficulty bump, and the two endpoints
    `/challenge` and `/verify`. Each endpoint is specified by a function from the
    store before the request to the reply and the store after it; the class
    `PowServer` performs the same steps on its store one command at a time. */
module Backend {
  import opened Wrappers
  import opened Encoding
  import opened PowSearch

  // ---------------------------------------------------------------------------
  // Configuration and wire types
  // ---------------------------------------------------------------------------

  /** A time to live SETEX accepts: Valkey refuses a zero or negative one. */
  type Lifetime = n: nat | n > 0 witness 1

  /** The environment settings `POW_DIFFICULTY`, `CHALLENGE_TTL`, `RATE_LIMIT`
      and `RATE_WINDOW`. The two given to SETEX are positive. */
  datatype Config = Config(powDifficulty: nat, challengeTtl: Lifetime, rateLimit: int, rateWindow: Lifetime)

  /** The settings when the environment sets none. */
  const DEFAULT_CONFIG: Config := Config(4, 120, 10, 60)

  /** The lifetime `/verify` gives the success counter. */
  const SUCCESS_TTL: nat := 120

  /** Above this many recent successes an address gets one more zero. */
  const SUCCESS_THRESHOLD: int := 5

  const CHALLENGE_LENGTH: nat := 16

  /** The expiry message, around its word "expired". */
  const EXPIRED_HEAD: string := "\U{26A0}\U{FE0F} This challenge has "
  const EXPIRED_TAIL: string := ". Please refresh and try again."
  const EXPIRED_MESSAGE: string := EXPIRED_HEAD + "expired" + EXPIRED_TAIL
  const VALID_MESSAGE: string := "Valid solution."
  const INVALID_MESSAGE: string := "Invalid PoW solution"
  const UNSUPPORTED_MESSAGE: string := "Unsupported hash algorithm"

  datatype ChallengeResponse = ChallengeResponse(challenge: string, difficulty: nat, expiresIn: nat)
  datatype VerifyRequest = VerifyRequest(challenge: string, nonce: string, hashAlgo: string)
  datatype VerifyResponse = VerifyResponse(success: bool, message: string)

  /** An endpoint's answer: its response model, or the `HTTPException` with
      status 429 that `check_rate_limit` raises. */
  datatype Reply<T> = Ok(value: T) | TooManyRequests

  // ---------------------------------------------------------------------------
  // The Valkey commands the server uses
  // ---------------------------------------------------------------------------

  /** Values by key, and the time to live, in seconds, of the keys that have one. */
  datatype Store = Store(values: map<string, int>, ttl: map<string, nat>)

  /** Only stored keys have a time to live. */
  predicate WellFormed(s: Store) {
    s.ttl.Keys <= s.values.Keys
  }

  function Get(s: Store, key: string): Option<int> {
    if key in s.values then Some(s.values[key]) else None
  }

  function TtlOf(s: Store, key: string): Option<nat> {
    if key in s.ttl then Some(s.ttl[key]) else None
  }

  predicate Exists(s: Store, key: string) {
    key in s.values
  }

  /** SETEX: store the value with a fresh time to live. */
  function Setex(s: Store, key: string, seconds: nat, value: int): Store {
    Store(s.values[key := value], s.ttl[key := seconds])
  }

  /** INCR: add one, a missing key counting as 0; the time to live is kept. */
  function Incr(s: Store, key: string): Store {
    Store(s.values[key := (if key in s.values then s.values[key] else 0) + 1], s.ttl)
  }

  /** DEL. */
  function Delete(s: Store, key: string): Store {
    Store(s.values - {key}, s.ttl - {key})
  }

  /** EXPIRE: a new time to live for a stored key; nothing for a missing one. */
  function Expire(s: Store, key: string, seconds: nat): Store {
    if key in s.values then Store(s.values, s.ttl[key := seconds]) else s
  }

  /** A key whose time to live runs out disappears. */
  function Lapse(s: Store, key: string): Store
    requires key in s.ttl
  {
    Delete(s, key)
  }

  // ---------------------------------------------------------------------------
  // Keys
  // ---------------------------------------------------------------------------

  function RateKey(ip: string): string { "rl:" + ip }
  function SuccessKey(ip: string): string { "success:" + ip }
  function ChallengeKey(challenge: string): string { "pow:" + challenge }

  /** The three key families never collide, so each command touches one kind of entry. */
  lemma KeysDisjoint(ip: string, ip': string, challenge: string)
    ensures RateKey(ip) != SuccessKey(ip')
    ensures RateKey(ip) != ChallengeKey(challenge)
    ensures SuccessKey(ip) != ChallengeKey(challenge)
  {
    assert RateKey(ip)[0] == 'r';
    assert SuccessKey(ip')[0] == 's';
    assert ChallengeKey(challenge)[0] == 'p';
  }

  /** Each challenge has its own key. */
  lemma ChallengeKeyInjective(a: string, b: string)
    requires ChallengeKey(a) == ChallengeKey(b)
    ensures a == b
  {
    assert a == ChallengeKey(a)[4..];
    assert b == ChallengeKey(b)[4..];
  }

  // ---------------------------------------------------------------------------
  // The fixed-window rate limiter
  // ---------------------------------------------------------------------------

  /** Whether `check_rate_limit` lets a request through, given the counter. */
  function CounterAllows(count: Option<int>, limit: int): bool {
    count.None? || count.value < limit
  }

  /** The counter after `check_rate_limit`: 1 when there was none, unchanged
      when the limit is reached, one more otherwise. */
  function CounterNext(count: Option<int>, limit: int): Option<int> {
    if count.None? then Some(1)
    else if count.value >= limit then count
    else Some(count.value + 1)
  }

  /** `check_rate_limit`: whether the request may proceed, and the store after. */
  function RateCheck(s: Store, ip: string, cfg: Config): (r: (bool, Store))
    ensures r.0 == CounterAllows(Get(s, RateKey(ip)), cfg.rateLimit)
    ensures Get(r.1, RateKey(ip)) == CounterNext(Get(s, RateKey(ip)), cfg.rateLimit)
    ensures TtlOf(r.1, RateKey(ip)) ==
              if Get(s, RateKey(ip)).None? then Some(cfg.rateWindow) else TtlOf(s, RateKey(ip))
    ensures forall k :: k != RateKey(ip) ==> Get(r.1, k) == Get(s, k) && TtlOf(r.1, k) == TtlOf(s, k)
    ensures !r.0 ==> r.1 == s
    ensures WellFormed(s) ==> WellFormed(r.1)
  {
    var key := RateKey(ip);
    match Get(s, key)
    case None => (true, Setex(s, key, cfg.rateWindow, 1))
    case Some(count) =>
      if count >= cfg.rateLimit then (false, s) else (true, Incr(s, key))
  }

  function Min(a: int, b: int): int { if a <= b then a else b }
  function Max(a: int, b: int): int { if a >= b then a else b }

  /** How many of `calls` successive requests within one window get through,
      starting from the counter `count`. */
  function AllowedCalls(count: Option<int>, limit: int, calls: nat): nat
    decreases calls
  {
    if calls == 0 then 0
    else (if CounterAllows(count, limit) then 1 else 0) + AllowedCalls(CounterNext(count, limit), limit, calls - 1)
  }

  lemma {:induction false} AllowedFromCount(c: int, limit: int, calls: nat)
    requires c >= 1
    ensures AllowedCalls(Some(c), limit, calls) == Min(calls, Max(0, limit - c))
    decreases calls
  {
    if calls > 0 {
      if c < limit {
        AllowedFromCount(c + 1, limit, calls - 1);
      } else {
        AllowedFromCount(c, limit, calls - 1);
      }
    }
  }

  /** In a fresh window exactly `min(calls, max(1, limit))` requests get
      through: never more than `max(1, RATE_LIMIT)`, and the first always. */
  lemma AllowedInFreshWindow(limit: int, calls: nat)
    ensures AllowedCalls(None, limit, calls) == Min(calls, Max(1, limit))
  {
    if calls > 0 {
      AllowedFromCount(1, limit, calls - 1);
    }
  }

  // ---------------------------------------------------------------------------
  // Difficulty and hashing
  // ---------------------------------------------------------------------------

  /** `get_dynamic_difficulty`: one more zero for an address with more than five
      recent successes. It only reads the store. */
  function DynamicDifficulty(s: Store, ip: string, cfg: Config): (d: nat)
    ensures d == cfg.powDifficulty || d == cfg.powDifficulty + 1
    ensures d == cfg.powDifficulty + 1 <==> Get(s, SuccessKey(ip)).Some? && Get(s, SuccessKey(ip)).value > SUCCESS_THRESHOLD
  {
    match Get(s, SuccessKey(ip))
    case Some(count) => if count > SUCCESS_THRESHOLD then cfg.powDifficulty + 1 else cfg.powDifficulty
    case None => cfg.powDifficulty
  }

  /** The name `hash_data` knows each algorithm by. */
  function AlgoName(a: HashAlgo): string {
    match a
    case Sha256 => "sha256"
    case Blake3 => "blake3"
  }

  /** `hash_data`'s dispatch on the name: exactly the two names are known, and
      each resolves to the algorithm it names. */
  function ParseAlgo(name: string): (r: Option<HashAlgo>)
    ensures r.Some? ==> AlgoName(r.value) == name
    ensures r.None? <==> forall a: HashAlgo :: AlgoName(a) != name
  {
    if name == "sha256" then Some(Sha256)
    else if name == "blake3" then Some(Blake3)
    else None
  }

  /** Each algorithm is found by its own name. */
  lemma ParseAlgoRoundTrip(a: HashAlgo)
    ensures ParseAlgo(AlgoName(a)) == Some(a)
  {
  }

  /** `hash_data`: the hex digest, or None where it raises `ValueError`. */
  function HashData(H: Hasher, data: string, algo: string): (r: Option<string>)
    ensures r.None? <==> algo != "sha256" && algo != "blake3"
    ensures r.Some? ==> |r.value| == DIGEST_HEX_LENGTH && forall i :: 0 <= i < |r.value| ==> IsHexChar(r.value[i])
  {
    match ParseAlgo(algo)
    case None => None
    case Some(a) => Some(Hex(H(a, data)))
  }

  /** The server's test: the digest of `challenge + nonce` under the requested
      algorithm starts with `POW_DIFFICULTY` zeros (the configured difficulty,
      not the one issued). */
  function Accepts(H: Hasher, cfg: Config, req: VerifyRequest): (ok: bool)
    ensures ok <==>
              && ParseAlgo(req.hashAlgo).Some?
              && cfg.powDifficulty <= DIGEST_HEX_LENGTH
              && forall i :: 0 <= i < cfg.powDifficulty ==>
                   Nibble(H(ParseAlgo(req.hashAlgo).value, req.challenge + req.nonce), i) == 0
  {
    match ParseAlgo(req.hashAlgo)
    case None => false
    case Some(a) =>
      HexZeroPrefix(H(a, req.challenge + req.nonce), cfg.powDifficulty);
      StartsWith(Hex(H(a, req.challenge + req.nonce)), Zeros(cfg.powDifficulty))
  }

  // ---------------------------------------------------------------------------
  // The endpoints
  // ---------------------------------------------------------------------------

  predicate IsAsciiAlnum(c: char) {
    'a' <= c <= 'z' || 'A' <= c <= 'Z' || '0' <= c <= '9'
  }

  /** What `random.choices(ascii_letters + digits, k=16)` yields. */
  predicate IsChallengeToken(c: string) {
    |c| == CHALLENGE_LENGTH && forall i :: 0 <= i < |c| ==> IsAsciiAlnum(c[i])
  }

  /** `generate_challenge` for address `ip`, with `challenge` the random token. */
  function IssueChallenge(s: Store, ip: string, challenge: string, cfg: Config): (r: (Reply<ChallengeResponse>, Store))
    requires IsChallengeToken(challenge)
    ensures r.0.Ok? == CounterAllows(Get(s, RateKey(ip)), cfg.rateLimit)
    ensures r.0.TooManyRequests? ==> r.1 == s
    ensures r.0.Ok? ==>
              && r.0.value == ChallengeResponse(challenge, DynamicDifficulty(s, ip, cfg), cfg.challengeTtl)
              && Get(r.1, ChallengeKey(challenge)).Some?
              && TtlOf(r.1, ChallengeKey(challenge)) == Some(cfg.challengeTtl)
    ensures Get(r.1, RateKey(ip)) == CounterNext(Get(s, RateKey(ip)), cfg.rateLimit)
    ensures forall k :: k != RateKey(ip) && k != ChallengeKey(challenge) ==>
              Get(r.1, k) == Get(s, k) && TtlOf(r.1, k) == TtlOf(s, k)
    ensures WellFormed(s) ==> WellFormed(r.1)
  {
    KeysDisjoint(ip, ip, challenge);
    var (allowed, s1) := RateCheck(s, ip, cfg);
    if !allowed then (TooManyRequests, s1)
    else
      var difficulty := DynamicDifficulty(s1, ip, cfg);
      (Ok(ChallengeResponse(challenge, difficulty, cfg.challengeTtl)),
       Setex(s1, ChallengeKey(challenge), cfg.challengeTtl, 1))
  }

  /** `verify_solution` for address `ip`. */
  function VerifyProof(s: Store, ip: string, req: VerifyRequest, H: Hasher, cfg: Config): (r: (Reply<VerifyResponse>, Store))
    ensures r.0.Ok? == CounterAllows(Get(s, RateKey(ip)), cfg.rateLimit)
    ensures Get(r.1, RateKey(ip)) == CounterNext(Get(s, RateKey(ip)), cfg.rateLimit)
    ensures (r.0.Ok? && r.0.value.success) <==>
              CounterAllows(Get(s, RateKey(ip)), cfg.rateLimit) && Exists(s, ChallengeKey(req.challenge)) && Accepts(H, cfg, req)
    ensures r.0.Ok? && !Exists(s, ChallengeKey(req.challenge)) ==> r.0.value == VerifyResponse(false, EXPIRED_MESSAGE)
    ensures r.0.Ok? && Exists(s, ChallengeKey(req.challenge)) && !Accepts(H, cfg, req) ==>
              r.0.value == VerifyResponse(false, if ParseAlgo(req.hashAlgo).None? then UNSUPPORTED_MESSAGE else INVALID_MESSAGE)
    ensures r.0.Ok? && r.0.value.success ==>
              && r.0.value.message == VALID_MESSAGE
              && !Exists(r.1, ChallengeKey(req.challenge))
              && Get(r.1, SuccessKey(ip)) == Some((if Get(s, SuccessKey(ip)).Some? then Get(s, SuccessKey(ip)).value else 0) + 1)
              && TtlOf(r.1, SuccessKey(ip)) == Some(SUCCESS_TTL)
              && TtlOf(r.1, RateKey(ip)) == TtlOf(RateCheck(s, ip, cfg).1, RateKey(ip))
              && forall k :: k != RateKey(ip) && k != SuccessKey(ip) && k != ChallengeKey(req.challenge) ==>
                   Get(r.1, k) == Get(s, k) && TtlOf(r.1, k) == TtlOf(s, k)
    ensures !(r.0.Ok? && r.0.value.success) ==> r.1 == RateCheck(s, ip, cfg).1
    ensures WellFormed(s) ==> WellFormed(r.1)
  {
    var key := ChallengeKey(req.challenge);
    KeysDisjoint(ip, ip, req.challenge);
    var (allowed, s1) := RateCheck(s, ip, cfg);
    if !allowed then (TooManyRequests, s1)
    else if !Exists(s1, key) then (Ok(VerifyResponse(false, EXPIRED_MESSAGE)), s1)
    else
      match HashData(H, req.challenge + req.nonce, req.hashAlgo)
      case None => (Ok(VerifyResponse(false, UNSUPPORTED_MESSAGE)), s1)
      case Some(hashed) =>
        if StartsWith(hashed, Zeros(cfg.powDifficulty)) then
          var s2 := Delete(s1, key);
          var s3 := Incr(s2, SuccessKey(ip));
          (Ok(VerifyResponse(true, VALID_MESSAGE)), Expire(s3, SuccessKey(ip), SUCCESS_TTL))
        else (Ok(VerifyResponse(false, INVALID_MESSAGE)), s1)
  }

  // ---------------------------------------------------------------------------
  // Properties of the endpoints
  // ---------------------------------------------------------------------------

  /** A client that solved the difficulty it was issued, under either supported
      algorithm, is accepted: the issued difficulty is never below
      `POW_DIFFICULTY`, and a prefix of d zeros contains every shorter one. */
  lemma SolutionOfIssuedDifficultyAccepted(H: Hasher, cfg: Config, s: Store, ip: string, req: VerifyRequest)
    requires ParseAlgo(req.hashAlgo).Some?
    requires StartsWith(Hex(H(ParseAlgo(req.hashAlgo).value, req.challenge + req.nonce)),
                        Zeros(DynamicDifficulty(s, ip, cfg)))
    ensures Accepts(H, cfg, req)
  {
    ZeroPrefixMonotone(Hex(H(ParseAlgo(req.hashAlgo).value, req.challenge + req.nonce)),
                       DynamicDifficulty(s, ip, cfg), cfg.powDifficulty);
  }

  /** Issue, solve at the issued difficulty, verify: the proof is accepted as
      long as the rate limiter lets the verify request through. */
  lemma IssueThenVerify(H: Hasher, cfg: Config, s: Store, ip: string, challenge: string, nonce: nat)
    requires IsChallengeToken(challenge)
    requires IssueChallenge(s, ip, challenge, cfg).0.Ok?
    requires Solves(H, challenge, IssueChallenge(s, ip, challenge, cfg).0.value.difficulty, nonce)
    requires CounterAllows(Get(IssueChallenge(s, ip, challenge, cfg).1, RateKey(ip)), cfg.rateLimit)
    ensures VerifyProof(IssueChallenge(s, ip, challenge, cfg).1, ip,
                        VerifyRequest(challenge, Decimal(nonce), "sha256"), H, cfg).0
            == Ok(VerifyResponse(true, VALID_MESSAGE))
  {
    SolutionOfIssuedDifficultyAccepted(H, cfg, s, ip, VerifyRequest(challenge, Decimal(nonce), "sha256"));
  }


  /** A challenge whose time to live ran out is reported as expired. */
  lemma LapsedChallengeExpired(H: Hasher, cfg: Config, s: Store, ip: string, req: VerifyRequest)
    requires ChallengeKey(req.challenge) in s.ttl
    requires CounterAllows(Get(Lapse(s, ChallengeKey(req.challenge)), RateKey(ip)), cfg.rateLimit)
    ensures VerifyProof(Lapse(s, ChallengeKey(req.challenge)), ip, req, H, cfg).0 == Ok(VerifyResponse(false, EXPIRED_MESSAGE))
  {
  }

  /** One request of either kind from one address. */
  datatype Call = ChallengeCall(challenge: string) | VerifyCall(req: VerifyRequest)

  predicate WellFormedCall(c: Call) {
    c.ChallengeCall? ==> IsChallengeToken(c.challenge)
  }

  /** Serve a call; true when it got past the rate limiter. */
  function Serve(s: Store, ip: string, c: Call, H: Hasher, cfg: Config): (r: (bool, Store))
    requires WellFormedCall(c)
    ensures r.0 == CounterAllows(Get(s, RateKey(ip)), cfg.rateLimit)
    ensures Get(r.1, RateKey(ip)) == CounterNext(Get(s, RateKey(ip)), cfg.rateLimit)
  {
    match c
    case ChallengeCall(challenge) =>
      var (reply, s') := IssueChallenge(s, ip, challenge, cfg);
      (reply.Ok?, s')
    case VerifyCall(req) =>
      var (reply, s') := VerifyProof(s, ip, req, H, cfg);
      (reply.Ok?, s')
  }

  /** Serve calls in order within one window; the number that got through. */
  function ServeAll(s: Store, ip: string, calls: seq<Call>, H: Hasher, cfg: Config): (n: nat)
    requires forall i :: 0 <= i < |calls| ==> WellFormedCall(calls[i])
    ensures n <= |calls|
    ensures calls != [] && Get(s, RateKey(ip)).None? ==> n >= 1
    decreases |calls|
  {
    if calls == [] then 0
    else
      var (ok, s') := Serve(s, ip, calls[0], H, cfg);
      (if ok then 1 else 0) + ServeAll(s', ip, calls[1..], H, cfg)
  }

  lemma {:induction false} ServeAllCounts(s: Store, ip: string, calls: seq<Call>, H: Hasher, cfg: Config)
    requires forall i :: 0 <= i < |calls| ==> WellFormedCall(calls[i])
    ensures ServeAll(s, ip, calls, H, cfg) == AllowedCalls(Get(s, RateKey(ip)), cfg.rateLimit, |calls|)
    decreases |calls|
  {
    if calls != [] {
      var (ok, s') := Serve(s, ip, calls[0], H, cfg);
      ServeAllCounts(s', ip, calls[1..], H, cfg);
    }
  }

  /** `/challenge` and `/verify` share the one counter `rl:{ip}`: in a window
      that starts without it, at most `max(1, RATE_LIMIT)` requests of either
      kind from one address get past the limiter. */
  lemma SharedWindowLimit(s: Store, ip: string, calls: seq<Call>, H: Hasher, cfg: Config)
    requires forall i :: 0 <= i < |calls| ==> WellFormedCall(calls[i])
    requires Get(s, RateKey(ip)) == None
    ensures ServeAll(s, ip, calls, H, cfg) == Min(|calls|, Max(1, cfg.rateLimit))
  {
    ServeAllCounts(s, ip, calls, H, cfg);
    AllowedInFreshWindow(cfg.rateLimit, |calls|);
  }

  /** With the default settings (a limit of 10, and a window of 60 seconds), one
      address gets at most 10 requests of either kind through in a fresh window. */
  lemma DefaultWindowLimit(s: Store, ip: string, calls: seq<Call>, H: Hasher)
    requires forall i :: 0 <= i < |calls| ==> WellFormedCall(calls[i])
    requires Get(s, RateKey(ip)) == None
    ensures ServeAll(s, ip, calls, H, DEFAULT_CONFIG) == Min(|calls|, 10)
  {
    SharedWindowLimit(s, ip, calls, H, DEFAULT_CONFIG);
  }

  // ---------------------------------------------------------------------------
  // Histories of the server
  // ---------------------------------------------------------------------------

  /** Something that happens to the store between two requests of interest: a
      request of either kind from some address, or the lapse of a key's time to
      live (a challenge running out, or a rate window ending). */
  datatype Event = Request(ip: string, call: Call) | Lapsed(key: string)

  predicate WellFormedEvent(e: Event) {
    e.Request? ==> WellFormedCall(e.call)
  }

  /** Whether the event is a `/challenge` that draws the token `c`. */
  predicate Issues(e: Event, c: string) {
    e.Request? && e.call == ChallengeCall(c)
  }

  /** The store after one event; a key without a time to live never lapses. */
  function Step(s: Store, e: Event, H: Hasher, cfg: Config): Store
    requires WellFormedEvent(e)
  {
    match e
    case Request(ip, call) => Serve(s, ip, call, H, cfg).1
    case Lapsed(key) => if key in s.ttl then Lapse(s, key) else s
  }

  /** The store after the events, in order. */
  function Run(s: Store, events: seq<Event>, H: Hasher, cfg: Config): Store
    requires forall i :: 0 <= i < |events| ==> WellFormedEvent(events[i])
    decreases |events|
  {
    if events == [] then s else Run(Step(s, events[0], H, cfg), events[1..], H, cfg)
  }

  /** No event but a `/challenge` drawing the same token brings back a missing
      challenge key: a verify either finds it missing and changes only the rate
      counter, or deletes and counts other keys. */
  lemma StepKeepsChallengeMissing(s: Store, e: Event, c: string, H: Hasher, cfg: Config)
    requires WellFormedEvent(e) && !Issues(e, c)
    requires !Exists(s, ChallengeKey(c))
    ensures !Exists(Step(s, e, H, cfg), ChallengeKey(c))
  {
    match e
    case Lapsed(_) =>
    case Request(ip, call) =>
      KeysDisjoint(ip, ip, c);
      match call
      case ChallengeCall(t) =>
        if ChallengeKey(t) == ChallengeKey(c) { ChallengeKeyInjective(t, c); }
      case VerifyCall(req) =>
        if ChallengeKey(req.challenge) == ChallengeKey(c) { ChallengeKeyInjective(req.challenge, c); }
  }

  lemma {:induction false} RunKeepsChallengeMissing(s: Store, events: seq<Event>, c: string, H: Hasher, cfg: Config)
    requires forall i :: 0 <= i < |events| ==> WellFormedEvent(events[i]) && !Issues(events[i], c)
    requires !Exists(s, ChallengeKey(c))
    ensures !Exists(Run(s, events, H, cfg), ChallengeKey(c))
    decreases |events|
  {
    if events != [] {
      StepKeepsChallengeMissing(s, events[0], c, H, cfg);
      RunKeepsChallengeMissing(Step(s, events[0], H, cfg), events[1..], c, H, cfg);
    }
  }

  /** A verify that gets past the limiter and finds no challenge key reports expiry. */
  lemma MissingChallengeExpired(H: Hasher, cfg: Config, s: Store, ip: string, req: VerifyRequest)
    requires !Exists(s, ChallengeKey(req.challenge))
    requires CounterAllows(Get(s, RateKey(ip)), cfg.rateLimit)
    ensures VerifyProof(s, ip, req, H, cfg).0 == Ok(VerifyResponse(false, EXPIRED_MESSAGE))
  {
  }

  /** Single use: after a successful verify, every later verify of the same
      challenge, from any address and after any requests and lapses in between
      that do not draw the same token again, gets the expiry message. */
  lemma ChallengeSingleUse(H: Hasher, cfg: Config, s: Store, ip: string, req: VerifyRequest, s1: Store,
                           events: seq<Event>, ip': string, req': VerifyRequest)
    requires VerifyProof(s, ip, req, H, cfg) == (Ok(VerifyResponse(true, VALID_MESSAGE)), s1)
    requires forall i :: 0 <= i < |events| ==> WellFormedEvent(events[i]) && !Issues(events[i], req.challenge)
    requires req'.challenge == req.challenge
    requires CounterAllows(Get(Run(s1, events, H, cfg), RateKey(ip')), cfg.rateLimit)
    ensures VerifyProof(Run(s1, events, H, cfg), ip', req', H, cfg).0 == Ok(VerifyResponse(false, EXPIRED_MESSAGE))
  {
    RunKeepsChallengeMissing(s1, events, req.challenge, H, cfg);
    MissingChallengeExpired(H, cfg, Run(s1, events, H, cfg), ip', req');
  }

  // ---------------------------------------------------------------------------
  // The server
  // ---------------------------------------------------------------------------

  class PowServer {
    const config: Config
    /** The Valkey database. */
    var db: Store

    ghost predicate Valid()
      reads this
    {
      WellFormed(db)
    }

    constructor (config: Config, db: Store)
      requires WellFormed(db)
      ensures Valid()
      ensures this.config == config && this.db == db
    {
      this.config := config;
      this.db := db;
    }

    /** `check_rate_limit`: GET the counter; SETEX it to 1 when absent; refuse at
        the limit; INCR otherwise. */
    method CheckRateLimit(ip: string) returns (allowed: bool)
      requires Valid()
      modifies this
      ensures Valid()
      ensures (allowed, db) == RateCheck(old(db), ip, config)
    {
      var key := RateKey(ip);
      var count := Get(db, key);
      if count.None? {
        db := Setex(db, key, config.rateWindow, 1);
        return true;
      }
      if count.value >= config.rateLimit {
        return false;
      }
      db := Incr(db, key);
      return true;
    }

    /** `generate_challenge`, with the random token passed in. */
    method GenerateChallenge(ip: string, challenge: string) returns (r: Reply<ChallengeResponse>)
      requires Valid()
      requires IsChallengeToken(challenge)
      modifies this
      ensures Valid()
      ensures (r, db) == IssueChallenge(old(db), ip, challenge, config)
    {
      var allowed := CheckRateLimit(ip);
      if !allowed {
        return TooManyRequests;
      }
      var difficulty := DynamicDifficulty(db, ip, config);
      db := Setex(db, ChallengeKey(challenge), config.challengeTtl, 1);
      return Ok(ChallengeResponse(challenge, difficulty, config.challengeTtl));
    }

    /** `verify_solution`. */
    method VerifySolution(ip: string, req: VerifyRequest, H: Hasher) returns (r: Reply<VerifyResponse>)
      requires Valid()
      modifies this
      ensures Valid()
      ensures (r, db) == VerifyProof(old(db), ip, req, H, config)
    {
      var allowed := CheckRateLimit(ip);
      if !allowed {
        return TooManyRequests;
      }
      var key := ChallengeKey(req.challenge);
      if !Exists(db, key) {
        return Ok(VerifyResponse(false, EXPIRED_MESSAGE));
      }
      var hashed := HashData(H, req.challenge + req.nonce, req.hashAlgo);
      if hashed.None? {
        return Ok(VerifyResponse(false, UNSUPPORTED_MESSAGE));
      }
      if StartsWith(hashed.value, Zeros(config.powDifficulty)) {
        db := Delete(db, key);
        db := Incr(db, SuccessKey(ip));
        db := Expire(db, SuccessKey(ip), SUCCESS_TTL);
        return Ok(VerifyResponse(true, VALID_MESSAGE));
      }
      return Ok(VerifyResponse(false, INVALID_MESSAGE));
    }

    /** Time passes until `key`'s time to live runs out. */
    method KeyLapses(key: string)
      requires Valid()
      requires key in db.ttl
      modifies this
      ensures Valid()
      ensures db == Lapse(old(db), key)
      ensures Exists(old(db), key) && !Exists(db, key)
    {
      db := Delete(db, key);
    }
  }
}
