/** The gateway authenticator: cached verdicts, re-validation against the control plane, and
    serving known keys while the control plane is down. Concurrent requests interleave at every
    point where Authenticate touches the cache or waits for a reply. */
module TenantAuth {
  import opened Prelude
  import opened KeyCache
  import IngestAuth

  const SECOND := 1_000_000_000

  datatype Config = Config(ttl: int, negativeTTL: int, staleIfError: int, maxEntries: int)

  /** What the extension's configuration check demands. */
  predicate ValidConfig(cfg: Config) {
    cfg.ttl > 0 && cfg.negativeTTL > 0 && cfg.maxEntries > 0 && cfg.staleIfError >= 0
  }

  datatype Reply = Failure | Answer(verdict: IngestAuth.Verdict)

  datatype Outcome = Accepted(clientId: string) | Rejected

  /** The configured freshness, shortened by the server's own if that is set. */
  function EffectiveTTL(cfg: Config, ttlSeconds: int): int {
    if ttlSeconds > 0 && ttlSeconds * SECOND < cfg.ttl then ttlSeconds * SECOND else cfg.ttl
  }

  // ---------------------------------------------------------------------
  // The two stretches of Authenticate that touch the cache

  function FirstLook(c: Lru, key: string, now: int): (Lru, Option<Outcome>) {
    var (c1, e) := Lookup(c, key);
    if e.Some? && now < e.value.freshUntil
    then (c1, Some(if e.value.valid then Accepted(e.value.data) else Rejected))
    else (c1, None)
  }

  /** Go's zero time, before every instant a clock can read. */
  const ZERO_TIME := -62_135_596_800 * SECOND

  function Conclude(cfg: Config, c: Lru, key: string, now: int, reply: Reply): (Lru, Outcome) {
    match reply
    case Failure =>
      var (c1, e) := Lookup(c, key);
      if e.Some? && e.value.valid && now < e.value.staleUntil then (c1, Accepted(e.value.data)) else (c1, Rejected)
    case Answer(Invalid) =>
      (Store(c, key, Entry(false, "", now + cfg.negativeTTL, ZERO_TIME), cfg.maxEntries), Rejected)
    case Answer(Valid(id, s)) =>
      (Store(c, key, Entry(true, id, now + EffectiveTTL(cfg, s), now + cfg.staleIfError), cfg.maxEntries),
       Accepted(id))
  }

  // ---------------------------------------------------------------------
  // Interleaved requests

  /** Looking: the clock has been read. Calling: the cache did not answer. Answered: the reply is
      in. Done: decided; `failed` says whether this request's own call failed. */
  datatype Phase = Looking | Calling | Answered(reply: Reply) | Done(outcome: Outcome, failed: bool)

  datatype Request = Request(key: string, began: int, phase: Phase)

  /** History: a verdict given at time `at` to a request that began at `began`. */
  datatype Ruling = Ruling(key: string, began: int, at: int, verdict: IngestAuth.Verdict)

  datatype World = World(cache: Lru, requests: map<nat, Request>, rulings: set<Ruling>)

  const START := World(EMPTY, map[], {})

  /** Begin reads the clock; Look consults the cache; Serve is the control plane's evaluation at
      some later time, or a failure; Finish stores or falls back. */
  datatype Step = Begin(id: nat, key: string, now: int) | Look(id: nat) | Serve(id: nat, at: int, fails: bool) | Finish(id: nat)

  /** The api_keys table as it stands at each time. */
  type Database = int -> seq<IngestAuth.ApiKey>

  function Next(cfg: Config, db: Database, w: World, step: Step): World {
    match step
    case Begin(id, key, now) =>
      if id in w.requests then w else w.(requests := w.requests[id := Request(key, now, Looking)])
    case Look(id) =>
      if id !in w.requests || !w.requests[id].phase.Looking? then w else
      var r := w.requests[id];
      var (c, o) := FirstLook(w.cache, r.key, r.began);
      var phase := if o.Some? then Done(o.value, false) else Calling;
      w.(cache := c, requests := w.requests[id := r.(phase := phase)])
    case Serve(id, at, fails) =>
      if id !in w.requests || !w.requests[id].phase.Calling? || at < w.requests[id].began then w else
      var r := w.requests[id];
      var reply := if fails then Failure else Answer(IngestAuth.Validate(db(at), r.key, at));
      var ruling := if reply.Answer? then {Ruling(r.key, r.began, at, reply.verdict)} else {};
      w.(requests := w.requests[id := r.(phase := Answered(reply))], rulings := w.rulings + ruling)
    case Finish(id) =>
      if id !in w.requests || !w.requests[id].phase.Answered? then w else
      var r := w.requests[id];
      var (c, o) := Conclude(cfg, w.cache, r.key, r.began, r.phase.reply);
      w.(cache := c, requests := w.requests[id := r.(phase := Done(o, r.phase.reply.Failure?))])
  }

  function Run(cfg: Config, db: Database, w: World, steps: seq<Step>): World
    decreases |steps|
  {
    if steps == [] then w else Run(cfg, db, Next(cfg, db, w, steps[0]), steps[1..])
  }

  // ---------------------------------------------------------------------
  // Every decision is justified by a recent verdict

  ghost predicate Genuine(db: Database, g: Ruling) {
    g.began <= g.at && g.verdict == IngestAuth.Validate(db(g.at), g.key, g.at)
  }

  /** How long after its request began a verdict may decide without a new call. */
  function Lifetime(cfg: Config, v: IngestAuth.Verdict): int {
    if v.Valid? then EffectiveTTL(cfg, v.ttlSeconds) else cfg.negativeTTL
  }

  /** The cached entry stems from this ruling. */
  ghost predicate Backs(cfg: Config, g: Ruling, key: string, e: Entry) {
    && g.key == key && g.verdict.Valid? == e.valid
    && e.freshUntil == g.began + Lifetime(cfg, g.verdict)
    && (e.valid ==> g.verdict.clientId == e.data && e.staleUntil == g.began + cfg.staleIfError)
  }

  ghost predicate BackedEntry(cfg: Config, rulings: set<Ruling>, key: string, e: Entry) {
    exists g <- rulings :: Backs(cfg, g, key, e)
  }

  ghost predicate BackedCache(cfg: Config, rulings: set<Ruling>, c: Lru) {
    && Consistent(c, cfg.maxEntries)
    && forall k <- c.entries :: BackedEntry(cfg, rulings, k, c.entries[k])
  }

  /** The ruling says the same and is recent enough to decide at time `now`. A request whose own
      call failed may be accepted on a verdict up to stale_if_error old. */
  ghost predicate Justifies(cfg: Config, g: Ruling, key: string, now: int, outcome: Outcome, failed: bool) {
    && g.key == key
    && match outcome
       case Accepted(id) =>
         g.verdict.Valid? && g.verdict.clientId == id &&
         now < g.began + (if failed then cfg.staleIfError else Lifetime(cfg, g.verdict))
       case Rejected => g.verdict.Invalid? && now < g.began + cfg.negativeTTL
  }

  ghost predicate SoundRequest(cfg: Config, rulings: set<Ruling>, r: Request) {
    match r.phase
    case Answered(Answer(v)) => exists g <- rulings :: g.key == r.key && g.began == r.began && g.verdict == v
    case Done(o, failed) =>
      o.Accepted? || !failed ==> exists g <- rulings :: Justifies(cfg, g, r.key, r.began, o, failed)
    case _ => true
  }

  ghost predicate Sound(cfg: Config, db: Database, w: World) {
    && BackedCache(cfg, w.rulings, w.cache)
    && (forall g <- w.rulings :: Genuine(db, g))
    && (forall id <- w.requests :: SoundRequest(cfg, w.rulings, w.requests[id]))
  }

  lemma LookupBacked(cfg: Config, rulings: set<Ruling>, c: Lru, key: string)
    requires BackedCache(cfg, rulings, c)
    ensures BackedCache(cfg, rulings, Lookup(c, key).0)
    ensures Lookup(c, key).1.Some? ==> BackedEntry(cfg, rulings, key, Lookup(c, key).1.value)
  {
    hide Promote, Consistent;
    GetConsistent(c, key, cfg.maxEntries);
  }

  lemma StoreBacked(cfg: Config, rulings: set<Ruling>, c: Lru, key: string, e: Entry)
    requires BackedCache(cfg, rulings, c) && BackedEntry(cfg, rulings, key, e)
    ensures BackedCache(cfg, rulings, Store(c, key, e, cfg.maxEntries))
  {
    hide Promote, Consistent, BackedEntry, Trim;
    PutConsistent(c, key, e, cfg.maxEntries);
    var c' := Store(c, key, e, cfg.maxEntries);
    forall k <- c'.entries ensures BackedEntry(cfg, rulings, k, c'.entries[k]) {
      assert k != key ==> k in c.entries;
    }
  }

  lemma MoreRulings(cfg: Config, rulings: set<Ruling>, more: set<Ruling>, c: Lru, r: Request)
    requires rulings <= more
    ensures BackedCache(cfg, rulings, c) ==> BackedCache(cfg, more, c)
    ensures SoundRequest(cfg, rulings, r) ==> SoundRequest(cfg, more, r)
  {
    hide Consistent, EffectiveTTL;
    if BackedCache(cfg, rulings, c) {
      forall k <- c.entries ensures BackedEntry(cfg, more, k, c.entries[k]) {
        assert BackedEntry(cfg, rulings, k, c.entries[k]);
      }
    }
  }

  lemma LookSound(cfg: Config, rulings: set<Ruling>, c: Lru, r: Request)
    requires BackedCache(cfg, rulings, c)
    ensures var (c', o) := FirstLook(c, r.key, r.began);
            && BackedCache(cfg, rulings, c')
            && SoundRequest(cfg, rulings, r.(phase := if o.Some? then Done(o.value, false) else Calling))
  {
    hide Lookup, BackedCache, EffectiveTTL;
    LookupBacked(cfg, rulings, c, r.key);
    var e := Lookup(c, r.key).1;
    if e.Some? && r.began < e.value.freshUntil {
      var g :| g in rulings && Backs(cfg, g, r.key, e.value);
      assert Justifies(cfg, g, r.key, r.began, FirstLook(c, r.key, r.began).1.value, false);
    }
  }

  lemma FinishSound(cfg: Config, rulings: set<Ruling>, c: Lru, r: Request)
    requires ValidConfig(cfg) && BackedCache(cfg, rulings, c)
    requires r.phase.Answered? && SoundRequest(cfg, rulings, r)
    ensures var (c', o) := Conclude(cfg, c, r.key, r.began, r.phase.reply);
            && BackedCache(cfg, rulings, c')
            && SoundRequest(cfg, rulings, r.(phase := Done(o, r.phase.reply.Failure?)))
  {
    hide Lookup, Store, BackedCache;
    match r.phase.reply
    case Failure =>
      LookupBacked(cfg, rulings, c, r.key);
      var e := Lookup(c, r.key).1;
      if e.Some? && e.value.valid && r.began < e.value.staleUntil {
        var g :| g in rulings && Backs(cfg, g, r.key, e.value);
        assert Justifies(cfg, g, r.key, r.began, Accepted(e.value.data), true);
      }
    case Answer(v) =>
      var g :| g in rulings && g.key == r.key && g.began == r.began && g.verdict == v;
      var e := if v.Valid? then Entry(true, v.clientId, r.began + EffectiveTTL(cfg, v.ttlSeconds), r.began + cfg.staleIfError)
               else Entry(false, "", r.began + cfg.negativeTTL, ZERO_TIME);
      assert Backs(cfg, g, r.key, e);
      StoreBacked(cfg, rulings, c, r.key, e);
      assert Justifies(cfg, g, r.key, r.began, if v.Valid? then Accepted(v.clientId) else Rejected, false);
  }

  lemma ServeSound(cfg: Config, db: Database, w: World, id: nat, at: int, fails: bool)
    requires Sound(cfg, db, w)
    ensures Sound(cfg, db, Next(cfg, db, w, Serve(id, at, fails)))
  {
    hide IngestAuth.Validate, BackedCache;
    var w' := Next(cfg, db, w, Serve(id, at, fails));
    if w' != w {
      var r := w.requests[id];
      MoreRulings(cfg, w.rulings, w'.rulings, w.cache, r);
      forall j <- w'.requests ensures SoundRequest(cfg, w'.rulings, w'.requests[j]) {
        if j != id {
          MoreRulings(cfg, w.rulings, w'.rulings, w.cache, w.requests[j]);
        }
      }
    }
  }

  lemma NextSound(cfg: Config, db: Database, w: World, step: Step)
    requires ValidConfig(cfg) && Sound(cfg, db, w)
    ensures Sound(cfg, db, Next(cfg, db, w, step))
  {
    hide BackedCache, FirstLook, Conclude, Genuine;
    match step
    case Begin(id, key, now) =>
    case Look(id) =>
      if id in w.requests { LookSound(cfg, w.rulings, w.cache, w.requests[id]); }
    case Serve(id, at, fails) => ServeSound(cfg, db, w, id, at, fails);
    case Finish(id) =>
      if id in w.requests && w.requests[id].phase.Answered? {
        FinishSound(cfg, w.rulings, w.cache, w.requests[id]);
      }
  }

  lemma {:induction false} RunSound(cfg: Config, db: Database, w: World, steps: seq<Step>)
    requires ValidConfig(cfg) && Sound(cfg, db, w)
    ensures Sound(cfg, db, Run(cfg, db, w, steps))
    decreases |steps|
  {
    hide Sound, Next;
    if steps != [] {
      NextSound(cfg, db, w, steps[0]);
      RunSound(cfg, db, Next(cfg, db, w, steps[0]), steps[1..]);
    }
  }

  /** In every interleaving, an accepted request is backed by a positive verdict for the same key,
      naming the same tenant, given to a request that began less than a freshness window ago, or
      less than stale_if_error ago if the request's own call failed; and a request rejected without
      a failing call is backed by a negative verdict less than negative_ttl old. */
  lemma DecisionsJustified(cfg: Config, db: Database, steps: seq<Step>, id: nat)
    requires ValidConfig(cfg)
    requires var w := Run(cfg, db, START, steps);
             && id in w.requests && w.requests[id].phase.Done?
             && (w.requests[id].phase.outcome.Accepted? || !w.requests[id].phase.failed)
    ensures var w := Run(cfg, db, START, steps);
            var r := w.requests[id];
            exists g <- w.rulings ::
              Genuine(db, g) && Justifies(cfg, g, r.key, r.began, r.phase.outcome, r.phase.failed)
  {
    hide Run, Genuine, BackedCache;
    assert Sound(cfg, db, START) by { SoundStart(cfg, db); }
    RunSound(cfg, db, START, steps);
    var w := Run(cfg, db, START, steps);
    assert SoundRequest(cfg, w.rulings, w.requests[id]);
  }

  lemma SoundStart(cfg: Config, db: Database)
    requires ValidConfig(cfg)
    ensures Sound(cfg, db, START)
  {
  }

  function Min(a: int, b: int): int {
    if a < b then a else b
  }

  /** Once the control plane stops honouring a key, no request that begins a full window later is
      accepted, whatever old replies are still in flight: the window is the shorter of the two
      freshness limits, or stale_if_error for requests whose own call fails. */
  lemma Revocation(cfg: Config, db: Database, steps: seq<Step>, key: string, revokedAt: int, id: nat)
    requires ValidConfig(cfg)
    requires forall t | t >= revokedAt :: IngestAuth.Validate(db(t), key, t).Invalid?
    requires var w := Run(cfg, db, START, steps);
             && id in w.requests && w.requests[id].key == key
             && w.requests[id].phase.Done? && w.requests[id].phase.outcome.Accepted?
    ensures var r := Run(cfg, db, START, steps).requests[id];
            && r.began < revokedAt + Prelude.Max(cfg.ttl, cfg.staleIfError)
            && (!r.phase.failed ==> r.began < revokedAt + Min(cfg.ttl, IngestAuth.CACHE_TTL_SECONDS * SECOND))
  {
    hide Run;
    var w := Run(cfg, db, START, steps);
    var r := w.requests[id];
    DecisionsJustified(cfg, db, steps, id);
    var g :| g in w.rulings && Genuine(db, g) && Justifies(cfg, g, key, r.began, r.phase.outcome, r.phase.failed);
    assert g.at < revokedAt;
    assert g.verdict.ttlSeconds == IngestAuth.CACHE_TTL_SECONDS;
  }

  /** The other way round: a key that is honoured from some time on is refused, by requests whose
      own call does not fail, for less than negative_ttl after it. */
  lemma Reinstatement(cfg: Config, db: Database, steps: seq<Step>, key: string, honouredFrom: int, id: nat)
    requires ValidConfig(cfg)
    requires forall t | t >= honouredFrom :: IngestAuth.Validate(db(t), key, t).Valid?
    requires var w := Run(cfg, db, START, steps);
             && id in w.requests && w.requests[id].key == key
             && w.requests[id].phase.Done? && !w.requests[id].phase.failed && w.requests[id].phase.outcome.Rejected?
    ensures Run(cfg, db, START, steps).requests[id].began < honouredFrom + cfg.negativeTTL
  {
    hide Run;
    var w := Run(cfg, db, START, steps);
    var r := w.requests[id];
    DecisionsJustified(cfg, db, steps, id);
    var g :| g in w.rulings && Genuine(db, g) && Justifies(cfg, g, key, r.began, r.phase.outcome, r.phase.failed);
    assert g.at < honouredFrom;
  }

  // ---------------------------------------------------------------------
  // The code's two stretches, on the running cache

  class Authenticator {
    const cfg: Config
    const cache: Cache

    constructor (cfg: Config)
      ensures this.cfg == cfg && cache.Valid() && cache.maxEntries == cfg.maxEntries && cache.Contents() == EMPTY
      ensures fresh(cache) && cache.ll == []
    {
      this.cfg := cfg;
      cache := new Cache(cfg.maxEntries);
    }

    /** From reading the clock to the fresh-entry decision. */
    method LookUp(hash: string, now: int) returns (decided: Option<Outcome>)
      requires cache.Valid()
      modifies cache`ll
      ensures cache.Valid() && forall it <- cache.ll :: it in old(cache.ll)
      ensures (cache.Contents(), decided) == FirstLook(old(cache.Contents()), hash, now)
    {
      var e := cache.Get(hash);
      decided := None;
      if e.Some? && now < e.value.freshUntil {
        if !e.value.valid {
          decided := Some(Rejected);
        } else {
          decided := Some(Accepted(e.value.data));
        }
      }
    }

    /** From the reply to the final decision. */
    method Settle(hash: string, now: int, reply: Reply) returns (outcome: Outcome)
      requires cache.Valid() && cache.maxEntries == cfg.maxEntries
      modifies cache, cache.ll
      ensures cache.Valid() && forall it <- cache.ll :: it in old(cache.ll) || fresh(it)
      ensures (cache.Contents(), outcome) == Conclude(cfg, old(cache.Contents()), hash, now, reply)
    {
      hide Lookup, Store, Linked;
      match reply
      case Failure =>
        var e := cache.Get(hash);
        if e.Some? && e.value.valid && now < e.value.staleUntil {
          return Accepted(e.value.data);
        }
        return Rejected;
      case Answer(verdict) =>
        if verdict.Invalid? {
          cache.Put(hash, Entry(false, "", now + cfg.negativeTTL, ZERO_TIME));
          return Rejected;
        }
        var ttl := cfg.ttl;
        if verdict.ttlSeconds > 0 && verdict.ttlSeconds * SECOND < ttl {
          ttl := verdict.ttlSeconds * SECOND;
        }
        cache.Put(hash, Entry(true, verdict.clientId, now + ttl, now + cfg.staleIfError));
        return Accepted(verdict.clientId);
    }
  }
}
