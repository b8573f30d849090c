/** The per-tenant token bucket registry of the tenantquota processor: lazily
    created buckets, refilled on use, collected when idle.

    Times are seconds as reals, token counts are reals. */
module TokenBucket {
  import opened Prelude

  const IDLE_TIMEOUT := 600.0
  const GC_INTERVAL := 600.0

  datatype Bucket = Bucket(tokens: real, capacity: real, rate: real, lastSeen: real)

  /** One batch offered to the processor, with the clock reading it carries. */
  datatype Call = Call(tenant: string, limit: int, n: nat, now: real)

  /** The registry's fields; lastGC is None until the first sweep (Go's zero time). */
  datatype State = State(burst: real, buckets: map<string, Bucket>, lastGC: Option<real>)

  function Init(burst: real): State {
    State(burst, map[], None)
  }

  /** What accrues at a rate over a span of time. Hidden in the longer proofs below, which
      use only the three lemmas that follow. */
  function Accrued(rate: real, seconds: real): real {
    rate * seconds
  }

  lemma AccruedMono(rate: real, a: real, b: real)
    requires 0.0 <= rate && a <= b
    ensures Accrued(rate, a) <= Accrued(rate, b)
  {
    assert 0.0 <= rate * (b - a);
  }

  lemma AccruedPositive(rate: real, a: real)
    requires 0.0 <= rate && 0.0 <= a
    ensures 0.0 <= Accrued(rate, a)
  {
  }

  lemma AccruedSum(rate: real, x: real, y: real, z: real)
    ensures Accrued(rate, x - y) + Accrued(rate, y - z) == Accrued(rate, x - z)
  {
  }

  // ---------------------------------------------------------------------
  // One bucket

  function Capacity(limit: int, burst: real): real {
    Accrued(limit as real, burst)
  }

  function Fresh(limit: int, burst: real, now: real): Bucket {
    Bucket(Capacity(limit, burst), Capacity(limit, burst), limit as real, now)
  }

  /** Refill for the elapsed time at the old rate, then apply the limit of this call. */
  function Refill(b: Bucket, limit: int, burst: real, now: real): Bucket {
    var dt := now - b.lastSeen;
    var filled := if dt > 0.0 then b.tokens + Accrued(b.rate, dt) else b.tokens;
    Bucket(Min(filled, Capacity(limit, burst)), Capacity(limit, burst), limit as real, now)
  }

  function Spend(b: Bucket, n: nat): (Bucket, bool) {
    if n as real <= b.tokens then (b.(tokens := b.tokens - n as real), true) else (b, false)
  }

  /** Batches that never reach a bucket: no tenant, no limit, or empty. */
  predicate Unmetered(c: Call) {
    c.tenant == "" || c.limit <= 0 || c.n == 0
  }

  // ---------------------------------------------------------------------
  // The registry

  function Sweep(s: State, now: real): State {
    if s.lastGC.Some? && now - s.lastGC.value < GC_INTERVAL then s
    else State(s.burst,
               map t | t in s.buckets && now - s.buckets[t].lastSeen < IDLE_TIMEOUT :: s.buckets[t],
               Some(now))
  }

  /** One call of the registry's take. */
  function TakeStep(s: State, c: Call): (State, bool) {
    var s1 := Sweep(s, c.now);
    var b0 := if c.tenant in s1.buckets then s1.buckets[c.tenant] else Fresh(c.limit, s.burst, c.now);
    var (b, ok) := Spend(Refill(b0, c.limit, s.burst, c.now), c.n);
    (s1.(buckets := s1.buckets[c.tenant := b]), ok)
  }

  /** One batch at the processor's gate. */
  function Step(s: State, c: Call): (State, bool) {
    if Unmetered(c) then (s, true) else TakeStep(s, c)
  }

  function After(s: State, calls: seq<Call>): State
    decreases |calls|
  {
    if calls == [] then s else After(Step(s, calls[0]).0, calls[1..])
  }

  /** The decisions tenant t sees in an interleaved run. */
  function Decisions(t: string, s: State, calls: seq<Call>): seq<bool>
    decreases |calls|
  {
    if calls == [] then [] else
    var (s1, ok) := Step(s, calls[0]);
    (if calls[0].tenant == t then [ok] else []) + Decisions(t, s1, calls[1..])
  }

  /** The number of items of tenant t admitted in a run. */
  function Admitted(t: string, s: State, calls: seq<Call>): nat
    decreases |calls|
  {
    if calls == [] then 0 else
    var (s1, ok) := Step(s, calls[0]);
    (if calls[0].tenant == t && ok then calls[0].n else 0) + Admitted(t, s1, calls[1..])
  }

  // ---------------------------------------------------------------------
  // The reference: one bucket, one tenant, never collected

  function LoneStep(b: Option<Bucket>, burst: real, c: Call): (Option<Bucket>, bool) {
    if Unmetered(c) then (b, true) else
    var b0 := if b.Some? then b.value else Fresh(c.limit, burst, c.now);
    var (b1, ok) := Spend(Refill(b0, c.limit, burst, c.now), c.n);
    (Some(b1), ok)
  }

  function LoneRun(b: Option<Bucket>, burst: real, calls: seq<Call>): seq<bool>
    decreases |calls|
  {
    if calls == [] then [] else
    var (b1, ok) := LoneStep(b, burst, calls[0]);
    [ok] + LoneRun(b1, burst, calls[1..])
  }

  /** The calls of one tenant, in order. */
  function Of(t: string, calls: seq<Call>): seq<Call> {
    if calls == [] then [] else
    (if calls[0].tenant == t then [calls[0]] else []) + Of(t, calls[1..])
  }

  /** Clock readings never go back, and none precedes `from`. */
  ghost predicate Ordered(from: real, calls: seq<Call>)
    decreases |calls|
  {
    calls != [] ==> from <= calls[0].now && Ordered(calls[0].now, calls[1..])
  }

  ghost predicate Constant(t: string, limit: int, calls: seq<Call>) {
    forall c <- calls :: c.tenant == t ==> c.limit == limit
  }

  /** No reading is more than d behind an earlier one. */
  ghost predicate Skewed(d: real, calls: seq<Call>) {
    forall i, j :: 0 <= i < j < |calls| ==> calls[i].now - d <= calls[j].now
  }

  lemma {:induction false} UnskewedOrdered(calls: seq<Call>, from: real)
    requires Skewed(0.0, calls) && (calls != [] ==> from <= calls[0].now)
    ensures Ordered(from, calls)
    decreases |calls|
  {
    if calls != [] {
      UnskewedOrdered(calls[1..], calls[0].now);
    }
  }

  lemma {:induction false} OrderedUnskewed(calls: seq<Call>, from: real)
    requires Ordered(from, calls)
    ensures Skewed(0.0, calls) && forall c <- calls :: from <= c.now
    decreases |calls|
  {
    if calls != [] {
      OrderedUnskewed(calls[1..], calls[0].now);
      assert forall i :: 0 < i < |calls| ==> calls[i] == calls[1..][i - 1] && calls[i] in calls[1..];
    }
  }

  /** Wherever tenant t is metered, its limit is at least lo and at most ratio times lo. */
  ghost predicate Near(t: string, lo: int, ratio: real, calls: seq<Call>) {
    forall c <- calls :: c.tenant == t && !Unmetered(c) ==> lo <= c.limit && c.limit as real <= Accrued(lo as real, ratio)
  }

  lemma ConstantNear(t: string, limit: int, calls: seq<Call>)
    requires Constant(t, limit, calls)
    ensures Near(t, limit, 1.0, calls)
  {
  }

  // ---------------------------------------------------------------------
  // Isolation and GC transparency

  /** The lone bucket's own invariant: non-negative, within capacity, at the tenant's rate. */
  ghost predicate Sound(b: Bucket, limit: int, burst: real, clock: real) {
    && 0.0 <= b.tokens <= Capacity(limit, burst)
    && b.rate == limit as real
    && b.lastSeen <= clock
  }

  lemma RefillSound(b: Bucket, limit: int, burst: real, clock: real, now: real)
    requires limit > 0 && 0.0 < burst && clock <= now
    requires Sound(b, limit, burst, clock)
    ensures Sound(Refill(b, limit, burst, now), limit, burst, now)
  {
    hide Accrued;
    AccruedPositive(limit as real, now - b.lastSeen);
    AccruedPositive(limit as real, burst);
  }

  lemma FreshSound(limit: int, burst: real, now: real)
    requires limit > 0 && 0.0 < burst
    ensures Sound(Fresh(limit, burst, now), limit, burst, now)
    ensures Refill(Fresh(limit, burst, now), limit, burst, now) == Fresh(limit, burst, now)
  {
    hide Accrued;
    AccruedPositive(limit as real, burst);
  }

  /** The clock after a run that starts at `from`. */
  function Last(from: real, calls: seq<Call>): real
    decreases |calls|
  {
    if calls == [] then from else Last(calls[0].now, calls[1..])
  }

  lemma {:induction false} LastIs(from: real, calls: seq<Call>)
    requires calls != []
    ensures Last(from, calls) == calls[|calls| - 1].now
    decreases |calls|
  {
    if |calls| > 1 {
      LastIs(calls[0].now, calls[1..]);
    }
  }

  /** How the registry's view of tenant t relates to the lone bucket when no later reading
      precedes `floor`: the same bucket, or a missing one whose lone twin has been idle for so
      long that it is full again. */
  ghost predicate Matches(s: State, b: Option<Bucket>, t: string, lo: int, d: real, floor: real) {
    && (t in s.buckets ==> b == Some(s.buckets[t]))
    && (b.Some? ==> 0.0 <= b.value.tokens && lo as real <= b.value.rate)
    && (t !in s.buckets && b.Some? ==> floor - b.value.lastSeen >= IDLE_TIMEOUT - d)
  }

  /** The runs on which collection is shown to be invisible. */
  ghost predicate Covered(burst: real, lo: int, ratio: real, d: real) {
    lo > 0 && 0.0 < burst && 1.0 <= ratio && 0.0 <= d && Accrued(ratio, burst) + d <= IDLE_TIMEOUT
  }

  /** What accrues at the lowest rate while idle fills the largest capacity. */
  lemma IdleFills(burst: real, lo: int, ratio: real, d: real, limit: int, rate: real, idle: real)
    requires Covered(burst, lo, ratio, d) && limit as real <= Accrued(lo as real, ratio)
    requires lo as real <= rate && IDLE_TIMEOUT - d <= idle
    ensures 0.0 < idle && Capacity(limit, burst) <= Accrued(rate, idle)
  {
    var l := lo as real;
    assert 0.0 < ratio * burst;
    assert (l * ratio - limit as real) * burst >= 0.0;
    assert l * ratio * burst == l * (ratio * burst);
    AccruedMono(l, ratio * burst, idle);
    assert (rate - l) * idle >= 0.0;
  }

  /** A sound bucket that was idle for long enough refills to exactly a fresh one. */
  lemma IdleRefill(b: Bucket, burst: real, lo: int, ratio: real, d: real, limit: int, now: real)
    requires Covered(burst, lo, ratio, d) && limit as real <= Accrued(lo as real, ratio)
    requires 0.0 <= b.tokens && lo as real <= b.rate && IDLE_TIMEOUT - d <= now - b.lastSeen
    ensures Refill(b, limit, burst, now) == Fresh(limit, burst, now)
  {
    hide Accrued, Capacity, Covered;
    IdleFills(burst, lo, ratio, d, limit, b.rate, now - b.lastSeen);
  }

  lemma RefillPositive(b: Bucket, limit: int, burst: real, now: real)
    requires limit > 0 && 0.0 < burst && 0.0 <= b.tokens && 0.0 <= b.rate
    ensures 0.0 <= Refill(b, limit, burst, now).tokens
  {
    hide Accrued;
    AccruedPositive(limit as real, burst);
    if now > b.lastSeen {
      AccruedPositive(b.rate, now - b.lastSeen);
    }
  }

  lemma MatchesStep(s: State, b: Option<Bucket>, t: string, lo: int, ratio: real, d: real, floor: real, c: Call, floor': real)
    requires Covered(s.burst, lo, ratio, d) && Matches(s, b, t, lo, d, floor)
    requires floor <= c.now && floor <= floor' && c.now - d <= floor'
    requires c.tenant == t && !Unmetered(c) ==> lo <= c.limit && c.limit as real <= Accrued(lo as real, ratio)
    ensures c.tenant == t ==>
              && Step(s, c).1 == LoneStep(b, s.burst, c).1
              && Matches(Step(s, c).0, LoneStep(b, s.burst, c).0, t, lo, d, floor')
    ensures c.tenant != t ==> Matches(Step(s, c).0, b, t, lo, d, floor')
    ensures Step(s, c).0.burst == s.burst
  {
    hide Accrued, Capacity;
    var s1 := Sweep(s, c.now);
    if !Unmetered(c) && c.tenant == t {
      FreshSound(c.limit, s.burst, c.now);
      if b.Some? && t !in s1.buckets {
        IdleRefill(b.value, s.burst, lo, ratio, d, c.limit, c.now);
      }
      var b0 := if b.Some? then b.value else Fresh(c.limit, s.burst, c.now);
      RefillPositive(b0, c.limit, s.burst, c.now);
    }
  }

  ghost predicate NotBefore(floor: real, calls: seq<Call>) {
    forall c <- calls :: floor <= c.now
  }

  lemma NextFloor(d: real, floor: real, calls: seq<Call>) returns (floor': real)
    requires calls != [] && Skewed(d, calls) && NotBefore(floor, calls)
    ensures floor <= calls[0].now && floor <= floor' && calls[0].now - d <= floor'
    ensures Skewed(d, calls[1..]) && NotBefore(floor', calls[1..])
  {
    floor' := if calls[0].now - d > floor then calls[0].now - d else floor;
    forall c <- calls[1..] ensures floor' <= c.now {
      var j :| 0 < j < |calls| && calls[j] == c;
    }
  }

  lemma OfNext(t: string, calls: seq<Call>)
    requires calls != []
    ensures calls[0].tenant == t ==> Of(t, calls) == [calls[0]] + Of(t, calls[1..])
    ensures calls[0].tenant != t ==> Of(t, calls) == Of(t, calls[1..])
  {
  }

  lemma DecisionsNext(t: string, s: State, calls: seq<Call>)
    requires calls != []
    ensures var (s1, ok) := Step(s, calls[0]);
            && (calls[0].tenant == t ==> Decisions(t, s, calls) == [ok] + Decisions(t, s1, calls[1..]))
            && (calls[0].tenant != t ==> Decisions(t, s, calls) == Decisions(t, s1, calls[1..]))
  {
    hide Step;
  }

  lemma LoneNext(b: Option<Bucket>, burst: real, c: Call, rest: seq<Call>)
    ensures var (b1, ok) := LoneStep(b, burst, c);
            LoneRun(b, burst, [c] + rest) == [ok] + LoneRun(b1, burst, rest)
  {
    hide LoneStep;
    assert ([c] + rest)[1..] == rest;
  }

  lemma {:induction false} MatchesRun(s: State, b: Option<Bucket>, t: string, lo: int, ratio: real, d: real, floor: real, calls: seq<Call>)
    requires Covered(s.burst, lo, ratio, d) && Matches(s, b, t, lo, d, floor)
    requires Skewed(d, calls) && Near(t, lo, ratio, calls) && NotBefore(floor, calls)
    ensures Decisions(t, s, calls) == LoneRun(b, s.burst, Of(t, calls))
    decreases |calls|
  {
    if calls != [] {
      hide Step, LoneStep, Matches, Covered, Skewed, Accrued, Near, NotBefore, Decisions, LoneRun, Of;
      var c, rest := calls[0], calls[1..];
      var floor' := NextFloor(d, floor, calls);
      NearNext(t, lo, ratio, calls);
      MatchesStep(s, b, t, lo, ratio, d, floor, c, floor');
      var b1 := if c.tenant == t then LoneStep(b, s.burst, c).0 else b;
      MatchesRun(Step(s, c).0, b1, t, lo, ratio, d, floor', rest);
      OfNext(t, calls);
      DecisionsNext(t, s, calls);
      LoneNext(b, s.burst, c, Of(t, rest));
    }
  }

  lemma NearNext(t: string, lo: int, ratio: real, calls: seq<Call>)
    requires calls != [] && Near(t, lo, ratio, calls)
    ensures calls[0].tenant == t && !Unmetered(calls[0]) ==>
              lo <= calls[0].limit && calls[0].limit as real <= Accrued(lo as real, ratio)
    ensures Near(t, lo, ratio, calls[1..])
  {
    hide Accrued;
  }

  ghost predicate Transparent(burst: real, t: string, calls: seq<Call>) {
    Decisions(t, Init(burst), calls) == LoneRun(None, burst, Of(t, calls))
  }

  /** Whatever other tenants do and whenever the sweep runs, a tenant's decisions are those of its
      own never-collected bucket, as long as clock readings lag by at most d and its limits stay
      within a ratio that leaves room for it. */
  lemma Isolation(burst: real, t: string, lo: int, ratio: real, d: real, calls: seq<Call>)
    requires Covered(burst, lo, ratio, d)
    requires Skewed(d, calls) && Near(t, lo, ratio, calls)
    ensures Transparent(burst, t, calls)
  {
    hide Accrued;
    if calls != [] {
      var floor := calls[0].now - d;
      forall c <- calls ensures floor <= c.now {
        var j :| 0 <= j < |calls| && calls[j] == c;
      }
      MatchesRun(Init(burst), None, t, lo, ratio, d, floor, calls);
    }
  }

  /** A run on which collection shows: a tenant drains its bucket, another one's call collects it,
      and a reading that lags by e brings the first tenant back under a larger limit. */
  function DrainAndReturn(lo: int, n: nat, hi: int, m: nat, e: real): seq<Call> {
    [Call("t", lo, n, 0.0), Call("u", 1, 1, IDLE_TIMEOUT), Call("t", hi, m, IDLE_TIMEOUT - e)]
  }

  /** Two batches that each fit the full bucket, while the second does not fit what the first left
      and the idle time refilled. */
  ghost predicate Draining(burst: real, idle: real, lo: int, n: nat, hi: int, m: nat) {
    && 0 < lo <= hi && 0 < n && 0 < m
    && n as real <= Capacity(lo, burst) && m as real <= Capacity(hi, burst)
    && Capacity(lo, burst) - n as real + Accrued(lo as real, idle) < m as real
  }

  lemma DrainingBatches(burst: real, idle: real, ratio: real) returns (lo: int, n: nat, hi: int, m: nat)
    requires 0.0 < burst && 0.0 <= idle && 1.0 <= ratio && idle < Accrued(ratio, burst)
    ensures Draining(burst, idle, lo, n, hi, m) && hi as real <= Accrued(lo as real, ratio)
    ensures n == Capacity(lo, burst).Floor && m == Capacity(hi, burst).Floor
  {
    hide Accrued;
    var gap := Accrued(ratio, burst) - idle;
    lo := ((2.0 + burst) / gap).Floor + (1.0 / burst).Floor + 2;
    Quotients(2.0 + burst, gap, 1.0, burst);
    LargeEnough(lo as real, 2.0 + burst, gap);
    LargeEnough(lo as real, 1.0, burst);
    AccruedMono(lo as real, 1.0, ratio);
    AccruedOnce(lo as real);
    hi := Accrued(lo as real, ratio).Floor;
    AccruedRates(lo as real, hi as real, burst);
    Widens(lo as real, hi as real, ratio, burst, idle);
    n, m := Capacity(lo, burst).Floor, Capacity(hi, burst).Floor;
  }

  lemma Quotients(a: real, b: real, x: real, y: real)
    requires 0.0 <= a && 0.0 < b && 0.0 <= x && 0.0 < y
    ensures 0.0 <= a / b && 0.0 <= x / y
  {
  }

  lemma AccruedOnce(rate: real)
    ensures Accrued(rate, 1.0) == rate
  {
  }

  /** What the larger limit holds exceeds what the smaller one accrues while idle by two items. */
  lemma Widens(lo: real, hi: real, ratio: real, burst: real, idle: real)
    requires 0.0 < burst && Accrued(lo, ratio) - 1.0 <= hi && 2.0 + burst <= Accrued(lo, Accrued(ratio, burst) - idle)
    ensures Accrued(lo, idle) + 2.0 <= Accrued(hi, burst)
  {
    hide Accrued;
    AccruedRates(Accrued(lo, ratio) - 1.0, hi, burst);
    AccruedTwice(lo, ratio, burst);
    AccruedSum(lo, Accrued(ratio, burst), idle, 0.0);
  }

  lemma AccruedTwice(lo: real, ratio: real, burst: real)
    ensures Accrued(Accrued(lo, ratio) - 1.0, burst) == Accrued(lo, Accrued(ratio, burst)) - burst
  {
  }

  lemma LargeEnough(x: real, a: real, b: real)
    requires 0.0 <= a && 0.0 < b && a / b <= x
    ensures a <= Accrued(x, b)
  {
    assert a / b * b == a;
    assert (x - a / b) * b >= 0.0;
  }

  lemma DrainedRun(burst: real, lo: int, n: nat, hi: int, m: nat, e: real)
    requires 0.0 < burst && 0.0 <= e <= IDLE_TIMEOUT && Draining(burst, IDLE_TIMEOUT - e, lo, n, hi, m)
    ensures !Transparent(burst, "t", DrainAndReturn(lo, n, hi, m, e))
  {
    hide Accrued, Capacity;
    var calls := DrainAndReturn(lo, n, hi, m, e);
    var b1 := Bucket(Capacity(lo, burst) - n as real, Capacity(lo, burst), lo as real, 0.0);
    var s1 := State(burst, map["t" := b1], Some(0.0));
    assert Sweep(Init(burst), 0.0) == State(burst, map[], Some(0.0));
    assert Step(Init(burst), calls[0]) == (s1, true);
    // the other tenant's call drops the idle bucket, so the registry starts over with a full one
    var s2 := Step(s1, calls[1]).0;
    assert "t" !in s2.buckets && s2.burst == burst && s2.lastGC == Some(IDLE_TIMEOUT);
    assert Step(s2, calls[2]).1;
    // the lone bucket has refilled by less than that
    ZeroAccrues(lo as real);
    assert !LoneStep(Some(b1), burst, calls[2]).1;
    DrainedDecisions(burst, calls, s1, s2, b1);
  }

  lemma DrainedDecisions(burst: real, calls: seq<Call>, s1: State, s2: State, b1: Bucket)
    requires |calls| == 3 && calls[0].tenant == "t" && calls[1].tenant == "u" && calls[2].tenant == "t"
    requires Step(Init(burst), calls[0]) == (s1, true) && LoneStep(None, burst, calls[0]) == (Some(b1), true)
    requires Step(s1, calls[1]).0 == s2
    requires Step(s2, calls[2]).1 && !LoneStep(Some(b1), burst, calls[2]).1
    ensures !Transparent(burst, "t", calls)
  {
    hide Step, LoneStep;
    var rest, last := [calls[1], calls[2]], [calls[2]];
    assert calls[1..] == rest && rest[1..] == last && last[1..] == [];
    assert Decisions("t", s2, last)[0];
    assert Decisions("t", s1, rest) == Decisions("t", s2, last);
    assert Decisions("t", Init(burst), calls) == [true] + Decisions("t", s2, last);
    assert Of("t", last) == last;
    assert Of("t", rest) == Of("t", rest[1..]);
    assert Of("t", calls) == [calls[0]] + Of("t", calls[1..]);
    assert !LoneRun(Some(b1), burst, last)[0];
    assert Of("t", calls)[1..] == last;
    assert LoneRun(None, burst, Of("t", calls)) == [true] + LoneRun(Some(b1), burst, last);
    assert Decisions("t", Init(burst), calls)[1] != LoneRun(None, burst, Of("t", calls))[1];
  }

  lemma DrainAllowed(lo: int, n: nat, hi: int, m: nat, e: real, ratio: real, d: real)
    requires 0 < lo <= hi && hi as real <= Accrued(lo as real, ratio) && 0.0 <= e <= IDLE_TIMEOUT && e <= d
    ensures var calls := DrainAndReturn(lo, n, hi, m, e); Skewed(d, calls) && Near("t", lo, ratio, calls)
  {
    hide Accrued;
  }

  ghost predicate AlwaysTransparent(burst: real, ratio: real, d: real) {
    forall t, lo, calls: seq<Call> ::
      lo > 0 && Skewed(d, calls) && Near(t, lo, ratio, calls) ==> Transparent(burst, t, calls)
  }

  /** Collection is invisible on every run in which readings lag by at most d and a tenant's limits
      stay within a ratio, exactly when ratio times burst plus d fits the idle timeout. */
  lemma TransparencyCondition(burst: real, ratio: real, d: real)
    requires 0.0 < burst && 1.0 <= ratio && 0.0 <= d
    ensures AlwaysTransparent(burst, ratio, d) <==> ratio * burst + d <= IDLE_TIMEOUT
  {
    hide Transparent, Skewed, Near, Draining;
    if ratio * burst + d <= IDLE_TIMEOUT {
      forall t, lo, calls: seq<Call> | lo > 0 && Skewed(d, calls) && Near(t, lo, ratio, calls)
        ensures Transparent(burst, t, calls)
      {
        Isolation(burst, t, lo, ratio, d, calls);
      }
    } else {
      var e := Min(d, IDLE_TIMEOUT);
      assert 0.0 < ratio * burst;
      var lo, n, hi, m := DrainingBatches(burst, IDLE_TIMEOUT - e, ratio);
      DrainedRun(burst, lo, n, hi, m, e);
      assert 0 < lo <= hi by { DrainingLimits(burst, IDLE_TIMEOUT - e, lo, n, hi, m); }
      DrainAllowed(lo, n, hi, m, e, ratio, d);
    }
  }

  lemma DrainingLimits(burst: real, idle: real, lo: int, n: nat, hi: int, m: nat)
    requires Draining(burst, idle, lo, n, hi, m)
    ensures 0 < lo <= hi
  {
  }

  // ---------------------------------------------------------------------
  // Rate bound

  /** How far the clock moves forward between two readings. */
  function Rise(from: real, to: real): real {
    if to > from then to - from else 0.0
  }

  /** How far the clock moves forward over a run, backward moves not counted. */
  function Forward(from: real, calls: seq<Call>): real
    decreases |calls|
  {
    if calls == [] then 0.0 else Rise(from, calls[0].now) + Forward(calls[0].now, calls[1..])
  }

  /** Tenant t's limits are positive and at most this one. */
  ghost predicate Capped(t: string, limit: int, calls: seq<Call>) {
    forall c <- calls :: c.tenant == t ==> 0 < c.limit <= limit
  }

  /** Tenant t's bucket, if there is one, is within the largest capacity and rate. */
  ghost predicate Tidy(s: State, t: string, limit: int) {
    t in s.buckets ==> 0.0 <= s.buckets[t].tokens <= Capacity(limit, s.burst) && 0.0 <= s.buckets[t].rate <= limit as real
  }

  /** What tenant t could take at a clock reading under this limit; a missing bucket would be a
      full one. */
  function Avail(s: State, t: string, limit: int, clock: real): real {
    if t !in s.buckets then Capacity(limit, s.burst) else
    var b := s.buckets[t];
    Min(b.tokens + Accrued(limit as real, Rise(b.lastSeen, clock)), Capacity(limit, s.burst))
  }

  lemma RiseSplit(rate: real, a: real, b: real, c: real)
    requires 0.0 <= rate
    ensures Accrued(rate, Rise(a, c)) <= Accrued(rate, Rise(a, b)) + Accrued(rate, Rise(b, c))
    ensures 0.0 <= Accrued(rate, Rise(a, c)) && 0.0 <= Accrued(rate, Rise(b, c))
  {
    hide Accrued;
    AccruedMono(rate, Rise(a, c), Rise(a, b) + Rise(b, c));
    AccruedPositive(rate, Rise(a, c));
    AccruedPositive(rate, Rise(b, c));
    AccruedSum(rate, Rise(a, b) + Rise(b, c), Rise(b, c), 0.0);
  }

  /** Moving the clock, in either direction, makes at most its rise available. */
  lemma AvailMoves(s: State, t: string, limit: int, clock: real, now: real)
    requires limit > 0
    ensures Avail(s, t, limit, now) <= Avail(s, t, limit, clock) + Accrued(limit as real, Rise(clock, now))
  {
    hide Accrued, Capacity;
    RiseSplit(limit as real, clock, clock, now);
    if t in s.buckets {
      RiseSplit(limit as real, s.buckets[t].lastSeen, clock, now);
    }
  }

  /** The sweep takes nothing from a tenant and gives it nothing, whatever the clock says. */
  lemma AvailSwept(s: State, t: string, limit: int, now: real)
    requires limit > 0 && 0.0 < s.burst <= IDLE_TIMEOUT && Tidy(s, t, limit)
    ensures Tidy(Sweep(s, now), t, limit) && Avail(Sweep(s, now), t, limit, now) == Avail(s, t, limit, now)
  {
    hide Accrued;
    if t in s.buckets && now - s.buckets[t].lastSeen >= IDLE_TIMEOUT {
      AccruedMono(limit as real, s.burst, Rise(s.buckets[t].lastSeen, now));
    }
  }

  /** What the tenant takes comes out of what was available. */
  lemma AvailTaken(s: State, limit: int, c: Call)
    requires 0 < c.limit <= limit && 0.0 < s.burst && Tidy(s, c.tenant, limit)
    ensures var b0 := if c.tenant in s.buckets then s.buckets[c.tenant] else Fresh(c.limit, s.burst, c.now);
            var (b, ok) := Spend(Refill(b0, c.limit, s.burst, c.now), c.n);
            var s' := s.(buckets := s.buckets[c.tenant := b]);
            && Tidy(s', c.tenant, limit)
            && Avail(s', c.tenant, limit, c.now) + (if ok then c.n as real else 0.0) <= Avail(s, c.tenant, limit, c.now)
  {
    hide Accrued;
    AccruedPositive(c.limit as real, s.burst);
    AccruedRates(c.limit as real, limit as real, s.burst);
    AccruedSum(limit as real, 0.0, 0.0, 0.0);
    if c.tenant in s.buckets {
      var b := s.buckets[c.tenant];
      AccruedPositive(b.rate, Rise(b.lastSeen, c.now));
      AccruedRates(b.rate, limit as real, Rise(b.lastSeen, c.now));
    }
  }

  lemma AccruedRates(a: real, b: real, seconds: real)
    requires a <= b && 0.0 <= seconds
    ensures Accrued(a, seconds) <= Accrued(b, seconds)
  {
    assert (b - a) * seconds >= 0.0;
  }

  function Given(t: string, s: State, c: Call): real {
    if c.tenant == t && Step(s, c).1 then c.n as real else 0.0
  }

  lemma AvailStep(s: State, t: string, limit: int, clock: real, c: Call)
    requires limit > 0 && 0.0 < s.burst <= IDLE_TIMEOUT && t != "" && Tidy(s, t, limit)
    requires c.tenant == t ==> 0 < c.limit <= limit
    ensures var s' := Step(s, c).0;
            && s'.burst == s.burst && Tidy(s', t, limit)
            && Given(t, s, c) + Avail(s', t, limit, c.now) <= Avail(s, t, limit, clock) + Accrued(limit as real, Rise(clock, c.now))
  {
    hide Accrued, Capacity, Sweep, Refill, Spend, Avail;
    AvailMoves(s, t, limit, clock, c.now);
    if !Unmetered(c) {
      AvailSwept(s, t, limit, c.now);
      var s1 := Sweep(s, c.now);
      SweepBurst(s, c.now);
      if c.tenant == t {
        AvailTaken(s1, limit, c);
      } else {
        AvailOther(s1, t, limit, c.now, Step(s, c).0);
      }
    }
  }

  lemma SweepBurst(s: State, now: real)
    ensures Sweep(s, now).burst == s.burst
  {
  }

  lemma AvailOther(s: State, t: string, limit: int, now: real, s': State)
    requires s'.burst == s.burst && (t in s.buckets <==> t in s'.buckets) && (t in s.buckets ==> s'.buckets[t] == s.buckets[t])
    ensures Avail(s', t, limit, now) == Avail(s, t, limit, now)
  {
  }

  lemma {:induction false} AvailRun(s: State, t: string, limit: int, clock: real, calls: seq<Call>)
    requires limit > 0 && 0.0 < s.burst <= IDLE_TIMEOUT && t != "" && Tidy(s, t, limit) && Capped(t, limit, calls)
    ensures Tidy(After(s, calls), t, limit) && After(s, calls).burst == s.burst
    ensures Admitted(t, s, calls) as real <= Avail(s, t, limit, clock) + Accrued(limit as real, Forward(clock, calls))
    decreases |calls|
  {
    hide Step, Tidy, Capacity, Accrued, Avail;
    if calls == [] {
      AvailPositive(s, t, limit, clock);
      AccruedPositive(limit as real, 0.0);
    } else {
      var c, rest := calls[0], calls[1..];
      AvailStep(s, t, limit, clock, c);
      AvailRun(Step(s, c).0, t, limit, c.now, rest);
      AccruedSum(limit as real, Rise(clock, c.now) + Forward(c.now, rest), Forward(c.now, rest), 0.0);
    }
  }

  lemma AvailPositive(s: State, t: string, limit: int, clock: real)
    requires limit > 0 && 0.0 < s.burst && Tidy(s, t, limit)
    ensures 0.0 <= Avail(s, t, limit, clock) <= Capacity(limit, s.burst)
  {
    hide Accrued;
    AccruedPositive(limit as real, s.burst);
    if t in s.buckets {
      AccruedPositive(limit as real, Rise(s.buckets[t].lastSeen, clock));
    }
  }

  /** In any stretch [i, j) of any run, with clock readings in any order and limits that change from
      call to call, a tenant gets at most one burst plus its largest rate times the distance the
      clock moves forward in the stretch. */
  lemma RateBoundForward(burst: real, t: string, limit: int, calls: seq<Call>, i: nat, j: nat)
    requires limit > 0 && 0.0 < burst <= IDLE_TIMEOUT && t != "" && Capped(t, limit, calls) && i < j <= |calls|
    ensures Admitted(t, After(Init(burst), calls[..i]), calls[i..j]) as real
            <= Capacity(limit, burst) + Accrued(limit as real, Forward(calls[i].now, calls[i..j]))
  {
    hide After, Admitted, Avail, Capacity, Accrued, Forward;
    AvailRun(Init(burst), t, limit, 0.0, calls[..i]);
    var s := After(Init(burst), calls[..i]);
    AvailRun(s, t, limit, calls[i].now, calls[i..j]);
    AvailPositive(s, t, limit, calls[i].now);
  }

  lemma {:induction false} ForwardOrdered(from: real, calls: seq<Call>)
    requires Ordered(from, calls)
    ensures Forward(from, calls) == Last(from, calls) - from
    decreases |calls|
  {
    if calls != [] {
      ForwardOrdered(calls[0].now, calls[1..]);
    }
  }

  lemma {:induction false} OrderedConcat(from: real, a: seq<Call>, b: seq<Call>)
    requires Ordered(from, a + b)
    ensures Ordered(from, a) && Ordered(Last(from, a), b)
    decreases |a|
  {
    if a == [] {
      assert a + b == b;
    } else {
      assert (a + b)[1..] == a[1..] + b;
      OrderedConcat(a[0].now, a[1..], b);
    }
  }

  lemma {:induction false} OrderedWindow(from: real, calls: seq<Call>, i: nat, j: nat)
    requires Ordered(from, calls) && i < j <= |calls|
    ensures Ordered(from, calls[..i]) && Last(from, calls[..i]) <= calls[i].now
    ensures Ordered(calls[i].now, calls[i..j])
  {
    var a, b, c := calls[..i], calls[i..j], calls[j..];
    assert calls == (a + b) + c;
    OrderedConcat(from, a + b, c);
    OrderedConcat(from, a, b);
  }

  /** With ordered readings that distance is the stretch's duration. */
  lemma RateBound(burst: real, t: string, limit: int, start: real, calls: seq<Call>, i: nat, j: nat)
    requires limit > 0 && 0.0 < burst <= IDLE_TIMEOUT && t != ""
    requires Ordered(start, calls) && Capped(t, limit, calls)
    requires i < j <= |calls|
    ensures Admitted(t, After(Init(burst), calls[..i]), calls[i..j]) as real
            <= Capacity(limit, burst) + Accrued(limit as real, calls[j - 1].now - calls[i].now)
  {
    hide After, Admitted, Capacity, Accrued, Forward, Last;
    RateBoundForward(burst, t, limit, calls, i, j);
    OrderedWindow(start, calls, i, j);
    ForwardOrdered(calls[i].now, calls[i..j]);
    LastIs(calls[i].now, calls[i..j]);
  }

  /** The bound on one stretch of one run. */
  ghost predicate WithinRate(burst: real, t: string, limit: int, calls: seq<Call>, i: nat, j: nat)
    requires i < j <= |calls|
  {
    Admitted(t, After(Init(burst), calls[..i]), calls[i..j]) as real
      <= Capacity(limit, burst) + Accrued(limit as real, calls[j - 1].now - calls[i].now)
  }

  /** The bound on every stretch of every run whose readings lag by at most d. */
  ghost predicate AlwaysWithinRate(burst: real, d: real) {
    forall t, limit, calls, i: nat, j: nat ::
      limit > 0 && t != "" && Skewed(d, calls) && Capped(t, limit, calls) && i < j <= |calls| ==>
        WithinRate(burst, t, limit, calls, i, j)
  }

  /** Drain the bucket, stay idle for exactly the timeout, then ask for the same amount again. */
  function DrainTwice(limit: int, n: nat): seq<Call> {
    [Call("t", limit, n, 0.0), Call("t", limit, n, IDLE_TIMEOUT)]
  }

  lemma DrainingBatch(burst: real) returns (limit: int, n: nat)
    requires burst > IDLE_TIMEOUT
    ensures limit > 0 && n > 0
    ensures n as real <= Capacity(limit, burst)
    ensures Capacity(limit, burst) - n as real + Accrued(limit as real, IDLE_TIMEOUT) < n as real
  {
    var lo, k, hi, m := DrainingBatches(burst, IDLE_TIMEOUT, 1.0);
    assert hi == lo;
    limit, n := lo, k;
  }

  lemma DrainedTwice(burst: real, limit: int, n: nat)
    requires burst > IDLE_TIMEOUT && limit > 0 && n > 0
    requires n as real <= Capacity(limit, burst)
    requires Capacity(limit, burst) - n as real + Accrued(limit as real, IDLE_TIMEOUT) < n as real
    ensures !WithinRate(burst, "t", limit, DrainTwice(limit, n), 0, 2)
  {
    hide Accrued, Capacity;
    var cap := Capacity(limit, burst);
    var calls := DrainTwice(limit, n);
    var s1 := State(burst, map["t" := Bucket(cap - n as real, cap, limit as real, 0.0)], Some(0.0));
    assert Sweep(Init(burst), 0.0) == State(burst, map[], Some(0.0));
    assert Step(Init(burst), calls[0]) == (s1, true);
    assert Step(s1, calls[1]).1;
    assert calls[..0] == [] && calls[0..2] == calls && calls[1..] == [calls[1]] && [calls[1]][1..] == [];
    assert Admitted("t", s1, [calls[1]]) == n;
    assert Admitted("t", Init(burst), calls) == 2 * n;
  }

  lemma BoundHolds(burst: real, t: string, limit: int, calls: seq<Call>, i: nat, j: nat)
    requires limit > 0 && 0.0 < burst <= IDLE_TIMEOUT && t != ""
    requires Skewed(0.0, calls) && Capped(t, limit, calls) && i < j <= |calls|
    ensures WithinRate(burst, t, limit, calls, i, j)
  {
    UnskewedOrdered(calls, calls[0].now);
    RateBound(burst, t, limit, calls[0].now, calls, i, j);
  }

  lemma DrainSkewed(limit: int, n: nat, d: real)
    requires limit > 0 && 0.0 <= d
    ensures Skewed(d, DrainTwice(limit, n)) && Capped("t", limit, DrainTwice(limit, n))
  {
  }

  // ---------------------------------------------------------------------
  // Readings out of order

  /** Empty the bucket, step the clock back, step it forward again: the interval counts twice. */
  function BackAndForth(limit: int, n: nat, d: real): seq<Call> {
    [Call("t", limit, n, d), Call("t", limit, 1, 0.0), Call("t", limit, 1, d)]
  }

  /** A limit at which both the burst and the skew are worth at least one item, and what fills
      the bucket up to less than one. */
  lemma FillingBatch(burst: real, d: real) returns (limit: int, n: nat)
    requires burst > 0.0 && d > 0.0
    ensures limit > 0 && n > 0 && n as real <= Capacity(limit, burst) < n as real + 1.0
    ensures 1.0 <= Accrued(limit as real, d)
  {
    var q, r := 1.0 / burst, 1.0 / d;
    assert q * burst == 1.0 && r * d == 1.0;
    limit := q.Floor + r.Floor + 2;
    var rate := limit as real;
    assert Accrued(rate, burst) >= 1.0 by {
      assert (rate - q) * burst >= 0.0;
    }
    assert Accrued(rate, d) >= 1.0 by {
      assert (rate - r) * d >= 0.0;
    }
    n := Capacity(limit, burst).Floor;
  }

  lemma BackAndForthTwice(burst: real, limit: int, n: nat, d: real)
    requires burst > 0.0 && d > 0.0 && limit > 0 && n > 0
    requires n as real <= Capacity(limit, burst) < n as real + 1.0 && 1.0 <= Accrued(limit as real, d)
    ensures !WithinRate(burst, "t", limit, BackAndForth(limit, n, d), 0, 3)
  {
    hide Accrued, Capacity;
    var calls := BackAndForth(limit, n, d);
    var cap, rate := Capacity(limit, burst), limit as real;
    var s1 := State(burst, map["t" := Bucket(cap - n as real, cap, rate, d)], Some(d));
    var s2 := State(burst, map["t" := Bucket(cap - n as real, cap, rate, 0.0)], Some(d));
    assert s1.buckets["t" := s2.buckets["t"]] == s2.buckets;
    assert Sweep(Init(burst), d) == State(burst, map[], Some(d));
    assert Step(Init(burst), calls[0]) == (s1, true);
    assert Step(s1, calls[1]) == (s2, false);
    assert Step(s2, calls[2]).1;
    BackAndForthAdmits(burst, limit, n, d, s1, s2);
    ZeroAccrues(rate);
  }

  lemma ZeroAccrues(rate: real)
    ensures Accrued(rate, 0.0) == 0.0
  {
  }

  lemma BackAndForthAdmits(burst: real, limit: int, n: nat, d: real, s1: State, s2: State)
    requires var calls := BackAndForth(limit, n, d);
             Step(Init(burst), calls[0]) == (s1, true) && Step(s1, calls[1]) == (s2, false) && Step(s2, calls[2]).1
    ensures var calls := BackAndForth(limit, n, d);
            Admitted("t", After(Init(burst), calls[..0]), calls[0..3]) == n + 1
  {
    hide Step;
    var calls := BackAndForth(limit, n, d);
    assert calls[..0] == [] && calls[0..3] == calls;
    assert calls[1..] == [calls[1], calls[2]] && [calls[1], calls[2]][1..] == [calls[2]] && [calls[2]][1..] == [];
    assert Admitted("t", s2, [calls[2]]) == 1;
    assert Admitted("t", s1, [calls[1], calls[2]]) == 1;
  }

  lemma BackAndForthSkewed(limit: int, n: nat, d: real)
    requires d > 0.0
    ensures Skewed(d, BackAndForth(limit, n, d)) && Constant("t", limit, BackAndForth(limit, n, d))
    ensures limit > 0 ==> Capped("t", limit, BackAndForth(limit, n, d))
  {
  }

  /** The duration bound holds on every run whose readings lag by at most d exactly when the burst
      does not exceed the idle timeout and nothing lags at all. The clock is read before the lock,
      so d is not zero by force. */
  lemma RateBoundCondition(burst: real, d: real)
    requires 0.0 < burst && 0.0 <= d
    ensures AlwaysWithinRate(burst, d) <==> burst <= IDLE_TIMEOUT && d == 0.0
  {
    hide WithinRate, Capped, Constant, Skewed;
    if d > 0.0 {
      var limit, n := FillingBatch(burst, d);
      BackAndForthTwice(burst, limit, n, d);
      BackAndForthSkewed(limit, n, d);
    } else if burst > IDLE_TIMEOUT {
      var limit, n := DrainingBatch(burst);
      DrainedTwice(burst, limit, n);
      DrainSkewed(limit, n, d);
    } else {
      forall t, limit, calls: seq<Call>, i: nat, j: nat
        | limit > 0 && t != "" && Skewed(d, calls) && Capped(t, limit, calls) && i < j <= |calls|
        ensures WithinRate(burst, t, limit, calls, i, j)
      {
        BoundHolds(burst, t, limit, calls, i, j);
      }
    }
  }

  // ---------------------------------------------------------------------
  // Rejections consume nothing

  /** Every call carries the same positive limit and names its tenant. */
  ghost predicate Limited(limit: int, calls: seq<Call>) {
    forall c <- calls :: c.limit == limit && c.tenant != ""
  }

  lemma {:induction false} OrderedFrom(from: real, from': real, calls: seq<Call>)
    requires Ordered(from', calls) && from <= from'
    ensures Ordered(from, calls)
  {
  }

  lemma {:induction false} OfOrdered(t: string, from: real, calls: seq<Call>)
    requires Ordered(from, calls)
    ensures Ordered(from, Of(t, calls))
    decreases |calls|
  {
    if calls != [] {
      var c, rest := calls[0], Of(t, calls[1..]);
      OfOrdered(t, c.now, calls[1..]);
      if c.tenant == t {
        assert Of(t, calls)[1..] == rest;
      } else {
        assert Of(t, calls) == rest;
        OrderedFrom(from, c.now, rest);
      }
    }
  }

  lemma {:induction false} OfLimited(t: string, limit: int, calls: seq<Call>)
    requires Constant(t, limit, calls) && t != ""
    ensures Limited(limit, Of(t, calls))
  {
    if calls != [] {
      OfLimited(t, limit, calls[1..]);
    }
  }

  /** The accepted calls of a lone run. */
  function Kept(b: Option<Bucket>, burst: real, calls: seq<Call>): seq<Call>
    decreases |calls|
  {
    if calls == [] then [] else
    var (b1, ok) := LoneStep(b, burst, calls[0]);
    (if ok then [calls[0]] else []) + Kept(b1, burst, calls[1..])
  }

  /** b is what b' becomes at b's own time: the two differ by refills only. */
  ghost predicate Refilled(b: Option<Bucket>, b': Option<Bucket>, limit: int, burst: real) {
    match b
    case None => b'.None?
    case Some(x) =>
      if b'.None? then x == Fresh(limit, burst, x.lastSeen)
      else b'.value.lastSeen <= x.lastSeen && x == Refill(b'.value, limit, burst, x.lastSeen)
  }

  lemma RefillTwice(b: Bucket, limit: int, burst: real, mid: real, now: real)
    requires limit > 0 && b.rate == limit as real && b.lastSeen <= mid <= now
    ensures Refill(Refill(b, limit, burst, mid), limit, burst, now) == Refill(b, limit, burst, now)
  {
    hide Accrued, Capacity;
    var rate := limit as real;
    AccruedSum(rate, now, mid, b.lastSeen);
    AccruedPositive(rate, now - mid);
    AccruedPositive(rate, mid - b.lastSeen);
    assert now == mid ==> Accrued(rate, now - mid) == 0.0 by { AccruedSum(rate, mid, mid, mid); }
    assert b.lastSeen == mid ==> Accrued(rate, mid - b.lastSeen) == 0.0 by { AccruedSum(rate, mid, mid, mid); }
  }

  lemma RefillFresh(limit: int, burst: real, mid: real, now: real)
    requires limit > 0 && mid <= now
    ensures Refill(Fresh(limit, burst, mid), limit, burst, now) == Fresh(limit, burst, now)
  {
    hide Accrued, Capacity;
    AccruedPositive(limit as real, now - mid);
  }

  /** On related buckets a metered call decides alike, and refilling brings both to the same point. */
  lemma RefilledStep(b: Option<Bucket>, b': Option<Bucket>, limit: int, burst: real, clock: real, c: Call)
    requires limit > 0 && 0.0 < burst && clock <= c.now
    requires Refilled(b, b', limit, burst)
    requires b.Some? ==> Sound(b.value, limit, burst, clock)
    requires b'.Some? ==> Sound(b'.value, limit, burst, clock)
    requires !Unmetered(c) && c.limit == limit
    ensures var (b1, ok) := LoneStep(b, burst, c);
            && b1.Some? && Sound(b1.value, limit, burst, c.now)
            && LoneStep(b', burst, c) == (b1, ok)
            && (if ok then Refilled(b1, b1, limit, burst) else Refilled(b1, b', limit, burst))
  {
    hide Accrued, Capacity;
    FreshSound(limit, burst, c.now);
    var x := if b.Some? then b.value else Fresh(limit, burst, c.now);
    RefillFresh(limit, burst, x.lastSeen, c.now);
    if b.Some? && b'.Some? {
      RefillTwice(b'.value, limit, burst, x.lastSeen, c.now);
    }
    RefillSound(x, limit, burst, if b.Some? then clock else c.now, c.now);
  }

  /** Dropping the rejected calls from a run leaves every other decision as it was. */
  lemma {:induction false} RejectionsInvisible(b: Option<Bucket>, b': Option<Bucket>, limit: int, burst: real,
                                               clock: real, calls: seq<Call>)
    requires limit > 0 && 0.0 < burst
    requires Refilled(b, b', limit, burst)
    requires b.Some? ==> Sound(b.value, limit, burst, clock)
    requires b'.Some? ==> Sound(b'.value, limit, burst, clock)
    requires Ordered(clock, calls) && Limited(limit, calls)
    ensures forall ok <- LoneRun(b', burst, Kept(b, burst, calls)) :: ok
    decreases |calls|
  {
    hide Refill, Fresh, Capacity;
    if calls != [] {
      var c := calls[0];
      var (b1, ok) := LoneStep(b, burst, c);
      if Unmetered(c) {
        RejectionsInvisible(b, b', limit, burst, c.now, calls[1..]);
        assert Kept(b, burst, calls)[1..] == Kept(b, burst, calls[1..]);
      } else {
        RefilledStep(b, b', limit, burst, clock, c);
        if ok {
          RejectionsInvisible(b1, b1, limit, burst, c.now, calls[1..]);
          assert Kept(b, burst, calls)[1..] == Kept(b1, burst, calls[1..]);
        } else {
          RejectionsInvisible(b1, b', limit, burst, c.now, calls[1..]);
          assert Kept(b, burst, calls) == Kept(b1, burst, calls[1..]);
        }
      }
    }
  }

  /** An interleaved run without tenant t's rejected calls. */
  function Erase(t: string, s: State, calls: seq<Call>): seq<Call>
    decreases |calls|
  {
    if calls == [] then [] else
    var (s1, ok) := Step(s, calls[0]);
    (if calls[0].tenant == t && !ok then [] else [calls[0]]) + Erase(t, s1, calls[1..])
  }

  lemma {:induction false} EraseOrdered(t: string, limit: int, s: State, clock: real, calls: seq<Call>)
    requires Ordered(clock, calls) && Constant(t, limit, calls)
    ensures Ordered(clock, Erase(t, s, calls)) && Constant(t, limit, Erase(t, s, calls))
    decreases |calls|
  {
    hide Step;
    if calls != [] {
      var c := calls[0];
      var (s1, ok) := Step(s, c);
      var rest := Erase(t, s1, calls[1..]);
      EraseOrdered(t, limit, s1, c.now, calls[1..]);
      if c.tenant == t && !ok {
        assert Erase(t, s, calls) == rest;
        OrderedFrom(clock, c.now, rest);
      } else {
        assert Erase(t, s, calls)[1..] == rest;
      }
    }
  }

  lemma {:induction false} EraseKept(s: State, b: Option<Bucket>, t: string, limit: int, clock: real, calls: seq<Call>)
    requires limit > 0 && 0.0 < s.burst <= IDLE_TIMEOUT
    requires Matches(s, b, t, limit, 0.0, clock)
    requires Ordered(clock, calls) && Constant(t, limit, calls)
    ensures Of(t, Erase(t, s, calls)) == Kept(b, s.burst, Of(t, calls))
    decreases |calls|
  {
    hide Step, LoneStep, Matches;
    if calls != [] {
      var c := calls[0];
      var (s1, ok) := Step(s, c);
      MatchesStep(s, b, t, limit, 1.0, 0.0, clock, c, c.now);
      var b1 := if c.tenant == t then LoneStep(b, s.burst, c).0 else b;
      EraseKept(s1, b1, t, limit, c.now, calls[1..]);
      var rest := Erase(t, s1, calls[1..]);
      if c.tenant == t {
        assert Of(t, calls)[1..] == Of(t, calls[1..]);
        assert ok ==> Erase(t, s, calls)[1..] == rest;
        assert !ok ==> Erase(t, s, calls) == rest;
      } else {
        assert Of(t, calls) == Of(t, calls[1..]);
        assert Erase(t, s, calls)[1..] == rest;
      }
    }
  }

  /** In the registry too: take a tenant's rejected calls out of an interleaved run and all its
      remaining calls are still admitted. */
  lemma RejectionsConsumeNothing(burst: real, t: string, limit: int, start: real, calls: seq<Call>)
    requires limit > 0 && 0.0 < burst <= IDLE_TIMEOUT && t != ""
    requires Ordered(start, calls) && Constant(t, limit, calls)
    ensures forall ok <- Decisions(t, Init(burst), Erase(t, Init(burst), calls)) :: ok
  {
    hide Step, LoneStep, Erase, Of, Kept, LoneRun, Decisions, Ordered;
    EraseOrdered(t, limit, Init(burst), start, calls);
    EraseKept(Init(burst), None, t, limit, start, calls);
    OrderedUnskewed(Erase(t, Init(burst), calls), start);
    ConstantNear(t, limit, Erase(t, Init(burst), calls));
    Isolation(burst, t, limit, 1.0, 0.0, Erase(t, Init(burst), calls));
    OfOrdered(t, start, calls);
    OfLimited(t, limit, calls);
    RejectionsInvisible(None, None, limit, burst, start, Of(t, calls));
  }

  ghost predicate AlwaysFree(burst: real, d: real) {
    forall t, limit, calls: seq<Call> :: limit > 0 && t != "" && Skewed(d, calls) && Constant(t, limit, calls) ==>
      forall ok <- Decisions(t, Init(burst), Erase(t, Init(burst), calls)) :: ok
  }

  /** A rejected call whose reading lags moves the bucket's clock back, and what then accrues twice
      is missing without that call. */
  lemma BackAndForthCounts(burst: real, limit: int, n: nat, d: real)
    requires burst > 0.0 && d > 0.0 && limit > 0 && n > 0
    requires n as real <= Capacity(limit, burst) < n as real + 1.0 && 1.0 <= Accrued(limit as real, d)
    ensures false in Decisions("t", Init(burst), Erase("t", Init(burst), BackAndForth(limit, n, d)))
  {
    hide Accrued, Capacity;
    var calls := BackAndForth(limit, n, d);
    var cap, rate := Capacity(limit, burst), limit as real;
    var s1 := State(burst, map["t" := Bucket(cap - n as real, cap, rate, d)], Some(d));
    var s2 := State(burst, map["t" := Bucket(cap - n as real, cap, rate, 0.0)], Some(d));
    assert s1.buckets["t" := s2.buckets["t"]] == s2.buckets;
    assert Sweep(Init(burst), d) == State(burst, map[], Some(d));
    assert Step(Init(burst), calls[0]) == (s1, true);
    assert Step(s1, calls[1]) == (s2, false);
    assert Step(s2, calls[2]).1;
    assert !Step(s1, calls[2]).1;
    BackAndForthErased(burst, limit, n, d, s1, s2);
  }

  lemma BackAndForthErased(burst: real, limit: int, n: nat, d: real, s1: State, s2: State)
    requires var calls := BackAndForth(limit, n, d);
             && Step(Init(burst), calls[0]) == (s1, true) && Step(s1, calls[1]) == (s2, false)
             && Step(s2, calls[2]).1 && !Step(s1, calls[2]).1
    ensures false in Decisions("t", Init(burst), Erase("t", Init(burst), BackAndForth(limit, n, d)))
  {
    hide Step;
    var calls := BackAndForth(limit, n, d);
    var rest, last := [calls[1], calls[2]], [calls[2]];
    assert calls[1..] == rest && rest[1..] == last && last[1..] == [];
    assert Erase("t", s2, last) == last;
    assert Erase("t", s1, rest) == last;
    var kept := Erase("t", Init(burst), calls);
    assert kept == [calls[0]] + last && kept[1..] == last;
    assert Decisions("t", s1, last)[0] == false;
    assert Decisions("t", Init(burst), kept) == [true] + Decisions("t", s1, last);
    assert Decisions("t", Init(burst), kept)[1] == false;
  }

  /** A tenant drains its bucket shortly before a sweep is due and then asks for too much. That
      rejected call sweeps, and so sets the time of the next sweep, which collects the bucket. */
  function ShiftSweep(limit: int, n: nat, e: real): seq<Call> {
    [Call("u", 1, 1, 0.0), Call("t", limit, n, IDLE_TIMEOUT - e), Call("t", limit, n + 1, IDLE_TIMEOUT),
     Call("u", 1, 1, IDLE_TIMEOUT + e), Call("t", limit, n, 2.0 * IDLE_TIMEOUT)]
  }

  /** The batch fits the full bucket and not the one it drained before and refilled since. */
  ghost predicate Shifting(burst: real, limit: int, n: nat, e: real) {
    && limit > 0 && n > 0 && 0.0 < e && 2.0 * e < IDLE_TIMEOUT && burst > IDLE_TIMEOUT
    && n as real <= Capacity(limit, burst) < n as real + 1.0
    && Capacity(limit, burst) - n as real + Accrued(limit as real, IDLE_TIMEOUT + e) < n as real
  }

  lemma ShiftingBatch(burst: real) returns (limit: int, n: nat, e: real)
    requires burst > IDLE_TIMEOUT
    ensures Shifting(burst, limit, n, e)
  {
    e := Min((burst - IDLE_TIMEOUT) / 2.0, 100.0);
    var lo, k, hi, m := DrainingBatches(burst, IDLE_TIMEOUT + e, 1.0);
    assert hi == lo;
    limit, n := lo, k;
  }

  /** With the rejected call, the last sweep finds the bucket idle for long enough. */
  lemma ShiftedRun(burst: real, limit: int, n: nat, e: real) returns (s1: State, s2: State, s3: State)
    requires Shifting(burst, limit, n, e)
    ensures var calls := ShiftSweep(limit, n, e);
            && Step(After(Init(burst), calls[..1]), calls[1]) == (s1, true)
            && Step(s1, calls[2]) == (s2, false) && Step(s2, calls[3]).0 == s3 && Step(s3, calls[4]).1
    ensures "t" in s1.buckets && s1.burst == burst && s1.lastGC == Some(0.0)
    ensures s1.buckets["t"] == Bucket(Capacity(limit, burst) - n as real, Capacity(limit, burst), limit as real, IDLE_TIMEOUT - e)
  {
    hide Accrued, Capacity;
    var calls := ShiftSweep(limit, n, e);
    var s0 := FirstCall(burst, calls[0]);
    assert calls[..1] == [calls[0]];
    s1 := Step(s0, calls[1]).0;
    s2 := Step(s1, calls[2]).0;
    assert "t" in s2.buckets && s2.buckets["t"].lastSeen == IDLE_TIMEOUT && s2.lastGC == Some(IDLE_TIMEOUT) && s2.burst == burst;
    s3 := Step(s2, calls[3]).0;
    assert "t" in s3.buckets && s3.buckets["t"] == s2.buckets["t"] && s3.lastGC == Some(IDLE_TIMEOUT) && s3.burst == burst;
    assert "t" !in Sweep(s3, calls[4].now).buckets;
  }

  lemma FirstCall(burst: real, c: Call) returns (s: State)
    requires !Unmetered(c)
    ensures s == After(Init(burst), [c]) && s.burst == burst && s.lastGC == Some(c.now) && s.buckets.Keys == {c.tenant}
  {
    hide Accrued, Capacity;
    assert Sweep(Init(burst), c.now) == State(burst, map[], Some(c.now));
    s := Step(Init(burst), c).0;
    assert [c][1..] == [];
  }

  /** Without it, the sweep before that comes later and the last one is not due. */
  lemma ShiftedErased(burst: real, limit: int, n: nat, e: real, s1: State) returns (r2: State)
    requires Shifting(burst, limit, n, e)
    requires "t" in s1.buckets && s1.burst == burst && s1.lastGC == Some(0.0)
    requires s1.buckets["t"] == Bucket(Capacity(limit, burst) - n as real, Capacity(limit, burst), limit as real, IDLE_TIMEOUT - e)
    ensures var calls := ShiftSweep(limit, n, e); Step(s1, calls[3]).0 == r2 && !Step(r2, calls[4]).1
  {
    hide Accrued, Capacity;
    var calls := ShiftSweep(limit, n, e);
    r2 := Step(s1, calls[3]).0;
    assert "t" in r2.buckets && r2.buckets["t"] == s1.buckets["t"] && r2.lastGC == Some(IDLE_TIMEOUT + e) && r2.burst == burst;
    assert calls[4].now - r2.buckets["t"].lastSeen == IDLE_TIMEOUT + e;
  }

  lemma ShiftedDecisions(burst: real, calls: seq<Call>, s0: State, s1: State, s2: State, s3: State, r2: State)
    requires |calls| == 5 && calls[0].tenant == "u" && calls[1].tenant == "t" && calls[2].tenant == "t" &&
               calls[3].tenant == "u" && calls[4].tenant == "t"
    requires Step(Init(burst), calls[0]).0 == s0 && Step(s0, calls[1]) == (s1, true) && Step(s1, calls[2]) == (s2, false)
    requires Step(s2, calls[3]).0 == s3 && Step(s3, calls[4]).1
    requires Step(s1, calls[3]).0 == r2 && !Step(r2, calls[4]).1
    ensures false in Decisions("t", Init(burst), Erase("t", Init(burst), calls))
  {
    hide Step, Decisions, Erase;
    var c1, c2, c3, c4 := calls[1..], calls[2..], calls[3..], calls[4..];
    assert c1[1..] == c2 && c2[1..] == c3 && c3[1..] == c4 && c4[1..] == [];
    EraseNext("t", Init(burst), calls);
    EraseNext("t", s0, c1);
    EraseNext("t", s1, c2);
    EraseNext("t", s2, c3);
    EraseNext("t", s3, c4);
    EraseNone("t", Step(s3, calls[4]).0);
    var kept := [calls[0], calls[1], calls[3], calls[4]];
    assert Erase("t", Init(burst), calls) == kept;
    var k1, k2, k3 := [calls[1], calls[3], calls[4]], [calls[3], calls[4]], [calls[4]];
    assert kept[1..] == k1 && k1[1..] == k2 && k2[1..] == k3;
    DecisionsNext("t", Init(burst), kept);
    DecisionsNext("t", s0, k1);
    DecisionsNext("t", s1, k2);
    DecisionsNext("t", r2, k3);
    var tail := Decisions("t", Step(r2, calls[4]).0, k3[1..]);
    assert Decisions("t", Init(burst), kept) == [true] + ([false] + tail);
    assert Decisions("t", Init(burst), kept)[1] == false;
  }

  lemma EraseNext(t: string, s: State, calls: seq<Call>)
    requires calls != []
    ensures var (s1, ok) := Step(s, calls[0]);
            Erase(t, s, calls) == (if calls[0].tenant == t && !ok then [] else [calls[0]]) + Erase(t, s1, calls[1..])
  {
    hide Step;
  }

  lemma EraseNone(t: string, s: State)
    ensures Erase(t, s, []) == []
  {
  }

  lemma ShiftedCounts(burst: real, limit: int, n: nat, e: real)
    requires Shifting(burst, limit, n, e)
    ensures false in Decisions("t", Init(burst), Erase("t", Init(burst), ShiftSweep(limit, n, e)))
  {
    hide Step, Shifting, Decisions, Erase, After;
    var calls := ShiftSweep(limit, n, e);
    var s1, s2, s3 := ShiftedRun(burst, limit, n, e);
    var r2 := ShiftedErased(burst, limit, n, e, s1);
    assert calls[..1] == [calls[0]];
    AfterOne(Init(burst), calls[0]);
    ShiftedDecisions(burst, calls, Step(Init(burst), calls[0]).0, s1, s2, s3, r2);
  }

  lemma AfterOne(s: State, c: Call)
    ensures After(s, [c]) == Step(s, c).0
  {
    hide Step;
    assert [c][1..] == [];
  }

  lemma ShiftAllowed(limit: int, n: nat, e: real, d: real)
    requires 0.0 < e < IDLE_TIMEOUT && 0.0 <= d
    ensures Skewed(d, ShiftSweep(limit, n, e)) && Constant("t", limit, ShiftSweep(limit, n, e))
  {
  }

  /** Rejections consume nothing on every run whose readings lag by at most d exactly when the burst
      does not exceed the idle timeout and nothing lags. */
  lemma RejectionsCondition(burst: real, d: real)
    requires 0.0 < burst && 0.0 <= d
    ensures AlwaysFree(burst, d) <==> burst <= IDLE_TIMEOUT && d == 0.0
  {
    hide Skewed, Constant, Decisions, Erase;
    if d > 0.0 {
      var limit, n := FillingBatch(burst, d);
      BackAndForthCounts(burst, limit, n, d);
      BackAndForthSkewed(limit, n, d);
    } else if burst > IDLE_TIMEOUT {
      var limit, n, e := ShiftingBatch(burst);
      ShiftedCounts(burst, limit, n, e);
      ShiftAllowed(limit, n, e, d);
    } else {
      forall t, limit, calls: seq<Call> | limit > 0 && t != "" && Skewed(d, calls) && Constant(t, limit, calls)
        ensures forall ok <- Decisions(t, Init(burst), Erase(t, Init(burst), calls)) :: ok
      {
        var start := if calls == [] then 0.0 else calls[0].now;
        UnskewedOrdered(calls, start);
        RejectionsConsumeNothing(burst, t, limit, start, calls);
      }
    }
  }

  lemma OversizedRejected(s: State, c: Call)
    requires !Unmetered(c) && c.n as real > c.limit as real * s.burst
    ensures !Step(s, c).1
  {
  }

  // ---------------------------------------------------------------------
  // The retry hint

  const NANOS := 1_000_000_000

  function RetryHint(deficit: real, rate: real): int
    requires rate > 0.0
  {
    var raw := (deficit / rate * NANOS as real).Floor;
    if raw < NANOS / 10 then NANOS / 10 else if raw > 30 * NANOS then 30 * NANOS else raw
  }

  lemma HintCovers(deficit: real, rate: real)
    requires rate > 0.0
    ensures NANOS / 10 <= RetryHint(deficit, rate) <= 30 * NANOS
    ensures RetryHint(deficit, rate) < 30 * NANOS ==>
              deficit <= Accrued(rate, (RetryHint(deficit, rate) + 1) as real / NANOS as real)
  {
    var hint := RetryHint(deficit, rate);
    if hint < 30 * NANOS {
      var wait := (hint + 1) as real / NANOS as real;
      var ratio := deficit / rate;
      assert ratio * NANOS as real < (hint + 1) as real;
      assert ratio <= wait;
      AccruedMono(rate, ratio, wait);
      assert rate * ratio == deficit;
    }
  }

  /** A rejected batch that fits the bucket and is told to wait less than the 30 s ceiling is
      admitted when retried one nanosecond after the hint, if the tenant sent nothing meanwhile. */
  lemma RetrySucceeds(b: Bucket, c: Call, burst: real)
    requires !Unmetered(c) && c.n as real <= c.limit as real * burst
    requires !LoneStep(Some(b), burst, c).1
    ensures var b1 := LoneStep(Some(b), burst, c).0.value;
            var hint := RetryHint(c.n as real - b1.tokens, c.limit as real);
            hint < 30 * NANOS ==>
              LoneStep(Some(b1), burst, c.(now := c.now + (hint + 1) as real / NANOS as real)).1
  {
    hide RetryHint, Accrued;
    var b1 := LoneStep(Some(b), burst, c).0.value;
    HintCovers(c.n as real - b1.tokens, c.limit as real);
    assert c.n as real <= Capacity(c.limit, burst) by { CapacityIs(c.limit, burst); }
  }

  lemma CapacityIs(limit: int, burst: real)
    ensures Capacity(limit, burst) == limit as real * burst
  {
  }

  // ---------------------------------------------------------------------
  // The registry as the processor runs it

  class Registry {
    const burstSeconds: real
    var buckets: map<string, Bucket>
    var lastGC: Option<real>

    ghost function Snapshot(): State
      reads this
    {
      State(burstSeconds, buckets, lastGC)
    }

    constructor (burst: real)
      ensures Snapshot() == Init(burst)
    {
      burstSeconds := burst;
      buckets := map[];
      lastGC := None;
    }

    /** Deletes idle buckets one by one, in whatever order the map yields them. */
    method MaybeGC(now: real)
      modifies this
      ensures Snapshot() == Sweep(old(Snapshot()), now)
    {
      if lastGC.Some? && now - lastGC.value < GC_INTERVAL {
        return;
      }
      lastGC := Some(now);
      var pending := buckets.Keys;
      while pending != {}
        invariant lastGC == Some(now)
        invariant pending <= buckets.Keys <= old(buckets).Keys
        invariant forall t <- buckets :: buckets[t] == old(buckets)[t]
        invariant forall t <- old(buckets) ::
                    t in pending || (t in buckets <==> now - old(buckets)[t].lastSeen < IDLE_TIMEOUT)
        decreases pending
      {
        var t :| t in pending;
        if now - buckets[t].lastSeen >= IDLE_TIMEOUT {
          buckets := buckets - {t};
        }
        pending := pending - {t};
      }
      assert buckets == Sweep(old(Snapshot()), now).buckets;
    }

    /** Admits or rejects one batch; the hint is zero on admission. */
    method Take(tenant: string, limit: int, n: nat, now: real) returns (allowed: bool, retryAfter: int)
      requires limit > 0
      modifies this
      ensures (Snapshot(), allowed) == TakeStep(old(Snapshot()), Call(tenant, limit, n, now)) && tenant in buckets
      ensures retryAfter == if allowed then 0 else RetryHint(n as real - buckets[tenant].tokens, limit as real)
    {
      var rate := limit as real;
      var capacity := Accrued(rate, burstSeconds);
      MaybeGC(now);
      hide Accrued, Sweep, RetryHint;
      var b: Bucket;
      if tenant in buckets {
        b := buckets[tenant];
      } else {
        b := Bucket(capacity, capacity, rate, now);
      }
      var dt := now - b.lastSeen;
      if dt > 0.0 {
        b := b.(tokens := b.tokens + Accrued(b.rate, dt));
      }
      b := b.(rate := rate, capacity := capacity);
      if b.tokens > capacity {
        b := b.(tokens := capacity);
      }
      b := b.(lastSeen := now);
      allowed, retryAfter := false, 0;
      if n as real <= b.tokens {
        b := b.(tokens := b.tokens - n as real);
        allowed := true;
      } else {
        retryAfter := RetryHint(n as real - b.tokens, rate);
      }
      buckets := buckets[tenant := b];
    }

    /** The processor's gate in front of the bucket, shared by logs, traces and metrics. */
    method Admit(tenant: string, limit: int, n: nat, now: real) returns (allowed: bool)
      modifies this
      ensures (Snapshot(), allowed) == Step(old(Snapshot()), Call(tenant, limit, n, now))
    {
      if tenant == "" || limit <= 0 || n == 0 {
        return true;
      }
      var hint: int;
      allowed, hint := Take(tenant, limit, n, now);
    }
  }
}
