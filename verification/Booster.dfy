/**
  The adaptive controller of engine/booster/booster.go: tunable settings between floors
  and ceilings, moved one step per tick by memory pressure and workload signals.
 */
module Booster {

  datatype Range = Range(lo: int, hi: int)

  // Floors and ceilings; `depth` is the queue depth.
  datatype Limits = Limits(queue: Range, ingestion: Range, parser: Range, batch: Range,
                           depth: Range, cache: Range, flush: Range)

  datatype Settings = Settings(queue: int, ingestion: int, parser: int, batch: int,
                               depth: int, cache: int, flush: int)

  datatype Pressure = Normal | Elevated | High | Critical

  datatype Signals = Signals(backlog: int, hitRate: real, throughput: real, activeWorkers: int, cpu: real)

  const DEFAULT_LIMITS := Limits(Range(1, 8), Range(1, 8), Range(1, 6), Range(64, 8192),
                                 Range(1000, 50_000), Range(512, 16_384), Range(262_144, 16_777_216))

  predicate Ordered(l: Limits) {
    && l.queue.lo <= l.queue.hi && l.ingestion.lo <= l.ingestion.hi && l.parser.lo <= l.parser.hi
    && l.batch.lo <= l.batch.hi && l.depth.lo <= l.depth.hi && l.cache.lo <= l.cache.hi
    && l.flush.lo <= l.flush.hi
  }

  predicate NonNegative(l: Limits) {
    l.queue.lo >= 0 && l.ingestion.lo >= 0 && l.parser.lo >= 0 && l.batch.lo >= 0
    && l.depth.lo >= 0 && l.cache.lo >= 0 && l.flush.lo >= 0
  }

  predicate In(v: int, r: Range) { r.lo <= v <= r.hi }

  predicate Within(s: Settings, l: Limits) {
    && In(s.queue, l.queue) && In(s.ingestion, l.ingestion) && In(s.parser, l.parser)
    && In(s.batch, l.batch) && In(s.depth, l.depth) && In(s.cache, l.cache) && In(s.flush, l.flush)
  }

  function Floors(l: Limits): Settings {
    Settings(l.queue.lo, l.ingestion.lo, l.parser.lo, l.batch.lo, l.depth.lo, l.cache.lo, l.flush.lo)
  }

  function Clamp(v: int, r: Range): int {
    if v < r.lo then r.lo else if v > r.hi then r.hi else v
  }

  // Go's integer division truncates toward zero.
  function Quo(a: int, b: int): int
    requires b > 0
  {
    if a >= 0 then a / b else -((-a) / b)
  }

  function Initial(l: Limits): Settings {
    Settings(Clamp(Quo(l.queue.hi, 2), l.queue), Clamp(Quo(l.ingestion.hi, 2), l.ingestion),
             Clamp(Quo(l.parser.hi, 2), l.parser), Clamp(Quo(l.batch.hi, 2), l.batch),
             Clamp(Quo(l.depth.hi, 2), l.depth), Clamp(Quo(l.cache.hi, 2), l.cache),
             Clamp(Quo(l.flush.hi, 2), l.flush))
  }

  // The pressure switch of Tick.
  function Adjust(l: Limits, s: Settings, p: Pressure, i: Signals): Settings {
    match p
    case Normal =>
      s.(queue := if i.backlog > s.queue * 10 && i.cpu < 0.7 then Clamp(s.queue + 1, l.queue) else s.queue,
         ingestion := if i.backlog > s.ingestion * 50 && i.cpu < 0.7 then Clamp(s.ingestion + 1, l.ingestion)
                      else s.ingestion,
         cache := if i.hitRate > 0.8 && s.cache < l.cache.hi then Clamp(s.cache * 2, l.cache) else s.cache,
         batch := if i.throughput > 100.0 && s.batch < l.batch.hi then Clamp(s.batch * 2, l.batch) else s.batch)
    case Elevated =>
      s.(cache := if i.hitRate < 0.5 && s.cache > l.cache.lo then Clamp(Quo(s.cache, 2), l.cache) else s.cache,
         batch := if s.batch > l.batch.lo then Clamp(Quo(s.batch, 2), l.batch) else s.batch)
    case High =>
      s.(queue := Clamp(Quo(s.queue * 3, 4), l.queue), ingestion := Clamp(Quo(s.ingestion * 3, 4), l.ingestion),
         parser := Clamp(Quo(s.parser * 3, 4), l.parser), cache := Clamp(Quo(s.cache, 2), l.cache),
         batch := Clamp(Quo(s.batch, 2), l.batch), flush := Clamp(Quo(s.flush, 2), l.flush))
    case Critical => Floors(l)
  }

  // Evidence for a deeper queue; s is already adjusted.
  predicate Grows(l: Limits, s: Settings, i: Signals) {
    && i.backlog > Quo(s.depth * 3, 4)
    && s.queue > 0 && i.activeWorkers >= Quo(s.queue * 3, 4)
    && i.cpu < 0.7
    && s.depth < l.depth.hi
  }

  function DepthStep(backlog: int): (step: int)
    ensures 1000 <= step <= 4000
  {
    var step := Quo(backlog, 8);
    if step < 1000 then 1000 else if step > 4000 then 4000 else step
  }

  datatype State = State(settings: Settings, cooldown: nat)

  function Next(l: Limits, c: State, p: Pressure, i: Signals): State {
    var s := Adjust(l, c.settings, p, i);
    if p != Normal then State(s, 0)
    else if c.cooldown > 0 then State(s, c.cooldown - 1)
    else if Grows(l, s, i) then State(s.(depth := Clamp(s.depth + DepthStep(i.backlog), l.depth)), 2)
    else State(s, 0)
  }

  datatype Input = Input(p: Pressure, i: Signals)

  // The states before and after each tick.
  function Run(l: Limits, c: State, ins: seq<Input>): (r: seq<State>)
    ensures |r| == |ins| + 1 && r[0] == c
    decreases |ins|
  {
    if ins == [] then [c] else [c] + Run(l, Next(l, c, ins[0].p, ins[0].i), ins[1..])
  }

  lemma {:induction false} RunStep(l: Limits, c: State, ins: seq<Input>, k: nat)
    requires k < |ins|
    ensures Run(l, c, ins)[k + 1] == Next(l, Run(l, c, ins)[k], ins[k].p, ins[k].i)
    decreases k
  {
    if k > 0 { RunStep(l, Next(l, c, ins[0].p, ins[0].i), ins[1..], k - 1); }
  }

  lemma AdjustWithin(l: Limits, s: Settings, p: Pressure, i: Signals)
    requires Ordered(l) && Within(s, l)
    ensures Within(Adjust(l, s, p, i), l)
  {
  }

  /** Every setting starts and stays between its floor and its ceiling. */
  lemma {:induction false} AlwaysWithin(l: Limits, ins: seq<Input>, k: nat)
    requires Ordered(l) && k <= |ins|
    ensures Within(Run(l, State(Initial(l), 0), ins)[k].settings, l)
  {
    if k > 0 {
      AlwaysWithin(l, ins, k - 1);
      RunStep(l, State(Initial(l), 0), ins, k - 1);
      AdjustWithin(l, Run(l, State(Initial(l), 0), ins)[k - 1].settings, ins[k - 1].p, ins[k - 1].i);
    }
  }

  /** One critical tick anywhere in a run gives exactly the floors, whatever came before. */
  lemma CriticalGivesFloors(l: Limits, c: State, ins: seq<Input>, k: nat)
    requires k < |ins| && ins[k].p == Critical
    ensures Run(l, c, ins)[k + 1] == State(Floors(l), 0)
  {
    RunStep(l, c, ins, k);
  }

  // ---- Sustained high pressure ----

  function Pow2(n: nat): (r: nat)
    ensures r >= 1
  {
    if n == 0 then 1 else 2 * Pow2(n - 1)
  }

  function Max(a: int, b: int): int { if a < b then b else a }

  predicate AllHigh(ins: seq<Input>) {
    forall k | 0 <= k < |ins| :: ins[k].p == High
  }

  // A setting cut to three quarters loses at least one until it meets its floor.
  lemma QuarterCut(v0: int, v: int, r: Range, n: nat)
    requires 0 <= r.lo <= r.hi && Lowered(v0, v, r, n)
    ensures Lowered(v0, Clamp(Quo(v * 3, 4), r), r, n + 1)
  {
  }

  lemma HalvingDivides(v: int, n: nat)
    requires v >= 0
    ensures v / Pow2(n) / 2 == v / Pow2(n + 1)
  {
    var p := Pow2(n);
    DivBounds(v, p);
    HalfInterval(v, p, v / p, v / p / 2);
    DivUnique(v, 2 * p, v / p / 2);
  }

  lemma HalfInterval(v: int, p: int, q: int, h: int)
    requires q * p <= v < (q + 1) * p && p > 0 && 2 * h <= q <= 2 * h + 1
    ensures h * (2 * p) <= v < (h + 1) * (2 * p)
  {
    MulMono(2 * h, q, p);
    MulMono(q + 1, 2 * (h + 1), p);
    Regroup(h, p);
    Regroup(h + 1, p);
  }

  lemma Regroup(h: int, p: int)
    ensures h * (2 * p) == (2 * h) * p
  {
  }

  lemma DivBounds(v: int, p: int)
    requires v >= 0 && p > 0
    ensures (v / p) * p <= v < (v / p + 1) * p
  {
  }

  lemma MulMono(a: int, b: int, p: int)
    requires a <= b && p >= 0
    ensures a * p <= b * p
  {
  }

  lemma DivUnique(v: int, p: int, q: int)
    requires v >= 0 && p > 0 && q * p <= v < (q + 1) * p
    ensures v / p == q
  {
    DivBounds(v, p);
    var d := v / p;
    if d < q { MulMono(d + 1, q, p); }
    if q < d { MulMono(q + 1, d, p); }
  }

  /**
    Floors must not be negative for that: a high tick raises a setting exactly when it is
    negative and below its ceiling, because division truncates toward zero.
   */
  lemma HighRaisesExactlyNegatives(v: int, r: Range)
    requires In(v, r)
    ensures Clamp(Quo(v * 3, 4), r) > v <==> v < 0 && v < r.hi
    ensures Clamp(Quo(v, 2), r) > v <==> v < 0 && v < r.hi
  {
  }

  // A range value that lost at least n of v0 or sits at the floor.
  predicate Lowered(v0: int, v: int, r: Range, n: nat) {
    In(v, r) && v <= v0 && v <= Max(r.lo, v0 - n)
  }

  // The floor or v0 divided by 2^n, whichever is larger.
  predicate Halved(v0: int, v: int, r: Range, n: nat) {
    In(v, r) && v <= v0 && v == Max(r.lo, v0 / Pow2(n))
  }

  predicate CutBy(l: Limits, s0: Settings, s: Settings, n: nat) {
    && Lowered(s0.queue, s.queue, l.queue, n)
    && Lowered(s0.ingestion, s.ingestion, l.ingestion, n)
    && Lowered(s0.parser, s.parser, l.parser, n)
    && Halved(s0.cache, s.cache, l.cache, n)
    && Halved(s0.batch, s.batch, l.batch, n)
    && Halved(s0.flush, s.flush, l.flush, n)
    && s.depth == s0.depth
  }

  /**
    After n ticks of high pressure: nothing was raised, concurrency lost at least n or
    sits at its floor, and cache, batch and flush size are the floor or the start divided
    by 2^n, whichever is larger.
   */
  lemma {:induction false} SustainedHigh(l: Limits, c: State, ins: seq<Input>, n: nat)
    requires Ordered(l) && NonNegative(l) && Within(c.settings, l) && AllHigh(ins) && n <= |ins|
    ensures CutBy(l, c.settings, Run(l, c, ins)[n].settings, n)
  {
    if n > 0 {
      SustainedHigh(l, c, ins, n - 1);
      RunStep(l, c, ins, n - 1);
      HighStep(l, c.settings, Run(l, c, ins)[n - 1].settings, ins[n - 1].i, n - 1);
    } else {
      NotCutYet(l, c.settings);
    }
  }

  lemma NotCutYet(l: Limits, s: Settings)
    requires Ordered(l) && NonNegative(l) && Within(s, l)
    ensures CutBy(l, s, s, 0)
  {
    assert Pow2(0) == 1;
  }

  lemma HighStep(l: Limits, s0: Settings, s: Settings, i: Signals, n: nat)
    requires Ordered(l) && NonNegative(l) && Within(s0, l) && CutBy(l, s0, s, n)
    ensures CutBy(l, s0, Adjust(l, s, High, i), n + 1)
  {
    QuarterCut(s0.queue, s.queue, l.queue, n);
    QuarterCut(s0.ingestion, s.ingestion, l.ingestion, n);
    QuarterCut(s0.parser, s.parser, l.parser, n);
    HalvingStep(s0.cache, s.cache, l.cache, n);
    HalvingStep(s0.batch, s.batch, l.batch, n);
    HalvingStep(s0.flush, s.flush, l.flush, n);
  }

  lemma HalvingStep(v0: int, v: int, r: Range, n: nat)
    requires 0 <= r.lo <= r.hi && r.lo <= v0 && Halved(v0, v, r, n)
    ensures Halved(v0, Clamp(Quo(v, 2), r), r, n + 1)
  {
    HalvingDivides(v0, n);
  }

  /**
    High pressure for n ticks, where n covers the width of each concurrency range and 2^n
    exceeds the other ceilings, reaches six floors and leaves the queue depth alone.
   */
  lemma {:induction false} SustainedHighReachesFloors(l: Limits, c: State, ins: seq<Input>)
    requires Ordered(l) && NonNegative(l) && Within(c.settings, l) && AllHigh(ins)
    requires l.queue.hi - l.queue.lo <= |ins| && l.ingestion.hi - l.ingestion.lo <= |ins|
    requires l.parser.hi - l.parser.lo <= |ins|
    requires l.cache.hi < Pow2(|ins|) && l.batch.hi < Pow2(|ins|) && l.flush.hi < Pow2(|ins|)
    ensures Run(l, c, ins)[|ins|].settings == Floors(l).(depth := c.settings.depth)
  {
    SustainedHigh(l, c, ins, |ins|);
    var s0 := c.settings;
    SmallQuotient(s0.cache, Pow2(|ins|));
    SmallQuotient(s0.batch, Pow2(|ins|));
    SmallQuotient(s0.flush, Pow2(|ins|));
  }

  /** With the default limits 25 ticks are enough. */
  lemma {:induction false} DefaultsReachFloors(c: State, ins: seq<Input>)
    requires Within(c.settings, DEFAULT_LIMITS) && AllHigh(ins) && |ins| == 25
    ensures Run(DEFAULT_LIMITS, c, ins)[25].settings == Floors(DEFAULT_LIMITS).(depth := c.settings.depth)
  {
    assert Pow2(5) == 32 && Pow2(10) == 1024 && Pow2(15) == 32_768 && Pow2(20) == 1_048_576;
    assert Pow2(25) == 33_554_432;
    SustainedHighReachesFloors(DEFAULT_LIMITS, c, ins);
  }

  lemma SmallQuotient(v: int, p: int)
    requires 0 <= v < p
    ensures v / p == 0
  {
  }

  // ---- Normal and elevated ticks ----

  /** Every setting starts at half its ceiling, or at its floor if that is higher. */
  lemma StartsAtHalf(l: Limits)
    requires Ordered(l) && NonNegative(l)
    ensures Initial(l) == Settings(Max(l.queue.lo, l.queue.hi / 2), Max(l.ingestion.lo, l.ingestion.hi / 2),
                                   Max(l.parser.lo, l.parser.hi / 2), Max(l.batch.lo, l.batch.hi / 2),
                                   Max(l.depth.lo, l.depth.hi / 2), Max(l.cache.lo, l.cache.hi / 2),
                                   Max(l.flush.lo, l.flush.hi / 2))
  {
  }

  // Raised by one under its signal and below its ceiling, else kept.
  predicate Stepped(v: int, v': int, r: Range, signal: bool) { v' == if signal && v < r.hi then v + 1 else v }

  // Doubled up to the ceiling under its signal, else kept.
  predicate Doubled(v: int, v': int, r: Range, signal: bool) { v' == if signal then Min(2 * v, r.hi) else v }

  function Min(a: int, b: int): int { if a < b then a else b }

  /**
    A normal tick lowers nothing: it raises the two concurrencies by one under a deep backlog
    with CPU to spare, doubles the cache under a high hit rate and the batch under a high
    throughput, each up to its ceiling, deepens the queue or not, and keeps the rest.
   */
  lemma NormalTick(l: Limits, c: State, i: Signals)
    requires Ordered(l) && NonNegative(l) && Within(c.settings, l)
    ensures var s, s' := c.settings, Next(l, c, Normal, i).settings;
      && Stepped(s.queue, s'.queue, l.queue, i.backlog > 10 * s.queue && i.cpu < 0.7)
      && Stepped(s.ingestion, s'.ingestion, l.ingestion, i.backlog > 50 * s.ingestion && i.cpu < 0.7)
      && Doubled(s.cache, s'.cache, l.cache, i.hitRate > 0.8)
      && Doubled(s.batch, s'.batch, l.batch, i.throughput > 100.0)
      && s'.depth >= s.depth && s'.parser == s.parser && s'.flush == s.flush
  {
  }

  /** Floors must not be negative for that either: doubling lowers exactly the negative settings above their floor. */
  lemma DoublingLowersExactlyNegatives(l: Limits, s: Settings, i: Signals)
    requires Ordered(l) && Within(s, l)
    ensures Adjust(l, s, Normal, i).cache < s.cache <==>
            i.hitRate > 0.8 && l.cache.lo < s.cache < 0 && s.cache < l.cache.hi
    ensures Adjust(l, s, Normal, i).batch < s.batch <==>
            i.throughput > 100.0 && l.batch.lo < s.batch < 0 && s.batch < l.batch.hi
  {
  }

  // Enough work is waiting for a deeper queue of workers that are busy, with CPU to spare.
  predicate DepthNeeded(depth: int, workers: int, i: Signals) {
    i.backlog > 3 * depth / 4 && workers > 0 && i.activeWorkers >= 3 * workers / 4 && i.cpu < 0.7
  }

  /**
    The queue deepens exactly when no growth is recent, three quarters of it are waiting and
    three quarters of its workers busy: by an eighth of the backlog, between 1000 and 4000,
    and no further than the ceiling. Otherwise only a critical tick moves it.
   */
  lemma DepthGrowsExactly(l: Limits, c: State, p: Pressure, i: Signals)
    requires Ordered(l) && NonNegative(l) && Within(c.settings, l)
    ensures var s, s' := c.settings, Next(l, c, p, i).settings;
      if p == Critical then s'.depth == l.depth.lo
      else if p == Normal && c.cooldown == 0 && s.depth < l.depth.hi && DepthNeeded(s.depth, s'.queue, i) then
        s'.depth == Min(l.depth.hi, s.depth + Max(1000, Min(4000, i.backlog / 8)))
      else s'.depth == s.depth
  {
  }

  /** An elevated tick holds all concurrency: it halves the batch, and the cache under a low hit rate. */
  lemma ElevatedTick(l: Limits, c: State, i: Signals)
    requires Ordered(l) && NonNegative(l) && Within(c.settings, l)
    ensures var s := c.settings;
      Next(l, c, Elevated, i).settings ==
        s.(batch := Max(l.batch.lo, s.batch / 2),
           cache := if i.hitRate < 0.5 then Max(l.cache.lo, s.cache / 2) else s.cache)
  {
  }

  // A stretch of normal ticks with a deep backlog, CPU to spare and a useful cache.
  predicate Thriving(l: Limits, ins: seq<Input>) {
    forall k | 0 <= k < |ins| ::
      ins[k].p == Normal && ins[k].i.backlog > 10 * l.queue.hi && ins[k].i.cpu < 0.7 && ins[k].i.hitRate > 0.8
  }

  lemma DoubleAgain(v0: int, v: int, hi: int, n: nat)
    requires 0 <= v0 && v == Min(v0 * Pow2(n), hi) && 0 <= v
    ensures Min(2 * v, hi) == Min(v0 * Pow2(n + 1), hi)
  {
    assert v0 * Pow2(n + 1) == 2 * (v0 * Pow2(n));
  }

  /** n such ticks raise the queue concurrency by n and multiply the cache by 2^n, up to their ceilings. */
  lemma {:induction false} ThrivingGrows(l: Limits, c: State, ins: seq<Input>, n: nat)
    requires Ordered(l) && NonNegative(l) && Within(c.settings, l) && Thriving(l, ins) && n <= |ins|
    ensures var s := Run(l, c, ins)[n].settings;
      && Within(s, l)
      && s.queue == Min(c.settings.queue + n, l.queue.hi)
      && s.cache == Min(c.settings.cache * Pow2(n), l.cache.hi)
  {
    if n > 0 {
      var before, i := Run(l, c, ins)[n - 1], ins[n - 1].i;
      ThrivingGrows(l, c, ins, n - 1);
      RunStep(l, c, ins, n - 1);
      NormalTick(l, before, i);
      AdjustWithin(l, before.settings, Normal, i);
      DoubleAgain(c.settings.cache, before.settings.cache, l.cache.hi, n - 1);
    } else {
      assert Pow2(0) == 1;
    }
  }

  // ---- Hysteresis of the queue depth ----

  predicate AllNormal(ins: seq<Input>) {
    forall k | 0 <= k < |ins| :: ins[k].p == Normal
  }

  predicate GrewAt(l: Limits, c: State, ins: seq<Input>, k: nat)
    requires k < |ins|
  {
    Run(l, c, ins)[k + 1].settings.depth != Run(l, c, ins)[k].settings.depth
  }

  // After a growth the cooldown runs down one per tick and forbids growth meanwhile.
  lemma {:induction false} CooldownAfterGrowth(l: Limits, c: State, ins: seq<Input>, i: nat, j: nat)
    requires AllNormal(ins) && i < j <= |ins| && j <= i + 3 && GrewAt(l, c, ins, i)
    ensures Run(l, c, ins)[j].cooldown == 3 - (j - i)
    ensures j < |ins| && j < i + 3 ==> !GrewAt(l, c, ins, j)
    decreases j
  {
    if j == i + 1 {
      RunStep(l, c, ins, i);
    } else {
      CooldownAfterGrowth(l, c, ins, i, j - 1);
      RunStep(l, c, ins, j - 1);
    }
    if j < |ins| { RunStep(l, c, ins, j); }
  }

  /** Within a normal stretch two growths of the queue depth are at least three ticks apart. */
  lemma DepthGrowthIsPaced(l: Limits, c: State, ins: seq<Input>, i: nat, j: nat)
    requires AllNormal(ins) && i < j < |ins| && GrewAt(l, c, ins, i) && GrewAt(l, c, ins, j)
    ensures j - i >= 3
  {
    if j < i + 3 { CooldownAfterGrowth(l, c, ins, i, j); }
  }

  /** The controller as the source writes it. */
  class Controller {
    const limits: Limits
    var settings: Settings
    var depthCooldown: nat

    constructor (l: Limits)
      ensures limits == if l.queue.hi == 0 then DEFAULT_LIMITS else l
      ensures State(settings, depthCooldown) == State(Initial(limits), 0)
    {
      limits := if l.queue.hi == 0 then DEFAULT_LIMITS else l;
      settings := Initial(if l.queue.hi == 0 then DEFAULT_LIMITS else l);
      depthCooldown := 0;
    }

    method Tick(p: Pressure, i: Signals) returns (s: Settings)
      modifies this
      ensures State(settings, depthCooldown) == Next(limits, old(State(settings, depthCooldown)), p, i)
      ensures s == settings
    {
      var adj := Adjust(limits, settings, p, i);
      if p == Normal {
        if depthCooldown > 0 {
          depthCooldown := depthCooldown - 1;
        } else {
          var depth := adj.depth;
          var saturated := adj.queue > 0 && i.activeWorkers >= Quo(adj.queue * 3, 4);
          var grow := i.backlog > Quo(depth * 3, 4) && saturated && i.cpu < 0.7;
          if grow && depth < limits.depth.hi {
            var step := Quo(i.backlog, 8);
            if step < 1000 { step := 1000; }
            if step > 4000 { step := 4000; }
            adj := adj.(depth := Clamp(depth + step, limits.depth));
            depthCooldown := 2;
          }
        }
      } else {
        depthCooldown := 0;
      }
      if adj != settings { settings := adj; }
      s := adj;
    }
  }
}
