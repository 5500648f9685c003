/** What the appliance believes about a link's capacity: how an observation is
    folded in, how belief ages, and how it survives a restart. Ageing is a
    parameter: `HalfLife` is all that is used of it, and `ExponentialIsHalfLife`
    shows that confidence times a half-life curve is an instance. */
module Belief {
  import opened Model

  ghost predicate HalfLife(decay: (real, real) -> real) {
    Shrinks(decay) && AgesDown(decay) && KeepsOrder(decay) && Composes(decay)
  }

  ghost predicate Shrinks(decay: (real, real) -> real) {
    && (forall c :: decay(c, 0.0) == c)
    && (forall c, a :: c >= 0.0 && a >= 0.0 ==> 0.0 <= decay(c, a) <= c && (c > 0.0 ==> decay(c, a) > 0.0))
  }

  ghost predicate AgesDown(decay: (real, real) -> real) {
    forall c, a, b :: c >= 0.0 && 0.0 <= a <= b ==> decay(c, b) <= decay(c, a)
  }

  ghost predicate KeepsOrder(decay: (real, real) -> real) {
    forall c, d, a :: 0.0 <= c <= d && a >= 0.0 ==> decay(c, a) <= decay(d, a)
  }

  ghost predicate Composes(decay: (real, real) -> real) {
    forall c, a, b {:trigger decay(c, Sum(a, b))} :: a >= 0.0 && b >= 0.0 ==>
       decay(decay(c, a), b) == decay(c, Sum(a, b))
  }

  /** Remaining confidence, given the confidence at measurement and its age. */
  type Decay = decay: (real, real) -> real | HalfLife(decay) ghost witness (c: real, a: real) => c

  /** A half-life curve: 1 at age 0, never increasing, never 0, and multiplicative. */
  ghost predicate HalfLifeCurve(curve: real -> real) {
    && curve(0.0) == 1.0
    && (forall a :: a >= 0.0 ==> 0.0 < curve(a) <= 1.0)
    && (forall a, b :: 0.0 <= a <= b ==> curve(b) <= curve(a))
    && (forall a, b {:trigger curve(Sum(a, b))} :: a >= 0.0 && b >= 0.0 ==> curve(Sum(a, b)) == curve(a) * curve(b))
  }

  function Sum(a: real, b: real): real {
    a + b
  }

  ghost predicate Exponential(curve: real -> real, decay: (real, real) -> real) {
    HalfLifeCurve(curve) && forall c, a :: decay(c, a) == c * curve(a)
  }

  /** `confidence * curve(age)` is such a law for every half-life curve. */
  lemma ExponentialIsHalfLife(curve: real -> real, decay: (real, real) -> real)
    requires Exponential(curve, decay)
    ensures HalfLife(decay)
  {
    ExponentialShrinks(curve, decay);
    ExponentialAgesDown(curve, decay);
    ExponentialKeepsOrder(curve, decay);
    ExponentialComposes(curve, decay);
  }

  lemma ExponentialShrinks(curve: real -> real, decay: (real, real) -> real)
    requires Exponential(curve, decay)
    ensures Shrinks(decay)
  {
    forall c, a | c >= 0.0 && a >= 0.0
      ensures 0.0 <= decay(c, a) <= c && (c > 0.0 ==> decay(c, a) > 0.0)
    {
      Scale(c, 0.0, curve(a), 0.0, decay(c, a));
      Scale(c, curve(a), 1.0, decay(c, a), c);
    }
  }

  lemma ExponentialAgesDown(curve: real -> real, decay: (real, real) -> real)
    requires Exponential(curve, decay)
    ensures AgesDown(decay)
  {
    forall c, a, b | c >= 0.0 && 0.0 <= a <= b ensures decay(c, b) <= decay(c, a) {
      Scale(c, curve(b), curve(a), decay(c, b), decay(c, a));
    }
  }

  lemma ExponentialKeepsOrder(curve: real -> real, decay: (real, real) -> real)
    requires Exponential(curve, decay)
    ensures KeepsOrder(decay)
  {
    forall c, d, a | 0.0 <= c <= d && a >= 0.0 ensures decay(c, a) <= decay(d, a) {
      Scale(curve(a), c, d, decay(c, a), decay(d, a));
    }
  }

  lemma ExponentialComposes(curve: real -> real, decay: (real, real) -> real)
    requires Exponential(curve, decay)
    ensures Composes(decay)
  {
    forall c, a, b | a >= 0.0 && b >= 0.0 ensures decay(decay(c, a), b) == decay(c, Sum(a, b)) {
      Associate(c, curve(a), curve(b));
    }
  }

  lemma Associate(x: real, y: real, z: real)
    ensures x * y * z == x * (y * z)
  {
  }

  lemma Scale(k: real, x: real, y: real, kx: real, ky: real)
    requires k >= 0.0 && x <= y && kx == k * x && ky == k * y
    ensures kx <= ky && (k > 0.0 && x < y ==> kx < ky)
  {
  }

  function NonNeg(x: real): real {
    if x >= 0.0 then x else 0.0
  }

  function DecayConfidence(decay: Decay, c: Capacity, now: real): real {
    if c.measuredAt.None? || !c.Known() then 0.0
    else decay(c.confidence, NonNeg(now - c.measuredAt.value))
  }

  datatype Observation = Observation(downBps: nat, upBps: nat, saturated: bool)

  /** `int(old * (1 - w) + new * w)`, with the weight 0.4 or 0.7 in exact tenths. */
  function Ewma(estimate: nat, sample: nat, confident: bool): nat {
    if confident then (6 * estimate + 4 * sample) / 10 else (3 * estimate + 7 * sample) / 10
  }

  function Fold(decay: Decay, c: Capacity, o: Observation, now: real): Capacity {
    var decayed := DecayConfidence(decay, c, now);
    if !o.saturated then c.(confidence := decayed)
    else
      Capacity(
        Ewma(c.downBps, o.downBps, decayed > 0.5),
        Ewma(c.upBps, o.upBps, decayed > 0.5),
        if decayed + 0.3 <= 1.0 then decayed + 0.3 else 1.0,
        Some(now))
  }

  const BOOTSTRAP_HEADROOM_BPS: nat := 256000

  /** A never-measured link is granted the bootstrap allowance, and only such a link. */
  predicate GetsBootstrap(decay: Decay, minConfidence: real, c: Capacity, now: real) {
    DecayConfidence(decay, c, now) < minConfidence && c.measuredAt.None?
  }

  /** What one pool member contributes to usable capacity. */
  function Believed(decay: Decay, minConfidence: real, c: Capacity, now: real): nat {
    if DecayConfidence(decay, c, now) >= minConfidence then c.downBps
    else if c.measuredAt.None? then BOOTSTRAP_HEADROOM_BPS
    else 0
  }

  // ---- across a restart --------------------------------------------------------

  /** A capacity as written to disk: staleness instead of a monotonic timestamp. */
  datatype SavedCapacity = SavedCapacity(downBps: nat, upBps: nat, confidence: real, measuredAge: Option<real>)

  function SaveCapacity(c: Capacity, now: real): SavedCapacity {
    SavedCapacity(c.downBps, c.upBps, c.confidence,
                  if c.measuredAt.Some? then Some(NonNeg(now - c.measuredAt.value)) else None)
  }

  function Reconstruct(s: SavedCapacity, elapsed: real, now: real): Capacity {
    Capacity(s.downBps, s.upBps, s.confidence,
             if s.measuredAge.Some? then Some(now - (s.measuredAge.value + elapsed)) else None)
  }

  /** Confidence `later` seconds after a restart is what an uninterrupted process
      would have reported, and never more even if a measurement was stamped in the future. */
  lemma RestartKeepsAge(decay: Decay, c: Capacity, stop: real, elapsed: real, start: real, later: real)
    requires c.confidence >= 0.0
    requires elapsed >= 0.0 && later >= 0.0
    ensures var c' := Reconstruct(SaveCapacity(c, stop), elapsed, start);
            && c'.(measuredAt := c.measuredAt) == c
            && (c'.measuredAt.None? <==> c.measuredAt.None?)
            && DecayConfidence(decay, c', start + later) <= DecayConfidence(decay, c, stop + elapsed + later)
            && (c.measuredAt.None? || c.measuredAt.value <= stop ==>
                  DecayConfidence(decay, c', start + later) == DecayConfidence(decay, c, stop + elapsed + later))
  {
    var c' := Reconstruct(SaveCapacity(c, stop), elapsed, start);
    if c.measuredAt.Some? && c.Known() {
      var a := NonNeg(stop + elapsed + later - c.measuredAt.value);
      var a' := NonNeg(start + later - c'.measuredAt.value);
      assert a <= a' && (c.measuredAt.value <= stop ==> a == a');
    }
  }

  /** Off-time the wall clock cannot account for never makes belief fresher than it was. */
  lemma RestartNeverRefreshes(decay: Decay, c: Capacity, stop: real, elapsed: real, start: real, later: real)
    requires c.confidence >= 0.0
    requires elapsed >= 0.0 && later >= 0.0
    ensures DecayConfidence(decay, Reconstruct(SaveCapacity(c, stop), elapsed, start),
                            start + later) <= DecayConfidence(decay, c, stop)
  {
    var c' := Reconstruct(SaveCapacity(c, stop), elapsed, start);
    if c.measuredAt.Some? && c.Known() {
      assert NonNeg(stop - c.measuredAt.value) <= NonNeg(start + later - c'.measuredAt.value);
    }
  }

  // ---- belief over a whole life --------------------------------------------------

  /** One link's history on one true timeline. A process reads `at - origin` from its own
      clock. A restart goes on from the belief as it was when last written, at `stop`; what
      happened between writing and stopping is no part of the history that survives. */
  datatype Event =
    | Sampled(at: real, observed: Observation)
    | Restarted(stop: real, at: real, origin: real, wallElapsed: real)

  datatype World = World(capacity: Capacity, origin: real, at: real)

  function Next(decay: Decay, w: World, e: Event): World {
    match e
    case Sampled(at, o) => World(Fold(decay, w.capacity, o, at - w.origin), w.origin, at)
    case Restarted(stop, at, origin, wall) =>
      World(Reconstruct(SaveCapacity(w.capacity, stop - w.origin), NonNeg(wall), at - origin), origin, at)
  }

  function Live(decay: Decay, w: World, events: seq<Event>): World {
    if events == [] then w else Next(decay, Live(decay, w, events[..|events| - 1]), events[|events| - 1])
  }

  function LastAt(start: real, events: seq<Event>): real {
    if events == [] then start else events[|events| - 1].at
  }

  /** True time never runs backwards. Nothing is asked of the wall clock. */
  ghost predicate Timely(start: real, events: seq<Event>) {
    events == [] ||
    (&& Timely(start, events[..|events| - 1])
     && FitsAfter(LastAt(start, events[..|events| - 1]), events[|events| - 1]))
  }

  predicate FitsAfter(at: real, e: Event) {
    at <= e.at && (e.Restarted? ==> at <= e.stop <= e.at)
  }

  /** Time spent off that the wall clock, clamped at zero, did not count; negative if it
      counted more than there was. */
  function Uncounted(e: Event): real {
    if e.Restarted? then e.at - e.stop - NonNeg(e.wallElapsed) else 0.0
  }

  /** Time not counted since the last saturated sample. */
  function Lost(events: seq<Event>): real {
    if events == [] || IsSaturated(events[|events| - 1]) then 0.0
    else Lost(events[..|events| - 1]) + Uncounted(events[|events| - 1])
  }

  predicate IsSaturated(e: Event) {
    e.Sampled? && e.observed.saturated
  }

  /** The history up to and including its last saturated sample; empty if there is none. */
  ghost function SaturatedPart(events: seq<Event>): (r: seq<Event>)
    ensures r <= events && (r != [] ==> IsSaturated(r[|r| - 1]))
    ensures forall i :: |r| <= i < |events| ==> !IsSaturated(events[i])
  {
    if events == [] || IsSaturated(events[|events| - 1]) then events else SaturatedPart(events[..|events| - 1])
  }

  /** When the last saturated sample was taken, and the confidence it left. */
  ghost function Taken(events: seq<Event>): real
    requires SaturatedPart(events) != []
  {
    SaturatedPart(events)[|SaturatedPart(events)| - 1].at
  }

  ghost function Peak(decay: Decay, w: World, events: seq<Event>): real {
    Live(decay, w, SaturatedPart(events)).capacity.confidence
  }

  datatype Direction = Download | Upload

  function Throughput(o: Observation, d: Direction): nat {
    if d.Download? then o.downBps else o.upBps
  }

  function Estimate(c: Capacity, d: Direction): nat {
    if d.Download? then c.downBps else c.upBps
  }

  ghost function LargestSeen(events: seq<Event>, d: Direction): nat {
    if events == [] then 0
    else
      var before := LargestSeen(events[..|events| - 1], d);
      var e := events[|events| - 1];
      if IsSaturated(e) then Max(before, Throughput(e.observed, d)) else before
  }

  /** A saturated sample closes at least 40% of the gap to it when the estimate was
      still trusted and 70% when it was not, up to one bit per second of truncation. */
  lemma SampleClosesGap(decay: Decay, c: Capacity, o: Observation, now: real, d: Direction)
    requires o.saturated
    ensures var c' := Fold(decay, c, o, now);
            var gap, left := Throughput(o, d) - Estimate(c, d), Throughput(o, d) - Estimate(c', d);
            var keep := if DecayConfidence(decay, c, now) > 0.5 then 6 else 3;
            keep * gap <= 10 * left < keep * gap + 10
  {
  }

  /** What ageing leaves of the trust in an estimate: nothing without a date or trust, and
      otherwise the decay law's answer for its age; a date in the future counts as now. */
  ghost predicate Remains(decay: Decay, c: Capacity, now: real, trust: real) {
    if c.measuredAt == None || c.confidence <= 0.0 then trust == 0.0
    else trust == decay(c.confidence, if c.measuredAt.value <= now then now - c.measuredAt.value else 0.0)
  }

  /** Six tenths of the estimate and four of the sample, or three and seven, rounded down. */
  ghost predicate Weighed(estimate: nat, sample: nat, result: nat, trusted: bool) {
    if trusted then 10 * result <= 6 * estimate + 4 * sample < 10 * result + 10
    else 10 * result <= 3 * estimate + 7 * sample < 10 * result + 10
  }

  /** Every fold in full: an idle sample leaves what remains of the trust and nothing else
      changed; a saturated one dates the estimate now, adds three tenths to that trust up to
      one, and weighs each direction's sample in by whether more than half of it remained. */
  lemma FoldIs(decay: Decay, c: Capacity, o: Observation, now: real, trust: real)
    requires Remains(decay, c, now, trust)
    ensures var c' := Fold(decay, c, o, now);
            if !o.saturated then c' == Capacity(c.downBps, c.upBps, trust, c.measuredAt)
            else
              && c'.measuredAt == Some(now)
              && c'.confidence <= trust + 0.3 && c'.confidence <= 1.0
              && (c'.confidence == trust + 0.3 || c'.confidence == 1.0)
              && Weighed(c.downBps, o.downBps, c'.downBps, trust > 0.5)
              && Weighed(c.upBps, o.upBps, c'.upBps, trust > 0.5)
  {
    assert trust == DecayConfidence(decay, c, now);
  }

  lemma FoldBounds(decay: Decay, c: Capacity, o: Observation, now: real)
    requires 0.0 <= c.confidence <= 1.0
    ensures var c' := Fold(decay, c, o, now);
            && (o.saturated ==>
                  && 0.0 <= c'.confidence <= 1.0
                  && c'.measuredAt == Some(now)
                  && forall d :: Estimate(c', d) <= Max(Estimate(c, d), Throughput(o, d)))
            && (!o.saturated ==>
                  && 0.0 <= c'.confidence <= c.confidence
                  && c'.(confidence := c.confidence) == c)
  {
    DecayBounds(decay, c, now);
  }

  /** Whatever the wall clock did, a restart keeps the estimate and dates it no later than
      its true date plus the time not counted; exactly so if it was not dated ahead. */
  lemma RestartAges(w: World, e: Event, decay: Decay)
    requires e.Restarted?
    ensures var w' := Next(decay, w, e);
            && w'.capacity.(measuredAt := w.capacity.measuredAt) == w.capacity
            && (w'.capacity.measuredAt.Some? <==> w.capacity.measuredAt.Some?)
            && (w.capacity.measuredAt.Some? ==>
                  var before, after := w.capacity.measuredAt.value + w.origin, w'.capacity.measuredAt.value + w'.origin;
                  && after <= before + Uncounted(e)
                  && (before <= e.stop ==> after == before + Uncounted(e)))
  {
  }

  /** Over any interleaving of samples and restarts since the link was first seen,
      confidence is a confidence and the estimate never outgrows what was seen under load. */
  lemma {:induction false} BeliefInRange(decay: Decay, w: World, events: seq<Event>)
    requires w.capacity == UNMEASURED
    ensures 0.0 <= Live(decay, w, events).capacity.confidence <= 1.0
    ensures forall d :: Estimate(Live(decay, w, events).capacity, d) <= LargestSeen(events, d)
    ensures Live(decay, w, events).at == LastAt(w.at, events)
  {
    if events != [] {
      var before, e := events[..|events| - 1], events[|events| - 1];
      BeliefInRange(decay, w, before);
      var was := Live(decay, w, before);
      match e
      case Sampled(at, o) => FoldBounds(decay, was.capacity, o, at - was.origin);
      case Restarted(_, _, _, _) => RestartAges(was, e, decay);
    }
  }

  /** A link is unmeasured exactly until its first saturated sample. */
  lemma {:induction false} UnmeasuredUntilSaturated(decay: Decay, w: World, events: seq<Event>)
    requires w.capacity == UNMEASURED
    ensures Live(decay, w, events).capacity.measuredAt.Some? <==> SaturatedPart(events) != []
    ensures SaturatedPart(events) == [] ==> Live(decay, w, events).capacity == UNMEASURED
  {
    if events != [] {
      var before, e := events[..|events| - 1], events[|events| - 1];
      UnmeasuredUntilSaturated(decay, w, before);
    }
  }

  /** The age counted is at least the true age of a sample taken at `taken`, and
      the confidence is at most the `peak` that sample left behind. */
  ghost predicate AgedSince(w: World, taken: real, peak: real) {
    && w.capacity.measuredAt.Some?
    && w.capacity.measuredAt.value + w.origin <= taken
    && 0.0 <= w.capacity.confidence <= peak <= 1.0
  }

  lemma OnlySaturationRefreshes(decay: Decay, w: World, e: Event, taken: real, peak: real)
    requires AgedSince(w, taken, peak) && !IsSaturated(e)
    ensures AgedSince(Next(decay, w, e), taken + Uncounted(e), peak)
  {
    match e
    case Sampled(at, o) => FoldBounds(decay, w.capacity, o, at - w.origin);
    case Restarted(_, _, _, _) => RestartAges(w, e, decay);
  }

  lemma SaturationRefreshes(decay: Decay, w: World, e: Event)
    requires IsSaturated(e) && 0.0 <= w.capacity.confidence <= 1.0
    ensures AgedSince(Next(decay, w, e), e.at, Next(decay, w, e).capacity.confidence)
  {
    FoldBounds(decay, w.capacity, e.observed, e.at - w.origin);
  }

  lemma {:induction false} AgedSinceSaturated(decay: Decay, w: World, events: seq<Event>)
    requires w.capacity == UNMEASURED
    requires SaturatedPart(events) != []
    ensures AgedSince(Live(decay, w, events), Taken(events) + Lost(events), Peak(decay, w, events))
  {
    var before, e := events[..|events| - 1], events[|events| - 1];
    if IsSaturated(e) {
      BeliefInRange(decay, w, before);
      SaturationRefreshes(decay, Live(decay, w, before), e);
    } else {
      AgedSinceSaturated(decay, w, before);
      OnlySaturationRefreshes(decay, Live(decay, w, before), e, Taken(before) + Lost(before), Peak(decay, w, before));
    }
  }

  lemma DecayBounds(decay: Decay, c: Capacity, now: real)
    requires 0.0 <= c.confidence <= 1.0
    ensures 0.0 <= DecayConfidence(decay, c, now) <= c.confidence
  {
  }

  ghost predicate UnderTheCountedCurve(decay: Decay, now: World, taken: real, lost: real, peak: real, at: real) {
    DecayConfidence(decay, now.capacity, at - now.origin) <= decay(peak, NonNeg(at - taken - lost))
  }

  /** Belief never exceeds the half-life curve started at the last saturated sample and
      run over the time since then that was counted, whatever the wall clocks did. */
  lemma BeliefUnderCurve(decay: Decay, w: World, events: seq<Event>, at: real)
    requires w.capacity == UNMEASURED && SaturatedPart(events) != []
    ensures UnderTheCountedCurve(decay, Live(decay, w, events), Taken(events), Lost(events), Peak(decay, w, events), at)
  {
    AgedSinceSaturated(decay, w, events);
    var now := Live(decay, w, events);
    UnderCurve(decay, now.capacity, now.origin, Peak(decay, w, events), Taken(events) + Lost(events), at);
  }

  lemma UnderCurve(decay: Decay, c: Capacity, origin: real, peak: real, taken: real, at: real)
    requires c.measuredAt.Some? && 0.0 <= c.confidence <= peak
    requires c.measuredAt.value + origin <= taken
    ensures DecayConfidence(decay, c, at - origin) <= decay(peak, NonNeg(at - taken))
  {
    var age, counted := NonNeg(at - origin - c.measuredAt.value), NonNeg(at - taken);
    assert decay(c.confidence, age) <= decay(c.confidence, counted) <= decay(peak, counted);
  }

  /** So as long as the wall clocks missed no more time than they made up, belief is also
      under the curve over true time. */
  lemma BeliefUnderTrueCurve(decay: Decay, w: World, events: seq<Event>, at: real)
    requires w.capacity == UNMEASURED && SaturatedPart(events) != []
    requires Timely(w.at, events) && LastAt(w.at, events) <= at && Lost(events) <= 0.0
    ensures var now := Live(decay, w, events);
            DecayConfidence(decay, now.capacity, at - now.origin) <= decay(Peak(decay, w, events), at - Taken(events))
  {
    BeliefUnderCurve(decay, w, events, at);
    CountedIsOlder(w.at, events, at);
    BeliefInRange(decay, w, SaturatedPart(events));
    OlderIsWeaker(decay, Peak(decay, w, events), at - Taken(events), NonNeg(at - Taken(events) - Lost(events)));
  }

  lemma CountedIsOlder(start: real, events: seq<Event>, at: real)
    requires Timely(start, events) && LastAt(start, events) <= at && SaturatedPart(events) != [] && Lost(events) <= 0.0
    ensures 0.0 <= at - Taken(events) <= NonNeg(at - Taken(events) - Lost(events))
  {
    LostIsTimeOff(start, events);
  }

  lemma OlderIsWeaker(decay: Decay, peak: real, age: real, older: real)
    requires peak >= 0.0 && 0.0 <= age <= older
    ensures decay(peak, older) <= decay(peak, age)
  {
  }

  /** No more can be lost than has passed. */
  lemma {:induction false} LostIsTimeOff(start: real, events: seq<Event>)
    requires Timely(start, events) && SaturatedPart(events) != []
    ensures Taken(events) + Lost(events) <= LastAt(start, events) && Taken(events) <= LastAt(start, events)
  {
    if !IsSaturated(events[|events| - 1]) {
      LostIsTimeOff(start, events[..|events| - 1]);
    }
  }

  /** Ages by which idle samples have already weakened the stored confidence. */
  ghost function Spent(events: seq<Event>): real {
    if SaturatedPart(events) == [] || IsSaturated(events[|events| - 1]) then 0.0
    else
      var before, e := events[..|events| - 1], events[|events| - 1];
      Spent(before) + (if e.Sampled? then e.at - Taken(before) - Lost(before) else 0.0)
  }

  /** Dated `taken` on the true timeline, with the confidence `peak` weakened by `spent`. */
  ghost predicate Stands(decay: Decay, w: World, taken: real, peak: real, spent: real) {
    && w.capacity.measuredAt == Some(taken - w.origin)
    && peak >= 0.3 && spent >= 0.0 && w.capacity.confidence == decay(peak, spent)
  }

  lemma SampleStands(decay: Decay, w: World, e: Event)
    requires IsSaturated(e) && 0.0 <= w.capacity.confidence <= 1.0
    ensures Stands(decay, Next(decay, w, e), e.at, Next(decay, w, e).capacity.confidence, 0.0)
  {
    DecayBounds(decay, w.capacity, e.at - w.origin);
  }

  lemma IdleStands(decay: Decay, w: World, e: Event, taken: real, peak: real, spent: real)
    requires e.Sampled? && !e.observed.saturated && Stands(decay, w, taken, peak, spent) && taken <= e.at
    ensures Stands(decay, Next(decay, w, e), taken, peak, spent + (e.at - taken))
  {
    var age := e.at - taken;
    assert NonNeg(e.at - w.origin - w.capacity.measuredAt.value) == age;
    AgesAdd(decay, peak, spent, age);
  }

  lemma AgesAdd(decay: Decay, peak: real, spent: real, age: real)
    requires peak > 0.0 && spent >= 0.0 && age >= 0.0
    ensures decay(peak, spent) > 0.0 && decay(decay(peak, spent), age) == decay(peak, spent + age)
  {
    assert decay(decay(peak, spent), age) == decay(peak, Sum(spent, age));
  }

  lemma RestartStands(decay: Decay, w: World, e: Event, taken: real, peak: real, spent: real)
    requires e.Restarted? && Stands(decay, w, taken, peak, spent) && taken <= e.stop
    ensures Stands(decay, Next(decay, w, e), taken + Uncounted(e), peak, spent)
  {
    RestartAges(w, e, decay);
  }

  /** Exactly what is stored after any run: the date is the last saturated sample's plus the
      time not counted, the confidence what it left less the ages spent by idle samples. */
  lemma {:induction false} StandsAfter(decay: Decay, w: World, events: seq<Event>)
    requires w.capacity == UNMEASURED && Timely(w.at, events) && SaturatedPart(events) != []
    ensures Stands(decay, Live(decay, w, events), Taken(events) + Lost(events), Peak(decay, w, events), Spent(events))
  {
    if IsSaturated(events[|events| - 1]) {
      SampledLast(decay, w, events);
    } else {
      StandsAfter(decay, w, events[..|events| - 1]);
      UnsaturatedLast(decay, w, events);
    }
  }

  lemma SampledLast(decay: Decay, w: World, events: seq<Event>)
    requires w.capacity == UNMEASURED && |events| > 0 && IsSaturated(events[|events| - 1])
    ensures Stands(decay, Live(decay, w, events), Taken(events) + Lost(events), Peak(decay, w, events), Spent(events))
  {
    BeliefInRange(decay, w, events[..|events| - 1]);
    SampleStands(decay, Live(decay, w, events[..|events| - 1]), events[|events| - 1]);
  }

  lemma UnsaturatedLast(decay: Decay, w: World, events: seq<Event>)
    requires |events| > 0 && !IsSaturated(events[|events| - 1]) && Timely(w.at, events)
    requires var before := events[..|events| - 1];
             && SaturatedPart(before) != []
             && Stands(decay, Live(decay, w, before), Taken(before) + Lost(before), Peak(decay, w, before),
                       Spent(before))
    ensures Stands(decay, Live(decay, w, events), Taken(events) + Lost(events), Peak(decay, w, events), Spent(events))
  {
    var before, e := events[..|events| - 1], events[|events| - 1];
    LostIsTimeOff(w.at, before);
    assert SaturatedPart(events) == SaturatedPart(before);
    if e.Sampled? {
      IdleStands(decay, Live(decay, w, before), e, Taken(before) + Lost(before), Peak(decay, w, before), Spent(before));
    } else {
      RestartStands(decay, Live(decay, w, before), e, Taken(before) + Lost(before), Peak(decay, w, before),
                    Spent(before));
    }
  }

  /** Older is strictly weaker, as it is for a half-life. */
  ghost predicate Fades(decay: (real, real) -> real) {
    forall c, a, b :: c > 0.0 && 0.0 <= a < b ==> decay(c, b) < decay(c, a)
  }

  lemma ExponentialFades(curve: real -> real, decay: (real, real) -> real)
    requires Exponential(curve, decay) && forall a, b :: 0.0 <= a < b ==> curve(b) < curve(a)
    ensures Fades(decay)
  {
    forall c, a, b | c > 0.0 && 0.0 <= a < b ensures decay(c, b) < decay(c, a) {
      Scale(c, curve(b), curve(a), decay(c, b), decay(c, a));
    }
  }

  /** Belief is the curve at the time counted since the sample plus the ages spent, and
      exceeds the curve over true time precisely if more time was lost than spent. */
  ghost predicate OverTheTrueCurveIffLost(decay: Decay, now: World, taken: real, lost: real, spent: real, peak: real,
                                          at: real) {
    var belief := DecayConfidence(decay, now.capacity, at - now.origin);
    && belief == decay(peak, spent + (at - taken - lost))
    && (belief > decay(peak, at - taken) <==> spent < lost)
  }

  /** Exactly when the true-time curve is kept, over every run: idle samples age the belief
      too much and wall clocks that miss time too little, and the larger of the two decides. */
  lemma TrueCurveKeptIff(decay: Decay, w: World, events: seq<Event>, at: real)
    requires w.capacity == UNMEASURED && Timely(w.at, events) && SaturatedPart(events) != []
    requires LastAt(w.at, events) <= at
    requires Fades(decay)
    ensures OverTheTrueCurveIffLost(decay, Live(decay, w, events), Taken(events), Lost(events), Spent(events),
                                    Peak(decay, w, events), at)
  {
    StandsAfter(decay, w, events);
    LostIsTimeOff(w.at, events);
    StandsOverIff(decay, Live(decay, w, events), Taken(events), Lost(events), Spent(events), Peak(decay, w, events),
                  at);
  }

  lemma StandsOverIff(decay: Decay, now: World, taken: real, lost: real, spent: real, peak: real, at: real)
    requires Fades(decay) && Stands(decay, now, taken + lost, peak, spent) && taken <= at && taken + lost <= at
    ensures OverTheTrueCurveIffLost(decay, now, taken, lost, spent, peak, at)
  {
    var counted := at - taken - lost;
    assert NonNeg(at - now.origin - now.capacity.measuredAt.value) == counted;
    AgesAdd(decay, peak, spent, counted);
    FadesIff(decay, peak, spent + counted, at - taken);
  }

  lemma FadesIff(decay: Decay, peak: real, age: real, other: real)
    requires Fades(decay) && peak > 0.0 && age >= 0.0 && other >= 0.0
    ensures decay(peak, age) > decay(peak, other) <==> age < other
  {
    if age < other {
      assert decay(peak, other) < decay(peak, age);
    } else if other < age {
      assert decay(peak, age) < decay(peak, other);
    }
  }

  /** Nothing but restarts since the last saturated sample. */
  ghost predicate OnlyRestarts(events: seq<Event>) {
    events != [] && (IsSaturated(events[|events| - 1])
                     || (events[|events| - 1].Restarted? && OnlyRestarts(events[..|events| - 1])))
  }

  /** Then nothing has been spent, so the curve is exceeded exactly if time was lost. */
  lemma {:induction false} RestartsSpendNothing(events: seq<Event>)
    requires OnlyRestarts(events)
    ensures SaturatedPart(events) != [] && Spent(events) == 0.0
  {
    if !IsSaturated(events[|events| - 1]) {
      RestartsSpendNothing(events[..|events| - 1]);
    }
  }

  /** For instance: measured once, then off for an hour with a wall clock that stood still. */
  lemma StoppedWallClockKeepsBeliefFresh(decay: Decay, origin: real, o: Observation)
    requires o.saturated && Fades(decay)
    ensures var events := [Sampled(0.0, o), Restarted(0.0, 3600.0, origin, 0.0)];
            var now := Live(decay, World(UNMEASURED, 0.0, 0.0), events);
            && Timely(0.0, events) && Lost(events) == 3600.0
            && DecayConfidence(decay, now.capacity, 3600.0 - now.origin) == 0.3 > decay(0.3, 3600.0)
  {
    var w, e, r := World(UNMEASURED, 0.0, 0.0), Sampled(0.0, o), Restarted(0.0, 3600.0, origin, 0.0);
    var events := [e, r];
    assert events[..1] == [e] && [e][..0] == [];
    assert Timely(0.0, [e][..0]) && Timely(0.0, [e]) && Lost([e]) == 0.0;
    assert Live(decay, w, [e]) == Next(decay, w, e);
    assert Live(decay, w, events) == Next(decay, Next(decay, w, e), r);
    assert decay(0.3, 3600.0) < decay(0.3, 0.0);
  }

  /** The bootstrap allowance lasts exactly until the first saturated sample of a history,
      and only when the confidence floor is positive. */
  lemma BootstrapUntilSaturated(decay: Decay, w: World, events: seq<Event>, minConfidence: real, now: real)
    requires w.capacity == UNMEASURED
    ensures GetsBootstrap(decay, minConfidence, Live(decay, w, events).capacity, now)
       <==> minConfidence > 0.0 && SaturatedPart(events) == []
  {
    UnmeasuredUntilSaturated(decay, w, events);
  }

  // ---- what idle samples do ---------------------------------------------------------

  function IdleFolds(decay: Decay, c: Capacity, times: seq<real>): Capacity {
    if times == [] then c
    else Fold(decay, IdleFolds(decay, c, times[..|times| - 1]), Observation(0, 0, false), times[|times| - 1])
  }

  function TotalAge(measuredAt: real, times: seq<real>): real {
    if times == [] then 0.0
    else TotalAge(measuredAt, times[..|times| - 1]) + (times[|times| - 1] - measuredAt)
  }

  /** Every idle sample ages the estimate again from its original timestamp, so the
      ages add up: belief after idle samples is the curve at their total, not at the last. */
  lemma {:induction false} IdleSamplesCompound(decay: Decay, c: Capacity, times: seq<real>, now: real)
    requires c.measuredAt.Some? && c.Known()
    requires forall i :: 0 <= i < |times| ==> c.measuredAt.value <= times[i]
    requires c.measuredAt.value <= now
    ensures TotalAge(c.measuredAt.value, times) >= 0.0
    ensures IdleFolds(decay, c, times)
         == c.(confidence := decay(c.confidence, TotalAge(c.measuredAt.value, times)))
    ensures DecayConfidence(decay, IdleFolds(decay, c, times), now)
         == decay(c.confidence, TotalAge(c.measuredAt.value, times) + (now - c.measuredAt.value))
  {
    var measured := c.measuredAt.value;
    if times != [] {
      IdleSamplesCompound(decay, c, times[..|times| - 1], times[|times| - 1]);
    }
    var total, more := TotalAge(measured, times), now - measured;
    assert total + more == Sum(total, more);
    assert decay(decay(c.confidence, total), more) == decay(c.confidence, Sum(total, more));
  }
}
