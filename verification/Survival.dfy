/** What of a belief survives restarts. The registry is written now and then, a restart
    goes on from what was written last, and whatever was learnt since is gone. */
module Survival {
  import opened Model
  import opened Belief
  import Registry

  /** What happens to one link: an observation is folded in, the registry is written (with
      or without the link, which must be worth it), or the process comes back, with a wall
      clock that has advanced so much since the writing and a file it may or may not read.
      A write that fails leaves the old file and is no happening at all. */
  datatype Happening =
    | Folded(at: real, observed: Observation)
    | Written(at: real, worth: bool)
    | CameBack(at: real, origin: real, wallElapsed: real, readable: bool)

  datatype Filed = Filed(saved: SavedCapacity, at: real)

  /** The belief of the running process, and the link's entry in the file, if it has one. */
  datatype Memory = Memory(live: World, file: Option<Filed>)

  function After(decay: Decay, m: Memory, h: Happening): Memory {
    match h
    case Folded(at, o) => m.(live := Next(decay, m.live, Sampled(at, o)))
    case Written(at, worth) =>
      m.(file := if worth then Some(Filed(SaveCapacity(m.live.capacity, at - m.live.origin), at)) else None)
    case CameBack(at, origin, wall, readable) =>
      if m.file.Some? && readable
      then m.(live := World(Reconstruct(m.file.value.saved, NonNeg(wall), at - origin), origin, at))
      else Memory(World(UNMEASURED, origin, at), None)
  }

  function Through(decay: Decay, m: Memory, hs: seq<Happening>): Memory {
    if hs == [] then m else After(decay, Through(decay, m, hs[..|hs| - 1]), hs[|hs| - 1])
  }

  /** The registry's own saving and loading do to each link what `After` says. */
  lemma RegistryRemembersSo(decay: Decay, b: Registry.Book, id: Id, m: Memory, written: real, wallStop: real,
                            at: real, origin: real, wallStart: real)
    requires Registry.Keyed(b) && id in b && b[id].capacity == m.live.capacity
    ensures var loaded := Registry.Load(Registry.Save(b, written - m.live.origin, wallStop), at - origin, wallStart);
            var filed := After(decay, m, Written(written, Registry.WorthPersisting(b[id])));
            var back := After(decay, filed, CameBack(at, origin, wallStart - wallStop, true));
            && (id in loaded <==> filed.file.Some?)
            && back.live.capacity == if id in loaded then loaded[id].capacity else UNMEASURED
  {
  }

  // ---- the part of the history that survives ---------------------------------------------

  datatype FiledHistory = FiledHistory(events: seq<Event>, at: real)

  /** The history the running process goes by, and the one the file holds. */
  datatype Kept = Kept(live: seq<Event>, filed: Option<FiledHistory>)

  function KeepOne(k: Kept, h: Happening): Kept {
    match h
    case Folded(at, o) => k.(live := k.live + [Sampled(at, o)])
    case Written(at, worth) => k.(filed := if worth then Some(FiledHistory(k.live, at)) else None)
    case CameBack(at, origin, wall, readable) =>
      if k.filed.Some? && readable
         then k.(live := k.filed.value.events + [Restarted(k.filed.value.at, at, origin, wall)])
      else Kept([Restarted(at, at, origin, 0.0)], None)
  }

  function Keep(hs: seq<Happening>): Kept {
    if hs == [] then Kept([], None) else KeepOne(Keep(hs[..|hs| - 1]), hs[|hs| - 1])
  }

  /** The world a kept history leads to is the one the process is in, and the file holds
      what the filed history led to. */
  ghost predicate Agrees(decay: Decay, w: World, m: Memory, k: Kept) {
    && m.live == Live(decay, w, k.live)
    && m.file == if k.filed.None? then None else Some(FiledFrom(decay, w, k.filed.value))
  }

  ghost function FiledFrom(decay: Decay, w: World, f: FiledHistory): Filed {
    var then_ := Live(decay, w, f.events);
    Filed(SaveCapacity(then_.capacity, f.at - then_.origin), f.at)
  }

  lemma LiveSnoc(decay: Decay, w: World, events: seq<Event>, e: Event)
    ensures Live(decay, w, events + [e]) == Next(decay, Live(decay, w, events), e)
  {
    assert (events + [e])[..|events|] == events;
  }

  /** A restart without an entry is the first event of a new history. */
  lemma StartsAfresh(decay: Decay, w: World, at: real, origin: real)
    requires w.capacity == UNMEASURED
    ensures Live(decay, w, [Restarted(at, at, origin, 0.0)]) == World(UNMEASURED, origin, at)
  {
    assert [Restarted(at, at, origin, 0.0)][..0] == [];
  }

  /** A restart with an entry goes on from the filed history. */
  lemma GoesOn(decay: Decay, w: World, f: FiledHistory, at: real, origin: real, wall: real)
    ensures Live(decay, w, f.events + [Restarted(f.at, at, origin, wall)])
         == World(Reconstruct(FiledFrom(decay, w, f).saved, NonNeg(wall), at - origin), origin, at)
  {
    LiveSnoc(decay, w, f.events, Restarted(f.at, at, origin, wall));
  }

  lemma CameBackAgrees(decay: Decay, w: World, m: Memory, k: Kept, h: Happening)
    requires w.capacity == UNMEASURED && Agrees(decay, w, m, k) && h.CameBack?
    ensures Agrees(decay, w, After(decay, m, h), KeepOne(k, h))
  {
    if k.filed.Some? && h.readable {
      GoesOn(decay, w, k.filed.value, h.at, h.origin, h.wallElapsed);
    } else {
      StartsAfresh(decay, w, h.at, h.origin);
    }
  }

  lemma FoldedAgrees(decay: Decay, w: World, m: Memory, k: Kept, h: Happening)
    requires Agrees(decay, w, m, k) && h.Folded?
    ensures Agrees(decay, w, After(decay, m, h), KeepOne(k, h))
  {
    LiveSnoc(decay, w, k.live, Sampled(h.at, h.observed));
  }

  lemma AgreesAfter(decay: Decay, w: World, m: Memory, k: Kept, h: Happening)
    requires w.capacity == UNMEASURED && Agrees(decay, w, m, k)
    ensures Agrees(decay, w, After(decay, m, h), KeepOne(k, h))
  {
    if h.Folded? {
      FoldedAgrees(decay, w, m, k, h);
    } else if h.CameBack? {
      CameBackAgrees(decay, w, m, k, h);
    }
  }

  /** Whatever is written, lost and read back, the belief is the one the surviving part of
      the history leads to. */
  lemma {:induction false} BeliefIsWhatSurvived(decay: Decay, w: World, hs: seq<Happening>)
    requires w.capacity == UNMEASURED
    ensures Agrees(decay, w, Through(decay, Memory(w, None), hs), Keep(hs))
  {
    if |hs| > 0 {
      BeliefIsWhatSurvived(decay, w, hs[..|hs| - 1]);
      AgreesAfter(decay, w, Through(decay, Memory(w, None), hs[..|hs| - 1]), Keep(hs[..|hs| - 1]), hs[|hs| - 1]);
    }
  }

  function LastHappened(start: real, hs: seq<Happening>): real {
    if hs == [] then start else hs[|hs| - 1].at
  }

  /** True time moves forward; nothing is asked of the wall clock. */
  ghost predicate InTime(start: real, hs: seq<Happening>) {
    hs == [] || (InTime(start, hs[..|hs| - 1]) && LastHappened(start, hs[..|hs| - 1]) <= hs[|hs| - 1].at)
  }

  ghost predicate KeptInTime(start: real, k: Kept, now: real) {
    && start <= now && Timely(start, k.live) && LastAt(start, k.live) <= now
    && (k.filed.Some? ==>
          Timely(start, k.filed.value.events) && LastAt(start, k.filed.value.events) <= k.filed.value.at <= now)
  }

  lemma TimelySnoc(start: real, events: seq<Event>, e: Event)
    requires Timely(start, events) && FitsAfter(LastAt(start, events), e)
    ensures Timely(start, events + [e]) && LastAt(start, events + [e]) == e.at
  {
    assert (events + [e])[..|events|] == events;
  }

  lemma KeepOneInTime(start: real, k: Kept, now: real, h: Happening)
    requires KeptInTime(start, k, now) && now <= h.at
    ensures KeptInTime(start, KeepOne(k, h), h.at)
  {
    match h
    case Folded(at, o) => TimelySnoc(start, k.live, Sampled(at, o));
    case Written(_, _) =>
    case CameBack(at, origin, wall, readable) =>
      if k.filed.Some? && readable {
        TimelySnoc(start, k.filed.value.events, Restarted(k.filed.value.at, at, origin, wall));
      } else {
        var none: seq<Event> := [];
        TimelySnoc(start, none, Restarted(at, at, origin, 0.0));
        assert none + [Restarted(at, at, origin, 0.0)] == [Restarted(at, at, origin, 0.0)];
      }
  }

  lemma {:induction false} KeepIsInTime(start: real, hs: seq<Happening>)
    requires InTime(start, hs)
    ensures KeptInTime(start, Keep(hs), LastHappened(start, hs))
  {
    if |hs| > 0 {
      KeepIsInTime(start, hs[..|hs| - 1]);
      KeepOneInTime(start, Keep(hs[..|hs| - 1]), LastHappened(start, hs[..|hs| - 1]), hs[|hs| - 1]);
    }
  }

  // ---- what holds whatever is lost -------------------------------------------------------------

  ghost function LargestFolded(hs: seq<Happening>, d: Direction): nat {
    if hs == [] then 0
    else
      var before, h := LargestFolded(hs[..|hs| - 1], d), hs[|hs| - 1];
      if h.Folded? && h.observed.saturated then Max(before, Throughput(h.observed, d)) else before
  }

  lemma LargestSnoc(events: seq<Event>, e: Event, d: Direction)
    ensures LargestSeen(events + [e], d)
         == if IsSaturated(e) then Max(LargestSeen(events, d), Throughput(e.observed, d)) else LargestSeen(events, d)
  {
    assert (events + [e])[..|events|] == events;
  }

  ghost predicate NoneAbove(k: Kept, most: nat, d: Direction) {
    LargestSeen(k.live, d) <= most && (k.filed.Some? ==> LargestSeen(k.filed.value.events, d) <= most)
  }

  lemma RestartShowsNothing(events: seq<Event>, e: Event, d: Direction)
    requires e.Restarted?
    ensures LargestSeen(events + [e], d) == LargestSeen(events, d)
    ensures LargestSeen([e], d) == 0
  {
    LargestSnoc(events, e, d);
    assert [e][..0] == [];
  }

  lemma KeepOneAbove(k: Kept, most: nat, h: Happening, d: Direction)
    requires NoneAbove(k, most, d)
    ensures NoneAbove(KeepOne(k, h), if h.Folded? && h.observed.saturated
                      then Max(most, Throughput(h.observed, d)) else most, d)
  {
    if h.Folded? {
      LargestSnoc(k.live, Sampled(h.at, h.observed), d);
    } else if h.CameBack? {
      if k.filed.Some? && h.readable {
        RestartShowsNothing(k.filed.value.events, Restarted(k.filed.value.at, h.at, h.origin, h.wallElapsed), d);
      } else {
        RestartShowsNothing(k.live, Restarted(h.at, h.at, h.origin, 0.0), d);
      }
    }
  }

  lemma {:induction false} KeptWasFolded(hs: seq<Happening>, d: Direction)
    ensures NoneAbove(Keep(hs), LargestFolded(hs, d), d)
  {
    if |hs| > 0 {
      KeptWasFolded(hs[..|hs| - 1], d);
      KeepOneAbove(Keep(hs[..|hs| - 1]), LargestFolded(hs[..|hs| - 1], d), hs[|hs| - 1], d);
    }
  }

  /** Over any run of folds, writes and restarts, with any clocks: confidence stays in [0, 1]
      and no estimate exceeds the largest saturated throughput ever seen. */
  lemma RememberedInRange(decay: Decay, w: World, hs: seq<Happening>, d: Direction)
    requires w.capacity == UNMEASURED
    ensures var now := Through(decay, Memory(w, None), hs).live;
            0.0 <= now.capacity.confidence <= 1.0 && Estimate(now.capacity, d) <= LargestFolded(hs, d)
  {
    BeliefIsWhatSurvived(decay, w, hs);
    BeliefInRange(decay, w, Keep(hs).live);
    KeptWasFolded(hs, d);
  }

  // ---- the curve and the bootstrap allowance, exactly -----------------------------------------------

  /** A saturated fold is among what survived. */
  ghost predicate SomeSaturated(k: Kept) {
    |SaturatedPart(k.live)| > 0
  }

  /** Belief never exceeds the half-life curve from the last saturated fold that survived,
      run over the time counted since. */
  lemma RememberedUnderCurve(decay: Decay, w: World, hs: seq<Happening>, at: real)
    requires w.capacity == UNMEASURED && SomeSaturated(Keep(hs))
    ensures var kept := Keep(hs).live;
            UnderTheCountedCurve(decay, Through(decay, Memory(w, None), hs).live, Taken(kept), Lost(kept),
                                 Peak(decay, w, kept), at)
  {
    BeliefIsWhatSurvived(decay, w, hs);
    BeliefUnderCurve(decay, w, Keep(hs).live, at);
  }

  /** It is that curve at the time counted plus the ages spent by idle folds that survived,
      and exceeds the curve over true time if and only if more was lost than spent. */
  lemma RememberedOverTrueCurveIff(decay: Decay, w: World, hs: seq<Happening>, at: real)
    requires w.capacity == UNMEASURED && InTime(w.at, hs) && LastHappened(w.at, hs) <= at
    requires SomeSaturated(Keep(hs)) && Fades(decay)
    ensures var kept := Keep(hs).live;
            OverTheTrueCurveIffLost(decay, Through(decay, Memory(w, None), hs).live, Taken(kept), Lost(kept),
                                    Spent(kept),
                                    Peak(decay, w, kept), at)
  {
    BeliefIsWhatSurvived(decay, w, hs);
    KeepIsInTime(w.at, hs);
    TrueCurveKeptIff(decay, w, Keep(hs).live, at);
  }

  /** The bootstrap allowance counts if and only if no saturated fold survived. */
  lemma BootstrapIff(decay: Decay, w: World, hs: seq<Happening>, minConfidence: real, now: real)
    requires w.capacity == UNMEASURED
    ensures GetsBootstrap(decay, minConfidence, Through(decay, Memory(w, None), hs).live.capacity, now)
       <==> minConfidence > 0.0 && !SomeSaturated(Keep(hs))
  {
    BeliefIsWhatSurvived(decay, w, hs);
    BootstrapUntilSaturated(decay, w, Keep(hs).live, minConfidence, now);
  }

  /** No later restart can lose a saturated fold that both the process and the file hold. */
  ghost predicate Secured(k: Kept) {
    SomeSaturated(k) && k.filed.Some? && |SaturatedPart(k.filed.value.events)| > 0
  }

  /** A write keeps the link in the file, and a restart can read it. */
  predicate KeepsTheEntry(h: Happening) {
    (h.Written? ==> h.worth) && (h.CameBack? ==> h.readable)
  }

  lemma SaturatedSnoc(events: seq<Event>, e: Event)
    ensures SaturatedPart(events + [e]) == if IsSaturated(e) then events + [e] else SaturatedPart(events)
  {
    assert (events + [e])[..|events|] == events;
  }

  lemma StaysSecured(k: Kept, h: Happening)
    requires Secured(k) && KeepsTheEntry(h)
    ensures Secured(KeepOne(k, h))
  {
    if h.Folded? {
      SaturatedSnoc(k.live, Sampled(h.at, h.observed));
    } else if h.CameBack? {
      SaturatedSnoc(k.filed.value.events, Restarted(k.filed.value.at, h.at, h.origin, h.wallElapsed));
    }
  }

  lemma KeepSnoc(hs: seq<Happening>, h: Happening)
    ensures Keep(hs + [h]) == KeepOne(Keep(hs), h)
  {
    assert (hs + [h])[..|hs|] == hs;
  }

  /** So once a saturated fold has been written, and for as long as the link stays worth
      writing and the file readable, the allowance never counts again. */
  lemma {:induction false} WrittenSaturationLasts(first: seq<Happening>, rest: seq<Happening>)
    requires Secured(Keep(first)) && forall i :: 0 <= i < |rest| ==> KeepsTheEntry(rest[i])
    ensures Secured(Keep(first + rest))
  {
    if |rest| == 0 {
      assert first + rest == first;
    } else {
      var before, h := rest[..|rest| - 1], rest[|rest| - 1];
      WrittenSaturationLasts(first, before);
      assert first + rest == (first + before) + [h];
      KeepSnoc(first + before, h);
      StaysSecured(Keep(first + before), h);
    }
  }

  // ---- inputs where something unwritten is missed --------------------------------------------------

  lemma ThroughSnoc(decay: Decay, m: Memory, hs: seq<Happening>, h: Happening)
    ensures Through(decay, m, hs + [h]) == After(decay, Through(decay, m, hs), h)
  {
    assert (hs + [h])[..|hs|] == hs;
  }

  /** Measured for the first time, restarted before anything was written: the allowance
      counts again. */
  lemma BootstrapComesBack(decay: Decay, origin: real, o: Observation, minConfidence: real)
    requires o.saturated && minConfidence > 0.0
    ensures var w, first := World(UNMEASURED, 0.0, 0.0), [Folded(10.0, o)];
            var all := first + [CameBack(20.0, origin, 0.0, true)];
            && InTime(0.0, all)
            && !GetsBootstrap(decay, minConfidence, Through(decay, Memory(w, None), first).live.capacity, 10.0)
            && GetsBootstrap(decay, minConfidence, Through(decay, Memory(w, None), all).live.capacity, 20.0 - origin)
  {
    var w, first := World(UNMEASURED, 0.0, 0.0), [Folded(10.0, o)];
    var none: seq<Happening> := [];
    assert none + [Folded(10.0, o)] == first && first[..0] == none;
    ThroughSnoc(decay, Memory(w, None), none, Folded(10.0, o));
    ThroughSnoc(decay, Memory(w, None), first, CameBack(20.0, origin, 0.0, true));
    assert (first + [CameBack(20.0, origin, 0.0, true)])[..1] == first;
  }

  /** An idle fold that was not written makes belief weaker only until the next restart. */
  lemma UnwrittenIdleFoldIsUndone(decay: Decay, m: Memory, at: real, origin: real, o: Observation)
    requires Fades(decay) && !o.saturated && m.file.None? && m.live.at < at
    requires m.live.capacity.confidence > 0.0 && m.live.capacity.measuredAt == Some(m.live.at - m.live.origin)
    ensures var written := After(decay, m, Written(m.live.at, true));
            var folded := After(decay, written, Folded(at, o));
            var back := After(decay, folded, CameBack(at, origin, at - m.live.at, true));
            DecayConfidence(decay, folded.live.capacity, at - folded.live.origin)
              < DecayConfidence(decay, back.live.capacity, at - back.live.origin)
  {
    var c, age := m.live.capacity.confidence, at - m.live.at;
    AgesAdd(decay, c, age, age);
    assert decay(c, age + age) < decay(c, age);
  }

  lemma Weakened(curve: real -> real, decay: Decay, confidence: real, age: real)
    requires Exponential(curve, decay) && confidence >= 0.0 && age >= 0.0
    ensures decay(confidence, age) == confidence * curve(age) >= 0.0
  {
  }

  /** What is left of a confidence of this age. */
  function Remaining(curve: real -> real, c: Capacity, now: real): real {
    if c.measuredAt.None? then 0.0 else c.confidence * curve(now - c.measuredAt.value)
  }

  lemma DecaysTo(curve: real -> real, decay: Decay, c: Capacity, now: real)
    requires Exponential(curve, decay) && c.confidence >= 0.0
    requires c.measuredAt.Some? ==> c.measuredAt.value <= now
    ensures DecayConfidence(decay, c, now) == Remaining(curve, c, now) >= 0.0
  {
    if c.measuredAt.Some? {
      Weakened(curve, decay, c.confidence, now - c.measuredAt.value);
    }
  }

  /** One fold as the running process sees it: confidence and date in, confidence and date out. */
  lemma FoldedConfidence(curve: real -> real, decay: Decay, m: Memory, at: real, o: Observation)
    requires Exponential(curve, decay) && m.live.origin == 0.0 && m.live.capacity.confidence >= 0.0
    requires m.live.capacity.measuredAt.Some? ==> m.live.capacity.measuredAt.value <= at
    ensures var c, c' := m.live.capacity, After(decay, m, Folded(at, o)).live.capacity;
            var left := Remaining(curve, c, at);
            && c'.confidence == (if !o.saturated then left else if left + 0.3 <= 1.0 then left + 0.3 else 1.0)
            && c'.measuredAt == if o.saturated then Some(at) else c.measuredAt
  {
    DecaysTo(curve, decay, m.live.capacity, at);
  }

  /** The running process at some moment: dated, trusted so much, and with this on file. */
  ghost predicate At(m: Memory, confidence: real, measured: real) {
    m.live.origin == 0.0 && m.live.capacity.confidence == confidence && m.live.capacity.measuredAt == Some(measured)
  }

  /** Trusted at 0.9 and written, then half a life of idle folds, then saturated once more:
      that fold leaves 0.4125, and a restart before it is written brings back 0.45. */
  lemma LostFoldIsExceeded(curve: real -> real, decay: Decay, m: Memory, origin: real, idle: Observation,
                           busy: Observation)
    requires Exponential(curve, decay) && curve(1800.0) == 0.5 && !idle.saturated && busy.saturated
    requires At(m, 0.9, 0.0)
    ensures var written := After(decay, m, Written(0.0, true));
            var aged := After(decay, After(decay, written, Folded(1800.0, idle)), Folded(1800.0, idle));
            var folded := After(decay, aged, Folded(1800.0, busy));
            var back := After(decay, folded, CameBack(1800.0, origin, 1800.0, true));
            && DecayConfidence(decay, folded.live.capacity, 1800.0 - folded.live.origin) == 0.4125
            && DecayConfidence(decay, back.live.capacity, 1800.0 - back.live.origin) == 0.45
  {
    var written := After(decay, m, Written(0.0, true));
    var once := After(decay, written, Folded(1800.0, idle));
    FoldedConfidence(curve, decay, written, 1800.0, idle);
    assert At(once, 0.45, 0.0);
    var aged := After(decay, once, Folded(1800.0, idle));
    FoldedConfidence(curve, decay, once, 1800.0, idle);
    assert At(aged, 0.225, 0.0);
    var folded := After(decay, aged, Folded(1800.0, busy));
    FoldedConfidence(curve, decay, aged, 1800.0, busy);
    assert At(folded, 0.4125, 1800.0);
    assert decay(0.4125, 0.0) == 0.4125;
    var back := After(decay, folded, CameBack(1800.0, origin, 1800.0, true));
    assert back.live.capacity.measuredAt == Some(0.0 - origin) && back.live.capacity.confidence == 0.9;
    assert decay(0.9, 1800.0) == 0.9 * curve(1800.0);
  }

  /** Three saturated folds at once bring a fresh link there. */
  lemma ThreeFoldsTrust(curve: real -> real, decay: Decay, o: Observation)
    requires Exponential(curve, decay) && o.saturated
    ensures var start := Memory(World(UNMEASURED, 0.0, 0.0), None);
            At(After(decay, After(decay, After(decay, start, Folded(0.0, o)), Folded(0.0, o)), Folded(0.0, o)), 0.9,
               0.0)
  {
    var start := Memory(World(UNMEASURED, 0.0, 0.0), None);
    var one := After(decay, start, Folded(0.0, o));
    FoldedConfidence(curve, decay, start, 0.0, o);
    assert At(one, 0.3, 0.0);
    var two := After(decay, one, Folded(0.0, o));
    FoldedConfidence(curve, decay, one, 0.0, o);
    assert At(two, 0.6, 0.0);
    FoldedConfidence(curve, decay, two, 0.0, o);
  }
}
