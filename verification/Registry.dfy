/** The registry of every connection ever seen, what its operations may change,
    and what of it survives a restart. */
module Registry {
  import opened Model
  import opened Belief

  type Book = map<Id, Atomic>

  /** Entries are filed under their own identity. */
  ghost predicate Keyed(b: Book) {
    forall id :: id in b ==> b[id].id == id
  }

  /** The listing holds each entry of the book once. */
  ghost predicate Lists(b: Book, listing: seq<Atomic>) {
    DistinctIds(listing) && forall a :: a in listing <==> a.id in b && b[a.id] == a
  }

  // ---- operations as functions ------------------------------------------------------

  /** Presence, address and labels come from the sweep; everything remembered stays. */
  function Merge(known: Atomic, sighted: Atomic): Atomic {
    known.(title := sighted.title,
           ifname := sighted.ifname,
           attributes := sighted.attributes,
           present := true,
           health := if known.present then known.health else sighted.health,
           everConnected := known.everConnected || sighted.everConnected)
  }

  function SeeOne(b: Book, sighted: Atomic): Book {
    if sighted.id in b then b[sighted.id := Merge(b[sighted.id], sighted)]
    else b[sighted.id := sighted.(present := true)]
  }

  function SeeAll(b: Book, seen: seq<Atomic>): Book {
    if seen == [] then b else SeeOne(SeeAll(b, seen[..|seen| - 1]), seen[|seen| - 1])
  }

  function SeenIds(seen: seq<Atomic>): set<Id> {
    set a | a in seen :: a.id
  }

  function Vanish(a: Atomic): Atomic {
    a.(present := false, health := Absent, ifname := None)
  }

  function MarkAbsent(b: Book, seen: set<Id>): Book {
    map id | id in b :: if b[id].present && id !in seen then Vanish(b[id]) else b[id]
  }

  function Spend(c: Cost, consumed: nat, liveness: nat): Cost {
    c.(consumedBytes := c.consumedBytes + consumed, livenessBytes := c.livenessBytes + liveness)
  }

  datatype Event =
    | Observed(seen: seq<Atomic>)
    | ModeSet(id: Id, mode: Mode)
    | Classified(id: Id, role: PortRole, mode: Mode)
    | CapacityUpdated(id: Id, capacity: Capacity)
    | HealthUpdated(id: Id, health: Health)
    | CostAdded(id: Id, consumed: nat, liveness: nat)

  function Update(b: Book, e: Event): Book {
    if e.Observed? then MarkAbsent(SeeAll(b, e.seen), SeenIds(e.seen))
    else if e.id !in b then b
    else
      var a := b[e.id];
      b[e.id := match e
                case ModeSet(_, mode) => a.(mode := mode)
                case Classified(_, role, mode) => a.(role := role, mode := mode)
                case CapacityUpdated(_, capacity) => a.(capacity := capacity)
                case HealthUpdated(_, health) => a.(health := health)
                case CostAdded(_, consumed, liveness) => a.(cost := Spend(a.cost, consumed, liveness))]
  }

  function Updates(b: Book, events: seq<Event>): Book {
    if events == [] then b else Update(Updates(b, events[..|events| - 1]), events[|events| - 1])
  }

  // ---- the object --------------------------------------------------------------------

  class Registry {
    var atomics: Book

    ghost predicate Valid()
      reads this
    {
      Keyed(atomics)
    }

    constructor ()
      ensures Valid() && atomics == map[]
    {
      atomics := map[];
    }

    /** Restore what a state file remembers, dated by this process's clocks. */
    constructor FromFile(file: StateFile, now: real, wall: real)
      ensures Valid() && atomics == Load(file, now, wall)
    {
      var elapsed := if file.persistedAtWall.Some? then NonNeg(wall - file.persistedAtWall.value) else 0.0;
      atomics := map[];
      new;
      var todo := file.entries.Keys;
      while todo != {}
        invariant todo <= file.entries.Keys
        invariant atomics == map id | id in file.entries.Keys - todo :: Revive(id, file.entries[id], elapsed, now)
        decreases todo
      {
        var id :| id in todo;
        atomics := atomics[id := Revive(id, file.entries[id], elapsed, now)];
        todo := todo - {id};
      }
    }

    method Observe(seen: seq<Atomic>)
      requires Valid()
      modifies this
      ensures Valid() && atomics == Update(old(atomics), Observed(seen))
    {
      var seenIds := MergeSweep(seen);
      MarkAbsentees(seenIds);
    }

    method MergeSweep(seen: seq<Atomic>) returns (seenIds: set<Id>)
      requires Valid()
      modifies this
      ensures Valid() && atomics == SeeAll(old(atomics), seen)
      ensures seenIds == SeenIds(seen)
    {
      seenIds := {};
      for i := 0 to |seen|
        invariant Valid() && atomics == SeeAll(old(atomics), seen[..i])
        invariant seenIds == SeenIds(seen[..i])
      {
        var sighted := seen[i];
        seenIds := seenIds + {sighted.id};
        assert seen[..i + 1][..i] == seen[..i];
        SeenIdsSnoc(seen[..i + 1], i);
        if sighted.id !in atomics {
          atomics := atomics[sighted.id := sighted.(present := true)];
        } else {
          atomics := atomics[sighted.id := Merge(atomics[sighted.id], sighted)];
        }
      }
      assert seen[..|seen|] == seen;
    }

    method MarkAbsentees(seenIds: set<Id>)
      requires Valid()
      modifies this
      ensures Valid() && atomics == MarkAbsent(old(atomics), seenIds)
    {
      var b := atomics;
      var todo := b.Keys;
      while todo != {}
        invariant todo <= b.Keys == atomics.Keys
        invariant forall id :: id in b ==>
          atomics[id] == if id !in todo && b[id].present && id !in seenIds then Vanish(b[id]) else b[id]
        decreases todo
      {
        var id :| id in todo;
        var atomic := atomics[id];
        if atomic.present && atomic.id !in seenIds {
          atomics := atomics[atomic.id := Vanish(atomic)];
        }
        todo := todo - {id};
      }
      assert atomics == MarkAbsent(b, seenIds);
    }

    /** Every connection, present or not, in some order. */
    method All() returns (listing: seq<Atomic>)
      requires Valid()
      ensures Lists(atomics, listing)
    {
      listing := [];
      var todo := atomics.Keys;
      while todo != {}
        invariant todo <= atomics.Keys
        invariant Lists(map id | id in atomics.Keys - todo :: atomics[id], listing)
        decreases todo
      {
        var id :| id in todo;
        todo := todo - {id};
        listing := listing + [atomics[id]];
      }
      assert atomics == map id | id in atomics.Keys - todo :: atomics[id];
    }

    method SetMode(id: Id, mode: Mode) returns (updated: Option<Atomic>)
      requires Valid()
      modifies this
      ensures Valid() && atomics == Update(old(atomics), ModeSet(id, mode))
      ensures updated == if id in old(atomics) then Some(atomics[id]) else None
    {
      if id !in atomics {
        return None;
      }
      atomics := atomics[id := atomics[id].(mode := mode)];
      updated := Some(atomics[id]);
    }

    /** Role and mode change together, so no reader sees one without the other. */
    method SetRoleAndMode(id: Id, role: PortRole, mode: Mode) returns (updated: Option<Atomic>)
      requires Valid()
      modifies this
      ensures Valid() && atomics == Update(old(atomics), Classified(id, role, mode))
      ensures updated == if id in old(atomics) then Some(atomics[id]) else None
    {
      if id !in atomics {
        return None;
      }
      atomics := atomics[id := atomics[id].(role := role, mode := mode)];
      updated := Some(atomics[id]);
    }

    method UpdateCapacity(id: Id, capacity: Capacity)
      requires Valid()
      modifies this
      ensures Valid() && atomics == Update(old(atomics), CapacityUpdated(id, capacity))
    {
      if id in atomics {
        atomics := atomics[id := atomics[id].(capacity := capacity)];
      }
    }

    method UpdateHealth(id: Id, health: Health)
      requires Valid()
      modifies this
      ensures Valid() && atomics == Update(old(atomics), HealthUpdated(id, health))
    {
      if id !in atomics || atomics[id].health == health {
        assert id in atomics ==> atomics == atomics[id := atomics[id].(health := health)];
        return;
      }
      atomics := atomics[id := atomics[id].(health := health)];
    }

    method AddCost(id: Id, consumed: nat, liveness: nat)
      requires Valid()
      modifies this
      ensures Valid() && atomics == Update(old(atomics), CostAdded(id, consumed, liveness))
    {
      if id !in atomics {
        return;
      }
      atomics := atomics[id := atomics[id].(cost := Spend(atomics[id].cost, consumed, liveness))];
    }

    method Persist(now: real, wall: real) returns (file: StateFile)
      requires Valid()
      ensures file == Save(atomics, now, wall)
    {
      file :=
         StateFile(Some(wall), map id | id in atomics && WorthPersisting(atomics[id]) :: SaveOne(atomics[id], now));
    }
  }

  lemma {:induction false} UpdatesAppend(b: Book, first: seq<Event>, second: seq<Event>)
    ensures Updates(b, first + second) == Updates(Updates(b, first), second)
  {
    if second == [] {
      assert first + second == first;
    } else {
      assert (first + second)[..|first + second| - 1] == first + second[..|second| - 1];
      UpdatesAppend(b, first, second[..|second| - 1]);
    }
  }

  // ---- what a run of operations may change ----------------------------------------------

  /** The part of an entry discovery must never reset. */
  datatype Remembered = Remembered(kind: Kind, mode: Mode, role: PortRole, capacity: Capacity, cost: Cost)

  function Memory(a: Atomic): Remembered {
    Remembered(a.kind, a.mode, a.role, a.capacity, a.cost)
  }

  /** What one event does to what is remembered of `id`: only events that name it on purpose count. */
  ghost function RecallOne(r: Remembered, id: Id, e: Event): Remembered {
    match e
    case Observed(_) => r
    case HealthUpdated(_, _) => r
    case ModeSet(i, mode) => if i == id then r.(mode := mode) else r
    case Classified(i, role, mode) => if i == id then r.(role := role, mode := mode) else r
    case CapacityUpdated(i, capacity) => if i == id then r.(capacity := capacity) else r
    case CostAdded(i, consumed, liveness) => if i == id then r.(cost := Spend(r.cost, consumed, liveness)) else r
  }

  ghost function Recall(r: Remembered, id: Id, events: seq<Event>): Remembered {
    if events == [] then r else RecallOne(Recall(r, id, events[..|events| - 1]), id, events[|events| - 1])
  }

  lemma {:induction false} SeeAllKeepsMemory(b: Book, seen: seq<Atomic>)
    requires Keyed(b)
    ensures Keyed(SeeAll(b, seen))
    ensures SeeAll(b, seen).Keys == b.Keys + SeenIds(seen)
    ensures forall id :: id in b ==> Memory(SeeAll(b, seen)[id]) == Memory(b[id])
    ensures forall id :: id in b && b[id].everConnected ==> SeeAll(b, seen)[id].everConnected
    ensures forall id :: id in SeenIds(seen) ==> SeeAll(b, seen)[id].present
  {
    if seen == [] {
      assert SeenIds(seen) == {};
    } else {
      var n := |seen| - 1;
      SeeAllKeepsMemory(b, seen[..n]);
      SeenIdsSnoc(seen, n);
      SeeOneKeepsMemory(SeeAll(b, seen[..n]), seen[n]);
    }
  }

  lemma SeenIdsSnoc(seen: seq<Atomic>, n: nat)
    requires n == |seen| - 1
    ensures SeenIds(seen) == SeenIds(seen[..n]) + {seen[n].id}
  {
    assert seen == seen[..n] + [seen[n]];
  }

  lemma SeeOneKeepsMemory(b: Book, sighted: Atomic)
    requires Keyed(b)
    ensures Keyed(SeeOne(b, sighted)) && SeeOne(b, sighted).Keys == b.Keys + {sighted.id}
    ensures SeeOne(b, sighted)[sighted.id].present
    ensures forall id :: id in b ==> Memory(SeeOne(b, sighted)[id]) == Memory(b[id])
    ensures forall id :: id in b && b[id].everConnected ==> SeeOne(b, sighted)[id].everConnected
    ensures forall id :: id in b && b[id].present ==> SeeOne(b, sighted)[id].present
  {
  }

  /** A sweep leaves present exactly the connections it saw. */
  lemma PresentIffSeen(b: Book, seen: seq<Atomic>)
    requires Keyed(b)
    ensures forall id :: id in Update(b, Observed(seen)) ==>
            (Update(b, Observed(seen))[id].present <==> id in SeenIds(seen))
  {
    SeeAllKeepsMemory(b, seen);
  }

  /** The first and the last time a sweep sights a connection. */
  ghost predicate Sightings(seen: seq<Atomic>, id: Id, first: nat, last: nat) {
    && first <= last < |seen| && seen[first].id == id && seen[last].id == id
    && forall i :: 0 <= i < |seen| && seen[i].id == id ==> first <= i <= last
  }

  /** What a sweep brings in for a connection it sights: its address and labels as sighted last;
      its health as it was, or for one that was away as sighted first; whether it has ever
      connected, from memory or from any sighting. A new one is otherwise as sighted first. */
  ghost predicate BroughtIn(b: Book, seen: seq<Atomic>, first: nat, last: nat, a: Atomic)
    requires first <= last < |seen|
  {
    var id := seen[first].id;
    var origin := if id in b then b[id] else seen[first];
    && a.id == id && a.present
    && a.ifname == seen[last].ifname && a.title == seen[last].title && a.attributes == seen[last].attributes
    && a.health == (if id in b && b[id].present then b[id].health else seen[first].health)
    && (a.everConnected <==>
          (id in b && b[id].everConnected) || exists i :: 0 <= i < |seen| && seen[i].id == id && seen[i].everConnected)
    && a.kind == origin.kind && a.mode == origin.mode && a.role == origin.role
    && a.capacity == origin.capacity && a.cost == origin.cost && a.rttMs == origin.rttMs
  }

  lemma {:induction false} SightingsBringIn(b: Book, seen: seq<Atomic>, first: nat, last: nat)
    requires Keyed(b) && last < |seen| && Sightings(seen, seen[last].id, first, last)
    ensures seen[last].id in SeeAll(b, seen) && BroughtIn(b, seen, first, last, SeeAll(b, seen)[seen[last].id])
  {
    var n := |seen| - 1;
    if last < n {
      SightingsBringIn(b, seen[..n], first, last);
      StaysBroughtIn(b, seen, first, last, SeeAll(b, seen[..n])[seen[last].id]);
    } else if first == last {
      NotSighted(b, seen[..n], seen[last].id);
    } else {
      var l := LastBefore(seen[..n], seen[last].id, first);
      SightingsBringIn(b, seen[..n], first, l);
      BroughtInAgain(b, seen, first, l, SeeAll(b, seen[..n])[seen[last].id]);
    }
  }

  lemma StaysBroughtIn(b: Book, seen: seq<Atomic>, first: nat, last: nat, a: Atomic)
    requires first <= last < |seen| - 1 && BroughtIn(b, seen[..|seen| - 1], first, last, a)
    requires seen[|seen| - 1].id != seen[first].id
    ensures BroughtIn(b, seen, first, last, a)
  {
    assert forall i :: 0 <= i < |seen| - 1 ==> seen[..|seen| - 1][i] == seen[i];
  }

  lemma BroughtInAgain(b: Book, seen: seq<Atomic>, first: nat, last: nat, a: Atomic)
    requires first <= last < |seen| - 1 && BroughtIn(b, seen[..|seen| - 1], first, last, a)
    requires seen[|seen| - 1].id == seen[first].id
    ensures BroughtIn(b, seen, first, |seen| - 1, Merge(a, seen[|seen| - 1]))
  {
    assert forall i :: 0 <= i < |seen| - 1 ==> seen[..|seen| - 1][i] == seen[i];
  }

  lemma {:induction false} NotSighted(b: Book, seen: seq<Atomic>, id: Id)
    requires forall i :: 0 <= i < |seen| ==> seen[i].id != id
    ensures id in SeeAll(b, seen) <==> id in b
    ensures id in b ==> SeeAll(b, seen)[id] == b[id]
  {
    if |seen| > 0 {
      NotSighted(b, seen[..|seen| - 1], id);
    }
  }

  lemma {:induction false} LastBefore(seen: seq<Atomic>, id: Id, first: nat) returns (last: nat)
    requires first < |seen| && seen[first].id == id && forall i :: 0 <= i < |seen| && seen[i].id == id ==> first <= i
    ensures Sightings(seen, id, first, last)
  {
    last := |seen| - 1;
    if seen[last].id != id {
      last := LastBefore(seen[..last], id, first);
    }
  }

  /** One sweep, connection by connection: what it sights is brought in, and what it does not is
      left alone but for one that was there, which loses its address and its health. */
  lemma SweepIsSeen(b: Book, seen: seq<Atomic>, id: Id)
    requires Keyed(b)
    ensures var after := Update(b, Observed(seen));
            && (forall first, last :: Sightings(seen, id, first, last) ==>
                  id in after && BroughtIn(b, seen, first, last, after[id]))
            && ((forall i :: 0 <= i < |seen| ==> seen[i].id != id) ==>
                  && (id in after <==> id in b)
                  && (id in b && !b[id].present ==> after[id] == b[id])
                  && (id in b && b[id].present ==>
                        after[id] == b[id].(present := false, health := Absent, ifname := None)))
  {
    forall first: nat, last: nat | Sightings(seen, id, first, last)
      ensures id in Update(b, Observed(seen)) && BroughtIn(b, seen, first, last, Update(b, Observed(seen))[id])
    {
      SightingsBringIn(b, seen, first, last);
      assert seen[last] in seen;
    }
    if forall i :: 0 <= i < |seen| ==> seen[i].id != id {
      NotSighted(b, seen, id);
    }
  }

  lemma UpdateKeepsMemory(b: Book, e: Event, id: Id)
    requires Keyed(b) && id in b
    ensures Keyed(Update(b, e)) && b.Keys <= Update(b, e).Keys
    ensures Memory(Update(b, e)[id]) == RecallOne(Memory(b[id]), id, e)
    ensures b[id].everConnected ==> Update(b, e)[id].everConnected
  {
    if e.Observed? {
      SeeAllKeepsMemory(b, e.seen);
    }
  }

  /** Any other operation changes what it names, of the connection it names if that is known,
      and nothing else of any connection. */
  lemma UpdateChangesOnly(b: Book, e: Event, id: Id)
    requires !e.Observed? && id in b
    ensures var before, after := b[id], Update(b, e);
            && after.Keys == b.Keys
            && (e.id != id ==> after[id] == before)
            && (e.id == id ==>
                  && after[id].(mode := before.mode, role := before.role, capacity := before.capacity,
                                health := before.health, cost := before.cost) == before
                  && after[id].mode == (if e.ModeSet? || e.Classified? then e.mode else before.mode)
                  && after[id].role == (if e.Classified? then e.role else before.role)
                  && after[id].capacity == (if e.CapacityUpdated? then e.capacity else before.capacity)
                  && after[id].health == (if e.HealthUpdated? then e.health else before.health)
                  && Charged(before.cost, after[id].cost, if e.CostAdded? then e.consumed else 0,
                             if e.CostAdded? then e.liveness else 0))
  {
  }

  /** Two byte counters grew by this much each, and nothing else changed. */
  ghost predicate Charged(before: Cost, after: Cost, consumed: nat, liveness: nat) {
    && after.consumedBytes == before.consumedBytes + consumed
    && after.livenessBytes == before.livenessBytes + liveness
    && after.metered == before.metered && after.activations == before.activations
    && after.activeSeconds == before.activeSeconds
  }

  /** Over any run of operations, mode, role, capacity and cost of a known connection
      are what was last chosen, measured and spent for it: no sweep, unplugging or
      replugging resets them, costs are exactly the sum of what was added, and
      nothing is ever forgotten. */
  lemma {:induction false} RunKeepsMemory(b: Book, events: seq<Event>, id: Id)
    requires Keyed(b) && id in b
    ensures Keyed(Updates(b, events)) && id in Updates(b, events)
    ensures Memory(Updates(b, events)[id]) == Recall(Memory(b[id]), id, events)
    ensures b[id].everConnected ==> Updates(b, events)[id].everConnected
  {
    if events != [] {
      var before, e := events[..|events| - 1], events[|events| - 1];
      RunKeepsMemory(b, before, id);
      UpdateKeepsMemory(Updates(b, before), e, id);
    }
  }

  /** Liveness bytes added to `id` over a run. */
  ghost function LivenessAdded(id: Id, events: seq<Event>): nat {
    if events == [] then 0
    else
      var e := events[|events| - 1];
      LivenessAdded(id, events[..|events| - 1]) + (if e.CostAdded? && e.id == id then e.liveness else 0)
  }

  lemma {:induction false} LivenessIsTheSum(b: Book, events: seq<Event>, id: Id)
    requires Keyed(b) && id in b
    ensures id in Updates(b, events)
    ensures Updates(b, events)[id].cost.livenessBytes == b[id].cost.livenessBytes + LivenessAdded(id, events)
  {
    RunKeepsMemory(b, events, id);
    RecallsTheSum(Memory(b[id]), id, events);
  }

  lemma {:induction false} RecallsTheSum(r: Remembered, id: Id, events: seq<Event>)
    ensures Recall(r, id, events).cost.livenessBytes == r.cost.livenessBytes + LivenessAdded(id, events)
  {
    if events != [] {
      RecallsTheSum(r, id, events[..|events| - 1]);
    }
  }

  // ---- persistence -----------------------------------------------------------------------

  datatype SavedAtomic = SavedAtomic(
    kind: Kind, title: string, mode: Mode, role: PortRole, everConnected: bool,
    capacity: SavedCapacity, cost: Cost, attributes: map<string, string>)

  /** The anchor is missing from files older than the field. */
  datatype StateFile = StateFile(persistedAtWall: Option<real>, entries: map<Id, SavedAtomic>)

  predicate WorthPersisting(a: Atomic) {
    !a.mode.Unused? || a.everConnected
  }

  function SaveOne(a: Atomic, now: real): SavedAtomic {
    SavedAtomic(a.kind, a.title, a.mode, a.role, a.everConnected, SaveCapacity(a.capacity, now), a.cost, a.attributes)
  }

  function Save(b: Book, now: real, wall: real): StateFile {
    StateFile(Some(wall), map id | id in b && WorthPersisting(b[id]) :: SaveOne(b[id], now))
  }

  function Revive(id: Id, s: SavedAtomic, elapsed: real, now: real): Atomic {
    Atomic(id, s.kind, s.title, s.mode, Absent, s.role, Reconstruct(s.capacity, elapsed, now), None, s.cost,
           None, false, s.everConnected, s.attributes)
  }

  function Elapsed(file: StateFile, wall: real): real {
    if file.persistedAtWall.Some? then NonNeg(wall - file.persistedAtWall.value) else 0.0
  }

  function Load(file: StateFile, now: real, wall: real): Book {
    map id | id in file.entries :: Revive(id, file.entries[id], Elapsed(file, wall), now)
  }

  /** How long ago something dated `at` was; nothing for a date ahead. */
  ghost predicate AgeIs(at: real, now: real, age: real) {
    if at <= now then age == now - at else age == 0.0
  }

  /** What a file says of a connection: what is remembered of it, and how old its estimate was. */
  ghost predicate SavedAs(a: Atomic, now: real, s: SavedAtomic) {
    && s.kind == a.kind && s.title == a.title && s.mode == a.mode && s.role == a.role
    && s.everConnected == a.everConnected && s.cost == a.cost && s.attributes == a.attributes
    && s.capacity.downBps == a.capacity.downBps && s.capacity.upBps == a.capacity.upBps
    && s.capacity.confidence == a.capacity.confidence
    && (s.capacity.measuredAge == None <==> a.capacity.measuredAt == None)
    && (a.capacity.measuredAt != None ==> AgeIs(a.capacity.measuredAt.value, now, s.capacity.measuredAge.value))
  }

  /** Exactly the connections somebody chose or joined are saved, with the wall time of saving. */
  lemma FileSays(b: Book, now: real, wall: real)
    ensures var file := Save(b, now, wall);
            && file.persistedAtWall == Some(wall)
            && (forall id :: id in file.entries <==> id in b && (b[id].mode != Unused || b[id].everConnected))
            && (forall id :: id in file.entries ==> SavedAs(b[id], now, file.entries[id]))
  {
  }

  /** What a connection is after loading: absent, as the file has it, and its estimate older by
      the wall time since; by nothing for a file that does not say when it was written, or if
      the wall clock has gone back. */
  ghost predicate LoadedAs(file: StateFile, id: Id, now: real, wall: real, a: Atomic)
    requires id in file.entries
  {
    var s := file.entries[id];
    && a.id == id && !a.present && a.health == Absent && a.ifname == None && a.rttMs == None
    && a.kind == s.kind && a.title == s.title && a.mode == s.mode && a.role == s.role
    && a.everConnected == s.everConnected && a.cost == s.cost && a.attributes == s.attributes
    && a.capacity.downBps == s.capacity.downBps && a.capacity.upBps == s.capacity.upBps
    && a.capacity.confidence == s.capacity.confidence
    && (a.capacity.measuredAt == None <==> s.capacity.measuredAge == None)
    && (s.capacity.measuredAge != None ==>
          now - a.capacity.measuredAt.value - s.capacity.measuredAge.value ==
          if file.persistedAtWall == None || wall < file.persistedAtWall.value then 0.0
          else wall - file.persistedAtWall.value)
  }

  lemma LoadSays(file: StateFile, now: real, wall: real)
    ensures Load(file, now, wall).Keys == file.entries.Keys
    ensures forall id :: id in file.entries ==> LoadedAs(file, id, now, wall, Load(file, now, wall)[id])
  {
  }

  /** A reboot forgets exactly the connections nobody chose or joined, and keeps
      every choice, cost and estimate of the others. */
  lemma RebootKeepsWhatMatters(b: Book, stop: real, wallStop: real, start: real, wallStart: real)
    requires Keyed(b)
    ensures var b' := Load(Save(b, stop, wallStop), start, wallStart);
            && Keyed(b')
            && b'.Keys == (set id | id in b && (b[id].mode != Unused || b[id].everConnected))
            && (forall id :: id in b' ==>
                  && Memory(b'[id]).(capacity := b[id].capacity) == Memory(b[id])
                  && b'[id].capacity.(measuredAt := b[id].capacity.measuredAt) == b[id].capacity
                  && b'[id].everConnected == b[id].everConnected
                  && b'[id].title == b[id].title && b'[id].attributes == b[id].attributes
                  && !b'[id].present && b'[id].ifname.None?
                  && b'[id].health == Absent && b'[id].rttMs == None)
            && Save(b', start, wallStart).entries.Keys == b'.Keys
  {
    var b' := Load(Save(b, stop, wallStop), start, wallStart);
    forall id | id in b' ensures b'[id].capacity.(measuredAt := b[id].capacity.measuredAt) == b[id].capacity {
      assert b'[id].capacity
         == Reconstruct(SaveCapacity(b[id].capacity, stop), Elapsed(Save(b, stop, wallStop), wallStart), start);
    }
  }

  /** Trust in an estimate after a reboot is what it would have been without one, at
      every later time; if the wall clock went backwards it is still never more than
      it was when the file was written. */
  lemma RebootIsTransparent(decay: Decay, b: Book, id: Id, stop: real, wallStop: real, start: real, wallStart: real,
                            later: real)
    requires Keyed(b) && id in b && WorthPersisting(b[id]) && later >= 0.0
    requires b[id].capacity.confidence >= 0.0
    requires b[id].capacity.measuredAt.Some? ==> b[id].capacity.measuredAt.value <= stop
    ensures var b' := Load(Save(b, stop, wallStop), start, wallStart);
            && id in b'
            && DecayConfidence(decay, b'[id].capacity, start + later) <= DecayConfidence(decay, b[id].capacity, stop)
            && (wallStop <= wallStart ==>
                  DecayConfidence(decay, b'[id].capacity, start + later)
                    == DecayConfidence(decay, b[id].capacity, stop + (wallStart - wallStop) + later))
  {
    var elapsed := NonNeg(wallStart - wallStop);
    RestartKeepsAge(decay, b[id].capacity, stop, elapsed, start, later);
    RestartNeverRefreshes(decay, b[id].capacity, stop, elapsed, start, later);
  }

  /** Saving, loading and saving again at one instant writes the same file. */
  lemma SaveLoadSave(b: Book, stop: real, wall: real, start: real)
    requires Keyed(b)
    ensures Save(Load(Save(b, stop, wall), start, wall), start, wall) == Save(b, stop, wall)
  {
    var file := Save(b, stop, wall);
    var again := Save(Load(file, start, wall), start, wall);
    forall id | id in file.entries ensures id in again.entries && again.entries[id] == file.entries[id] {
      var age := file.entries[id].capacity.measuredAge;
      assert age.Some? ==> NonNeg(start - (start - (age.value + 0.0))) == age.value;
    }
    assert again.entries.Keys == file.entries.Keys;
  }
}
