/** Finding out what a wired port is for: one background pipeline per plug-in, which
    may end in serving DHCP on the port only after asking and listening first. */
module LanOut {
  import opened Model

  datatype Outcome = Outcome(id: Id, role: PortRole, mode: Mode, reason: string)

  // ---- the pipeline ---------------------------------------------------------------------

  /** What a hardware call comes back with; it may also raise. */
  datatype Answer = Yes | No | Raises

  /** How the hardware would answer one pipeline. `heard` is Yes also when it cannot tell. */
  datatype Segment = Segment(lease: Answer, heard: Answer, served: Answer)

  datatype Call =
    | AttemptLease(ifname: string, answer: Answer)
    | Listen(ifname: string, answer: Answer)
    | StartServer(ifname: string, thirdOctet: nat, answer: Answer)

  const SUBNET_OFFSET := 50
  const SUBNET_SPAN := 150

  /** The same third octet for the same port, always clear of the access point's own. */
  function SubnetThirdOctet(digest: nat, base: nat): (r: nat)
    ensures r <= 255
    ensures base < 254 ==> r > base + 1
    ensures base + SUBNET_OFFSET + SUBNET_SPAN <= 256 ==> base + SUBNET_OFFSET <= r < base + SUBNET_OFFSET + SUBNET_SPAN
  {
    Min(255, base + SUBNET_OFFSET + digest % SUBNET_SPAN)
  }

  /** Where nothing is clipped, two ports share a subnet exactly if their digests agree modulo 150. */
  lemma SubnetsDiffer(a: nat, b: nat, base: nat)
    requires base <= 56
    ensures SubnetThirdOctet(a, base) == SubnetThirdOctet(b, base) <==> a % 150 == b % 150
  {
  }

  /** The calls a pipeline makes, and its result unless one of them raised. */
  datatype Pipeline = Pipeline(calls: seq<Call>, result: Option<Outcome>)

  function RunPipeline(a: Atomic, octet: nat, w: Segment): Pipeline {
    if !a.Addressed() then Pipeline([], Some(Outcome(a.id, Wan, Unused, "no_ifname_at_pipeline_start")))
    else
      var asked := [AttemptLease(a.ifname.value, w.lease)];
      match w.lease
      case Raises => Pipeline(asked, None)
      case Yes => Pipeline(asked, Some(Outcome(a.id, Wan, Normal, "dhcp_client_lease_obtained")))
      case No =>
        var listened := asked + [Listen(a.ifname.value, w.heard)];
        match w.heard
        case Raises => Pipeline(listened, None)
        case Yes => Pipeline(listened, Some(Outcome(a.id, Wan, Unused, "foreign_dhcp_server_heard_or_undetermined")))
        case No =>
          var started := listened + [StartServer(a.ifname.value, octet, w.served)];
          match w.served
          case Raises => Pipeline(started, None)
          case Yes => Pipeline(started, Some(Outcome(a.id, PortRole.LanOut, Unused, "became_dhcp_server")))
          case No => Pipeline(started, Some(Outcome(a.id, Wan, Unused, "dhcp_server_start_failed")))
  }

  /** A pipeline that raised leaves the port inert. */
  function Verdict(a: Atomic, octet: nat, w: Segment): (v: Outcome)
    ensures v.id == a.id
  {
    var r := RunPipeline(a, octet, w).result;
    if r.Some? then r.value else Outcome(a.id, Wan, Unused, "classification_pipeline_error")
  }

  /** A server is started only after, in the same pipeline and on the same interface, a
      lease was refused and nothing was heard; and at most once, last. */
  lemma ServerOnlyAfterSilence(a: Atomic, octet: nat, w: Segment, k: nat)
    requires k < |RunPipeline(a, octet, w).calls| && RunPipeline(a, octet, w).calls[k].StartServer?
    ensures var calls := RunPipeline(a, octet, w).calls;
            && k == 2 && |calls| == 3
            && calls[0] == AttemptLease(calls[k].ifname, No) && calls[1] == Listen(calls[k].ifname, No)
            && a.ifname == Some(calls[k].ifname)
  {
  }

  /** The port is called LAN-out exactly when a server is known to be running on it,
      and is then kept out of service as an uplink; only a lease makes it one. */
  lemma VerdictMatchesCalls(a: Atomic, octet: nat, w: Segment)
    ensures var calls, v := RunPipeline(a, octet, w).calls, Verdict(a, octet, w);
            && v.id == a.id
            && (v.role.LanOut? <==> exists k :: 0 <= k < |calls| && calls[k].StartServer? && calls[k].answer.Yes?)
            && (v.mode.Normal? <==> exists k :: 0 <= k < |calls| && calls[k].AttemptLease? && calls[k].answer.Yes?)
            && (v.role.LanOut? ==> v.mode.Unused?)
            && !v.mode.Backup?
  {
    var calls := RunPipeline(a, octet, w).calls;
    if |calls| == 3 {
      assert calls[2].StartServer? && calls[2].answer == w.served;
    }
    if |calls| > 0 {
      assert calls[0].AttemptLease? && calls[0].answer == w.lease;
    }
  }

  /** Every pipeline in full: what it calls, each on the port's own interface, and what it says.
      It asks for a lease, listens only once that is refused, and starts a server only once
      nothing is heard; it gives up at whatever raises. */
  lemma PipelineIs(a: Atomic, octet: nat, w: Segment)
    requires a.ifname != None && a.ifname != Some("")
    ensures var dev, refused := a.ifname.value, w.lease == No;
            var silent := refused && w.heard == No;
            && RunPipeline(a, octet, w).calls == [AttemptLease(dev, w.lease)]
                 + (if refused then [Listen(dev, w.heard)] else [])
                 + (if silent then [StartServer(dev, octet, w.served)] else [])
            && Verdict(a, octet, w) ==
               if w.lease == Yes then Outcome(a.id, Wan, Normal, "dhcp_client_lease_obtained")
               else if refused && w.heard == Yes
               then Outcome(a.id, Wan, Unused, "foreign_dhcp_server_heard_or_undetermined")
               else if silent && w.served == Yes then Outcome(a.id, PortRole.LanOut, Unused, "became_dhcp_server")
               else if silent && w.served == No then Outcome(a.id, Wan, Unused, "dhcp_server_start_failed")
               else Outcome(a.id, Wan, Unused, "classification_pipeline_error")
  {
  }

  /** A port without an interface is left alone. */
  lemma NoInterfaceNoCalls(a: Atomic, octet: nat, w: Segment)
    requires a.ifname == None || a.ifname == Some("")
    ensures RunPipeline(a, octet, w).calls == []
    ensures Verdict(a, octet, w) == Outcome(a.id, Wan, Unused, "no_ifname_at_pipeline_start")
  {
  }

  // ---- the classifier ---------------------------------------------------------------------

  predicate Candidate(a: Atomic) {
    a.present && a.role.Wan? && (a.kind.UsbEthernet? || a.kind.Ethernet?) && a.health.Good? && a.Addressed()
  }

  /** A port worth asking: a cable with carrier, present, addressed and not serving a LAN. */
  ghost predicate Classifiable(a: Atomic) {
    && a.present && a.role == Wan && a.health == Good && (a.kind == UsbEthernet || a.kind == Ethernet)
    && a.ifname != None && a.ifname != Some("")
  }

  lemma CandidateIff(a: Atomic)
    ensures Candidate(a) <==> Classifiable(a)
  {
  }

  /** Pipelines in flight in the order they started, the ports already decided, the
      presence each port was last seen with, and all starts and outcomes so far. */
  datatype State = State(
    inFlight: seq<Atomic>,
    decided: set<Id>,
    wasPresent: map<Id, bool>,
    started: seq<Id>,
    outcomes: seq<Outcome>)

  const IDLE := State([], {}, map[], [], [])

  /** One call of the classifier: the ports it is shown, and the pipelines that turn out
      to have finished, each with the segment it met. */
  datatype Turn = Turn(atomics: seq<Atomic>, finished: map<Id, Segment>)

  predicate Flying(jobs: seq<Atomic>, id: Id) {
    exists i :: 0 <= i < |jobs| && jobs[i].id == id
  }

  function WasPresent(s: State, id: Id): bool {
    id in s.wasPresent && s.wasPresent[id]
  }

  /** Note the port's presence; a plug-in forgets any earlier verdict. */
  function Noticed(s: State, a: Atomic): State {
    s.(wasPresent := s.wasPresent[a.id := a.present],
       decided := if !WasPresent(s, a.id) && a.present then s.decided - {a.id} else s.decided)
  }

  function See(s: State, a: Atomic): State {
    var n := Noticed(s, a);
    if Candidate(a) && a.id !in n.decided && !Flying(n.inFlight, a.id)
    then n.(inFlight := n.inFlight + [a], started := n.started + [a.id])
    else n
  }

  function SeeAll(s: State, atomics: seq<Atomic>): State {
    if atomics == [] then s else See(SeeAll(s, atomics[..|atomics| - 1]), atomics[|atomics| - 1])
  }

  /** Take the finished pipelines among the jobs, in order. */
  function Harvest(s: State, octets: Id -> nat, jobs: seq<Atomic>, finished: map<Id, Segment>): State {
    if jobs == [] then s.(inFlight := [])
    else
      var before, a := Harvest(s, octets, jobs[..|jobs| - 1], finished), jobs[|jobs| - 1];
      if a.id !in finished then before.(inFlight := before.inFlight + [a])
      else before.(decided := before.decided + {a.id},
                   outcomes := before.outcomes + [Verdict(a, octets(a.id), finished[a.id])])
  }

  function Consider(s: State, octets: Id -> nat, turn: Turn): State {
    var seen := SeeAll(s, turn.atomics);
    Harvest(seen, octets, seen.inFlight, turn.finished)
  }

  function Run(s: State, octets: Id -> nat, turns: seq<Turn>): State {
    if turns == [] then s else Consider(Run(s, octets, turns[..|turns| - 1]), octets, turns[|turns| - 1])
  }

  class LanOutClassifier {
    const octets: Id -> nat
    var inFlight: seq<Atomic>
    var decided: set<Id>
    var wasPresent: map<Id, bool>
    ghost var started: seq<Id>
    ghost var outcomes: seq<Outcome>

    ghost function Value(): State
      reads this
    {
      State(inFlight, decided, wasPresent, started, outcomes)
    }

    constructor (octets: Id -> nat)
      ensures Value() == IDLE && this.octets == octets
    {
      this.octets := octets;
      inFlight, decided, wasPresent, started, outcomes := [], {}, map[], [], [];
    }

    method SubmitNew(atomics: seq<Atomic>)
      modifies this
      ensures Value() == SeeAll(old(Value()), atomics)
    {
      for i := 0 to |atomics|
        invariant Value() == SeeAll(old(Value()), atomics[..i])
      {
        assert atomics[..i + 1][..i] == atomics[..i];
        var a := atomics[i];
        var was := a.id in wasPresent && wasPresent[a.id];
        wasPresent := wasPresent[a.id := a.present];
        if !was && a.present {
          decided := decided - {a.id};
        }
        if !Candidate(a) {
          continue;
        }
        if a.id in decided || exists k :: 0 <= k < |inFlight| && inFlight[k].id == a.id {
          continue;
        }
        inFlight := inFlight + [a];
        started := started + [a.id];
      }
      assert atomics[..|atomics|] == atomics;
    }

    method HarvestDone(finished: map<Id, Segment>) returns (r: seq<Outcome>)
      modifies this
      ensures Value() == Harvest(old(Value()), octets, old(inFlight), finished)
      ensures outcomes == old(outcomes) + r
    {
      var jobs := inFlight;
      ghost var s := Value();
      r := [];
      inFlight := [];
      for i := 0 to |jobs|
        invariant Value() == Harvest(s, octets, jobs[..i], finished)
        invariant outcomes == s.outcomes + r
      {
        HarvestSnoc(s, octets, jobs, i, finished);
        var a := jobs[i];
        if a.id !in finished {
          inFlight := inFlight + [a];
          continue;
        }
        decided := decided + {a.id};
        var v := Verdict(a, octets(a.id), finished[a.id]);
        r := r + [v];
        outcomes := outcomes + [v];
      }
      assert jobs[..|jobs|] == jobs;
    }

    method ConsiderAll(turn: Turn) returns (r: seq<Outcome>)
      modifies this
      ensures Value() == Consider(old(Value()), octets, turn)
      ensures outcomes == old(outcomes) + r
    {
      SubmitNew(turn.atomics);
      ghost var seen := Value();
      SeeAllKeepsOutcomes(old(Value()), turn.atomics);
      r := HarvestDone(turn.finished);
    }
  }

  lemma HarvestSnoc(s: State, octets: Id -> nat, jobs: seq<Atomic>, i: nat, finished: map<Id, Segment>)
    requires i < |jobs|
    ensures var before, a := Harvest(s, octets, jobs[..i], finished), jobs[i];
            Harvest(s, octets, jobs[..i + 1], finished)
              == if a.id !in finished then before.(inFlight := before.inFlight + [a])
                 else before.(decided := before.decided + {a.id},
                              outcomes := before.outcomes + [Verdict(a, octets(a.id), finished[a.id])])
  {
    assert jobs[..i + 1][..i] == jobs[..i];
  }

  lemma {:induction false} SeeAllKeepsOutcomes(s: State, atomics: seq<Atomic>)
    ensures SeeAll(s, atomics).outcomes == s.outcomes
  {
    if atomics != [] {
      SeeAllKeepsOutcomes(s, atomics[..|atomics| - 1]);
    }
  }

  // ---- accounting per port --------------------------------------------------------------------

  function Starts(started: seq<Id>, id: Id): nat {
    if started == [] then 0 else Starts(started[..|started| - 1], id) + (if started[|started| - 1] == id then 1 else 0)
  }

  function Ends(outcomes: seq<Outcome>, id: Id): nat {
    if outcomes == [] then 0
    else Ends(outcomes[..|outcomes| - 1], id) + (if outcomes[|outcomes| - 1].id == id then 1 else 0)
  }

  function Flights(jobs: seq<Atomic>, id: Id): nat {
    if jobs == [] then 0 else Flights(jobs[..|jobs| - 1], id) + (if jobs[|jobs| - 1].id == id then 1 else 0)
  }

  lemma {:induction false} FlyingIsFlights(jobs: seq<Atomic>, id: Id)
    ensures Flying(jobs, id) <==> Flights(jobs, id) > 0
  {
    if jobs != [] {
      var before, last := jobs[..|jobs| - 1], jobs[|jobs| - 1];
      FlyingIsFlights(before, id);
      assert jobs[|jobs| - 1].id == last.id;
      if Flying(before, id) {
        var i :| 0 <= i < |before| && before[i].id == id;
        assert jobs[i].id == id;
      }
      if Flying(jobs, id) && last.id != id {
        var i :| 0 <= i < |jobs| && jobs[i].id == id;
        assert before[i].id == id;
      }
    }
  }

  /** What the classifier has been shown of one port, turn after turn. */
  function Shown(turns: seq<Turn>): seq<Atomic> {
    if turns == [] then [] else Shown(turns[..|turns| - 1]) + turns[|turns| - 1].atomics
  }

  /** The presence of a port as last shown. */
  function Plugged(was: bool, shown: seq<Atomic>, id: Id): bool {
    if shown == [] then was
    else if shown[|shown| - 1].id == id then shown[|shown| - 1].present
    else Plugged(was, shown[..|shown| - 1], id)
  }

  /** How often the port was shown present right after being absent or unknown. */
  function PlugIns(was: bool, shown: seq<Atomic>, id: Id): nat {
    if shown == [] then 0
    else
      var before, a := shown[..|shown| - 1], shown[|shown| - 1];
      PlugIns(was, before, id) + (if a.id == id && a.present && !Plugged(was, before, id) then 1 else 0)
  }

  /** A plugged port that is neither decided nor in flight has a pipeline still to come. */
  function Owed(s: State, id: Id): nat {
    if WasPresent(s, id) && id !in s.decided && Flights(s.inFlight, id) == 0 then 1 else 0
  }

  /** From s to s': presence follows what was shown, starts are paid for by plug-ins,
      every start is in flight or has ended, and there is never a second flight. */
  ghost predicate Accounted(s: State, s': State, shown: seq<Atomic>, id: Id) {
    && WasPresent(s', id) == Plugged(WasPresent(s, id), shown, id)
    && Starts(s'.started, id) + Owed(s', id) <= Starts(s.started, id) + Owed(s, id)
       + PlugIns(WasPresent(s, id), shown, id)
    && Starts(s'.started, id) + Ends(s.outcomes, id) + Flights(s.inFlight, id)
    == Starts(s.started, id) + Ends(s'.outcomes, id) + Flights(s'.inFlight, id)
    && (Flights(s.inFlight, id) <= 1 ==> Flights(s'.inFlight, id) <= 1)
  }

  /** Noticing a port starts nothing and owes at most what a plug-in brings. */
  lemma NoticedAccounts(s: State, a: Atomic, id: Id)
    ensures Accounted(s, Noticed(s, a), [a], id)
  {
    assert [a][..0] == [];
  }

  lemma StartsSnoc(started: seq<Id>, a: Id, id: Id)
    ensures Starts(started + [a], id) == Starts(started, id) + (if a == id then 1 else 0)
  {
    assert (started + [a])[..|started|] == started;
  }

  lemma NothingShown(was: bool, shown: seq<Atomic>, id: Id)
    requires |shown| == 0
    ensures Plugged(was, shown, id) == was && PlugIns(was, shown, id) == 0
  {
  }

  function Started(n: State, a: Atomic): State {
    n.(inFlight := n.inFlight + [a], started := n.started + [a.id])
  }

  /** Starting a pipeline settles what was owed. */
  lemma StartSettles(n: State, a: Atomic, id: Id)
    requires WasPresent(n, a.id) && a.id !in n.decided && Flights(n.inFlight, a.id) == 0
    ensures var one := if a.id == id then 1 else 0;
            && Starts(Started(n, a).started, id) == Starts(n.started, id) + one
            && Flights(Started(n, a).inFlight, id) == Flights(n.inFlight, id) + one
            && Owed(Started(n, a), id) + one == Owed(n, id)
  {
    FlightsSnoc(n.inFlight, a, id);
    StartsSnoc(n.started, a.id, id);
  }

  lemma StartedAccounts(n: State, a: Atomic, id: Id, shown: seq<Atomic>)
    requires WasPresent(n, a.id) && a.id !in n.decided && !Flying(n.inFlight, a.id) && |shown| == 0
    ensures Accounted(n, Started(n, a), shown, id)
  {
    FlyingIsFlights(n.inFlight, a.id);
    StartSettles(n, a, id);
    NothingShown(WasPresent(n, id), shown, id);
  }

  lemma SeeAccounts(s: State, a: Atomic, id: Id)
    ensures Accounted(s, See(s, a), [a], id)
  {
    var n := Noticed(s, a);
    NoticedAccounts(s, a, id);
    if Candidate(a) && a.id !in n.decided && !Flying(n.inFlight, a.id) {
      var nothing: seq<Atomic> := [];
      StartedAccounts(n, a, id, nothing);
      AccountsCompose(s, n, See(s, a), [a], nothing, id);
      assert [a] + nothing == [a];
    }
  }

  lemma {:induction false} PlugInsAppend(was: bool, first: seq<Atomic>, rest: seq<Atomic>, id: Id)
    ensures Plugged(was, first + rest, id) == Plugged(Plugged(was, first, id), rest, id)
    ensures PlugIns(was, first + rest, id) == PlugIns(was, first, id) + PlugIns(Plugged(was, first, id), rest, id)
  {
    if rest == [] {
      assert first + rest == first;
    } else {
      PlugInsAppend(was, first, rest[..|rest| - 1], id);
      assert (first + rest)[..|first + rest| - 1] == first + rest[..|rest| - 1];
    }
  }

  lemma AccountsCompose(s: State, s': State, s'': State, first: seq<Atomic>, rest: seq<Atomic>, id: Id)
    requires Accounted(s, s', first, id) && Accounted(s', s'', rest, id)
    ensures Accounted(s, s'', first + rest, id)
  {
    PlugInsAppend(WasPresent(s, id), first, rest, id);
  }

  lemma {:induction false} SeeAllAccounts(s: State, atomics: seq<Atomic>, id: Id)
    ensures Accounted(s, SeeAll(s, atomics), atomics, id)
  {
    if atomics != [] {
      var before, a := atomics[..|atomics| - 1], atomics[|atomics| - 1];
      SeeAllAccounts(s, before, id);
      SeeAccounts(SeeAll(s, before), a, id);
      AccountsCompose(s, SeeAll(s, before), SeeAll(s, atomics), before, [a], id);
      assert before + [a] == atomics;
    }
  }

  /** Of the given jobs, those of the port that have finished, and only those, have ended
      and decided it; the others are in flight. */
  ghost predicate Balanced(s: State, h: State, jobs: seq<Atomic>, finished: map<Id, Segment>, id: Id) {
    && h.started == s.started && h.wasPresent == s.wasPresent
    && Ends(h.outcomes, id) + Flights(h.inFlight, id) == Ends(s.outcomes, id) + Flights(jobs, id)
    && (id in h.decided <==> id in s.decided || Flights(jobs, id) > Flights(h.inFlight, id))
    && (Flights(h.inFlight, id) == if id in finished then 0 else Flights(jobs, id))
  }

  /** What harvesting the given jobs does to one port's books. */
  lemma {:induction false} HarvestBooks(s: State, octets: Id -> nat, jobs: seq<Atomic>, finished: map<Id, Segment>,
                                        id: Id)
    ensures Balanced(s, Harvest(s, octets, jobs, finished), jobs, finished, id)
  {
    if jobs != [] {
      var before, a := jobs[..|jobs| - 1], jobs[|jobs| - 1];
      HarvestBooks(s, octets, before, finished, id);
      var b := Harvest(s, octets, before, finished);
      FlightsSnoc(b.inFlight, a, id);
      if a.id in finished {
        EndsSnoc(b.outcomes, Verdict(a, octets(a.id), finished[a.id]), id);
      }
    }
  }

  lemma FlightsSnoc(jobs: seq<Atomic>, a: Atomic, id: Id)
    ensures Flights(jobs + [a], id) == Flights(jobs, id) + (if a.id == id then 1 else 0)
  {
    assert (jobs + [a])[..|jobs|] == jobs;
  }

  lemma EndsSnoc(outcomes: seq<Outcome>, o: Outcome, id: Id)
    ensures Ends(outcomes + [o], id) == Ends(outcomes, id) + (if o.id == id then 1 else 0)
  {
    assert (outcomes + [o])[..|outcomes|] == outcomes;
  }

  lemma ConsiderAccounts(s: State, octets: Id -> nat, turn: Turn, id: Id)
    ensures Accounted(s, Consider(s, octets, turn), turn.atomics, id)
  {
    var seen := SeeAll(s, turn.atomics);
    SeeAllAccounts(s, turn.atomics, id);
    HarvestBooks(seen, octets, seen.inFlight, turn.finished, id);
  }

  /** Over any turns and any order of completion, from any state: pipelines started never
      exceed plug-ins seen, and each is in flight or has given exactly one outcome. */
  lemma {:induction false} RunIsAccounted(s: State, octets: Id -> nat, turns: seq<Turn>, id: Id)
    ensures Accounted(s, Run(s, octets, turns), Shown(turns), id)
  {
    if turns != [] {
      var before, t := turns[..|turns| - 1], turns[|turns| - 1];
      RunIsAccounted(s, octets, before, id);
      ConsiderAccounts(Run(s, octets, before), octets, t, id);
      AccountsCompose(s, Run(s, octets, before), Run(s, octets, turns), Shown(before), t.atomics, id);
    }
  }

  /** The same from the start of the process. */
  lemma OnePipelinePerPlugIn(octets: Id -> nat, turns: seq<Turn>, id: Id)
    ensures var s := Run(IDLE, octets, turns);
            && Flights(s.inFlight, id) <= 1
            && Starts(s.started, id) <= PlugIns(false, Shown(turns), id)
            && Starts(s.started, id) == Ends(s.outcomes, id) + Flights(s.inFlight, id)
  {
    RunIsAccounted(IDLE, octets, turns, id);
  }

  /** Plug-ins shown while an earlier pipeline of the same port was still in flight. */
  function Missed(s: State, atomics: seq<Atomic>, id: Id): nat {
    if atomics == [] then 0
    else
      var before, a := atomics[..|atomics| - 1], atomics[|atomics| - 1];
      var b := SeeAll(s, before);
      Missed(s, before, id)
         + (if a.id == id && a.present && !WasPresent(b, id) && Flights(b.inFlight, id) > 0 then 1 else 0)
  }

  function MissedInRun(s: State, octets: Id -> nat, turns: seq<Turn>, id: Id): nat {
    if turns == [] then 0
    else
      var before, t := turns[..|turns| - 1], turns[|turns| - 1];
      MissedInRun(s, octets, before, id) + Missed(Run(s, octets, before), t.atomics, id)
  }

  /** The port can be classified whenever it is there. */
  ghost predicate Eligible(shown: seq<Atomic>, id: Id) {
    forall i :: 0 <= i < |shown| && shown[i].id == id && shown[i].present ==> Classifiable(shown[i])
  }

  lemma SeeIsExact(s: State, a: Atomic, id: Id)
    requires Owed(s, id) == 0 && (a.id == id && a.present ==> Classifiable(a))
    ensures var s' := See(s, a);
            var pluggedIn := a.id == id && a.present && !WasPresent(s, id);
            && Owed(s', id) == 0
            && Starts(s'.started, id)
               == Starts(s.started, id) + (if pluggedIn && Flights(s.inFlight, id) == 0 then 1 else 0)
  {
    FlyingIsFlights(s.inFlight, a.id);
    FlightsSnoc(s.inFlight, a, id);
    assert (s.started + [a.id])[..|s.started|] == s.started;
  }

  lemma {:induction false} SeeAllIsExact(s: State, atomics: seq<Atomic>, id: Id)
    requires Owed(s, id) == 0 && Eligible(atomics, id)
    ensures var s' := SeeAll(s, atomics);
            && Owed(s', id) == 0
            && Starts(s'.started, id) + Missed(s, atomics, id)
               == Starts(s.started, id) + PlugIns(WasPresent(s, id), atomics, id)
  {
    if atomics != [] {
      var before, a := atomics[..|atomics| - 1], atomics[|atomics| - 1];
      SeeAllIsExact(s, before, id);
      SeeAllAccounts(s, before, id);
      SeeIsExact(SeeAll(s, before), a, id);
    }
  }

  lemma ConsiderIsExact(s: State, octets: Id -> nat, turn: Turn, id: Id)
    requires Owed(s, id) == 0 && Eligible(turn.atomics, id)
    ensures var s' := Consider(s, octets, turn);
            && Owed(s', id) == 0
            && Starts(s'.started, id) + Missed(s, turn.atomics, id)
               == Starts(s.started, id) + PlugIns(WasPresent(s, id), turn.atomics, id)
  {
    var seen := SeeAll(s, turn.atomics);
    SeeAllIsExact(s, turn.atomics, id);
    HarvestBooks(seen, octets, seen.inFlight, turn.finished, id);
  }

  /** For a port that can be classified whenever it is there, pipelines started are
      exactly the plug-ins, less those that fell into an earlier pipeline's flight. */
  lemma {:induction false} EveryPlugInIsClassified(octets: Id -> nat, turns: seq<Turn>, id: Id)
    requires Eligible(Shown(turns), id)
    ensures var s := Run(IDLE, octets, turns);
            && Owed(s, id) == 0
            && Starts(s.started, id) + MissedInRun(IDLE, octets, turns, id) == PlugIns(false, Shown(turns), id)
  {
    if turns != [] {
      var before, t := turns[..|turns| - 1], turns[|turns| - 1];
      EligibleParts(Shown(before), t.atomics, id);
      EveryPlugInIsClassified(octets, before, id);
      RunIsAccounted(IDLE, octets, before, id);
      ConsiderIsExact(Run(IDLE, octets, before), octets, t, id);
      PlugInsAppend(false, Shown(before), t.atomics, id);
    }
  }

  lemma EligibleParts(first: seq<Atomic>, rest: seq<Atomic>, id: Id)
    requires Eligible(first + rest, id)
    ensures Eligible(first, id) && Eligible(rest, id)
  {
    var all := first + rest;
    forall i | 0 <= i < |first| && first[i].id == id && first[i].present ensures Classifiable(first[i]) {
      assert all[i] == first[i];
    }
    forall i | 0 <= i < |rest| && rest[i].id == id && rest[i].present ensures Classifiable(rest[i]) {
      assert all[|first| + i] == rest[i];
    }
  }

  /** A pipeline seen to be finished is harvested in that very turn, once. */
  lemma FinishedIsHarvested(s: State, octets: Id -> nat, turn: Turn, id: Id)
    requires id in turn.finished && Flights(SeeAll(s, turn.atomics).inFlight, id) == 1
    ensures var s' := Consider(s, octets, turn);
            Ends(s'.outcomes, id) == Ends(s.outcomes, id) + 1 && Flights(s'.inFlight, id) == 0 && id in s'.decided
  {
    var seen := SeeAll(s, turn.atomics);
    SeeAllKeepsOutcomes(s, turn.atomics);
    HarvestBooks(seen, octets, seen.inFlight, turn.finished, id);
  }

  /** What is harvested is the verdict of that very pipeline: on its port, with its own subnet
      and what it met. */
  lemma {:induction false} HarvestSays(s: State, octets: Id -> nat, jobs: seq<Atomic>, finished: map<Id, Segment>,
                                       i: nat)
    requires i < |jobs| && jobs[i].id in finished
    ensures Verdict(jobs[i], octets(jobs[i].id), finished[jobs[i].id]) in Harvest(s, octets, jobs, finished).outcomes
  {
    if i < |jobs| - 1 {
      HarvestSays(s, octets, jobs[..|jobs| - 1], finished, i);
    }
  }

  /** Every pipeline of every run is of a port worth asking when it started. */
  lemma {:induction false} JobsAreClassifiable(octets: Id -> nat, turns: seq<Turn>)
    ensures forall a :: a in Run(IDLE, octets, turns).inFlight ==> Classifiable(a)
  {
    if |turns| > 0 {
      var s, t := Run(IDLE, octets, turns[..|turns| - 1]), turns[|turns| - 1];
      JobsAreClassifiable(octets, turns[..|turns| - 1]);
      SeenAreClassifiable(s, t.atomics);
      HarvestKeepsJobs(SeeAll(s, t.atomics), octets, SeeAll(s, t.atomics).inFlight, t.finished);
    }
  }

  lemma {:induction false} SeenAreClassifiable(s: State, atomics: seq<Atomic>)
    requires forall a :: a in s.inFlight ==> Classifiable(a)
    ensures forall a :: a in SeeAll(s, atomics).inFlight ==> Classifiable(a)
  {
    if |atomics| > 0 {
      SeenAreClassifiable(s, atomics[..|atomics| - 1]);
      CandidateIff(atomics[|atomics| - 1]);
    }
  }

  lemma {:induction false} HarvestKeepsJobs(s: State, octets: Id -> nat, jobs: seq<Atomic>, finished: map<Id, Segment>)
    ensures forall a :: a in Harvest(s, octets, jobs, finished).inFlight ==> a in jobs
  {
    if |jobs| > 0 {
      HarvestKeepsJobs(s, octets, jobs[..|jobs| - 1], finished);
    }
  }

  /** Every outcome of every run is some pipeline's verdict on the port it names, so none
      calls a port LAN-out and leaves it in service. */
  lemma {:induction false} OutcomesAreVerdicts(octets: Id -> nat, turns: seq<Turn>)
    ensures AllVerdicts(Run(IDLE, octets, turns).outcomes)
  {
    if turns != [] {
      OutcomesAreVerdicts(octets, turns[..|turns| - 1]);
      var s, t := Run(IDLE, octets, turns[..|turns| - 1]), turns[|turns| - 1];
      SeeAllKeepsOutcomes(s, t.atomics);
      HarvestGivesVerdicts(SeeAll(s, t.atomics), octets, SeeAll(s, t.atomics).inFlight, t.finished);
    }
  }

  ghost predicate AllVerdicts(outcomes: seq<Outcome>) {
    forall i :: 0 <= i < |outcomes| ==> IsVerdict(outcomes[i])
  }

  ghost predicate IsVerdict(o: Outcome) {
    && (o.role.LanOut? ==> o.mode.Unused?)
    && exists a: Atomic, octet: nat, w: Segment :: a.id == o.id && o == Verdict(a, octet, w)
  }

  lemma {:induction false} HarvestGivesVerdicts(s: State, octets: Id -> nat, jobs: seq<Atomic>,
                                                finished: map<Id, Segment>)
    requires AllVerdicts(s.outcomes)
    ensures AllVerdicts(Harvest(s, octets, jobs, finished).outcomes)
  {
    if jobs != [] {
      HarvestGivesVerdicts(s, octets, jobs[..|jobs| - 1], finished);
      var a := jobs[|jobs| - 1];
      if a.id in finished {
        VerdictMatchesCalls(a, octets(a.id), finished[a.id]);
        assert IsVerdict(Verdict(a, octets(a.id), finished[a.id]));
      }
    }
  }

  /** A replug during a flight earns no pipeline of its own: whatever verdict the flight
      brings decides the port, and it stays decided until it is next plugged in. */
  lemma ReplugInFlightIsNotRerun(s: State, octets: Id -> nat, turn: Turn, later: seq<Turn>, id: Id)
    requires Flights(s.inFlight, id) == 1 && id in turn.finished && Flights(SeeAll(s, turn.atomics).inFlight, id) == 1
    requires PlugIns(WasPresent(Consider(s, octets, turn), id), Shown(later), id) == 0
    ensures Starts(Run(Consider(s, octets, turn), octets, later).started, id) == Starts(s.started, id)
  {
    var s' := Consider(s, octets, turn);
    FinishedIsHarvested(s, octets, turn, id);
    ConsiderAccounts(s, octets, turn, id);
    RunIsAccounted(s', octets, later, id);
    StartsGrow(s', octets, later, id);
  }

  lemma {:induction false} StartsGrow(s: State, octets: Id -> nat, turns: seq<Turn>, id: Id)
    ensures Starts(Run(s, octets, turns).started, id) >= Starts(s.started, id)
  {
    if turns != [] {
      StartsGrow(s, octets, turns[..|turns| - 1], id);
      var b, t := Run(s, octets, turns[..|turns| - 1]), turns[|turns| - 1];
      SeeAllStarts(b, t.atomics, id);
      var seen := SeeAll(b, t.atomics);
      HarvestBooks(seen, octets, seen.inFlight, t.finished, id);
    }
  }

  lemma {:induction false} SeeAllStarts(s: State, atomics: seq<Atomic>, id: Id)
    ensures Starts(SeeAll(s, atomics).started, id) >= Starts(s.started, id)
  {
    if atomics != [] {
      SeeAllStarts(s, atomics[..|atomics| - 1], id);
      var b, a := SeeAll(s, atomics[..|atomics| - 1]), atomics[|atomics| - 1];
      assert (b.started + [a.id])[..|b.started|] == b.started;
    }
  }
}
