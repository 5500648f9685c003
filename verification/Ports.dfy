/** The port classifier and the registry together: what verdicts do to a port's role and
    mode over any run of sweeps, user choices and pipelines. */
module Ports {
  import opened Model
  import opened LanOut
  import Registry
  import Control = Daemon

  datatype Joint = Joint(book: Registry.Book, classifier: State)

  /** One round of the medium loop: mode choices since the last one, the sweep, the listing
      the classifier is shown, and the pipelines that turn out to have finished. */
  datatype Round = Round(choices: seq<Registry.Event>, sweep: seq<Atomic>, listing: seq<Atomic>,
                         finished: map<Id, Segment>)

  function Swept(b: Registry.Book, r: Round): Registry.Book {
    Registry.Update(Registry.Updates(b, r.choices), Registry.Observed(r.sweep))
  }

  function AsUpdates(outcomes: seq<Outcome>): (events: seq<Registry.Event>)
    ensures |events| == |outcomes|
  {
    Control.Verdicts(seq(|outcomes|, i requires 0 <= i < |outcomes| =>
                                       (outcomes[i].id, outcomes[i].role, outcomes[i].mode)))
  }

  function TurnOf(r: Round): Turn {
    Turn(r.listing, r.finished)
  }

  function NewOutcomes(s: State, octets: Id -> nat, r: Round): seq<Outcome> {
    var after := Consider(s, octets, TurnOf(r)).outcomes;
    if |s.outcomes| <= |after| then after[|s.outcomes|..] else []
  }

  function Step(j: Joint, octets: Id -> nat, r: Round): Joint {
    Joint(Registry.Updates(Swept(j.book, r), AsUpdates(NewOutcomes(j.classifier, octets, r))),
          Consider(j.classifier, octets, TurnOf(r)))
  }

  function Rounds(j: Joint, octets: Id -> nat, rounds: seq<Round>): Joint {
    if rounds == [] then j else Step(Rounds(j, octets, rounds[..|rounds| - 1]), octets, rounds[|rounds| - 1])
  }

  /** Choices are of modes, and the classifier is shown the registry as the sweep left it. */
  ghost predicate Fits(j: Joint, r: Round) {
    && (forall i :: 0 <= i < |r.choices| ==> r.choices[i].ModeSet?)
    && Registry.Lists(Swept(j.book, r), r.listing)
  }

  ghost predicate Genuine(j: Joint, octets: Id -> nat, rounds: seq<Round>) {
    rounds == [] ||
    (var before := rounds[..|rounds| - 1];
     Genuine(j, octets, before) && Fits(Rounds(j, octets, before), rounds[|rounds| - 1]))
  }

  // ---- one round ---------------------------------------------------------------------------

  lemma {:induction false} HarvestExtends(s: State, octets: Id -> nat, jobs: seq<Atomic>, finished: map<Id, Segment>)
    ensures s.outcomes <= Harvest(s, octets, jobs, finished).outcomes
  {
    if |jobs| > 0 {
      HarvestExtends(s, octets, jobs[..|jobs| - 1], finished);
    }
  }

  lemma OutcomesExtend(s: State, octets: Id -> nat, r: Round)
    ensures Consider(s, octets, TurnOf(r)).outcomes == s.outcomes + NewOutcomes(s, octets, r)
  {
    var seen := SeeAll(s, r.listing);
    SeeAllKeepsOutcomes(s, r.listing);
    HarvestExtends(seen, octets, seen.inFlight, r.finished);
  }

  lemma {:induction false} EndsAppend(a: seq<Outcome>, b: seq<Outcome>, id: Id)
    ensures Ends(a + b, id) == Ends(a, id) + Ends(b, id)
  {
    if |b| == 0 {
      assert a + b == a;
    } else {
      EndsAppend(a, b[..|b| - 1], id);
      assert a + b == (a + b[..|b| - 1]) + [b[|b| - 1]];
      EndsSnoc(a + b[..|b| - 1], b[|b| - 1], id);
    }
  }

  /** Role and mode as remembered. */
  datatype Standing = Standing(role: PortRole, mode: Mode)

  function StandingOf(b: Registry.Book, id: Id): Option<Standing> {
    if id in b then Some(Standing(b[id].role, b[id].mode)) else None
  }

  /** The last verdict on a port among some outcomes. */
  function LastVerdict(outcomes: seq<Outcome>, id: Id): Option<Standing> {
    if outcomes == [] then None
    else
      var o := outcomes[|outcomes| - 1];
      if o.id == id then Some(Standing(o.role, o.mode)) else LastVerdict(outcomes[..|outcomes| - 1], id)
  }

  lemma {:induction false} VerdictIffEnds(outcomes: seq<Outcome>, id: Id)
    ensures LastVerdict(outcomes, id).Some? <==> Ends(outcomes, id) > 0
  {
    if |outcomes| > 0 {
      VerdictIffEnds(outcomes[..|outcomes| - 1], id);
    }
  }

  lemma {:induction false} LastVerdictAppend(a: seq<Outcome>, b: seq<Outcome>, id: Id)
    ensures LastVerdict(a + b, id) == if LastVerdict(b, id).Some? then LastVerdict(b, id) else LastVerdict(a, id)
  {
    if |b| == 0 {
      assert a + b == a;
    } else {
      LastVerdictAppend(a, b[..|b| - 1], id);
      assert (a + b)[..|a + b| - 1] == a + b[..|b| - 1];
    }
  }

  /** Applying outcomes leaves a port with the last verdict on it, whatever it had before. */
  lemma {:induction false} VerdictsOverride(b: Registry.Book, outcomes: seq<Outcome>, id: Id)
    requires Registry.Keyed(b) && id in b
    ensures var after := Registry.Updates(b, AsUpdates(outcomes));
            && Registry.Keyed(after) && id in after
            && StandingOf(after, id)
               == if LastVerdict(outcomes, id).Some? then LastVerdict(outcomes, id) else StandingOf(b, id)
  {
    if |outcomes| > 0 {
      var before := outcomes[..|outcomes| - 1];
      VerdictsOverride(b, before, id);
      assert AsUpdates(outcomes)[..|outcomes| - 1] == AsUpdates(before);
      Registry.UpdateKeepsMemory(Registry.Updates(b, AsUpdates(before)), AsUpdates(outcomes)[|outcomes| - 1], id);
    } else {
      assert AsUpdates(outcomes) == [];
    }
  }

  /** What choices and the sweep do to role and mode: choices of this port's mode only. */
  lemma {:induction false} ChoicesOnly(b: Registry.Book, choices: seq<Registry.Event>, id: Id)
    requires Registry.Keyed(b) && id in b && forall i :: 0 <= i < |choices| ==> choices[i].ModeSet?
    ensures var after := Registry.Updates(b, choices);
            && Registry.Keyed(after) && id in after && after[id].role == b[id].role
            && ((forall i :: 0 <= i < |choices| ==> choices[i].id != id) ==> after[id].mode == b[id].mode)
  {
    if |choices| > 0 {
      ChoicesOnly(b, choices[..|choices| - 1], id);
      Registry.UpdateKeepsMemory(Registry.Updates(b, choices[..|choices| - 1]), choices[|choices| - 1], id);
    }
  }

  lemma SweptKeeps(b: Registry.Book, r: Round, id: Id)
    requires Registry.Keyed(b) && id in b && forall i :: 0 <= i < |r.choices| ==> r.choices[i].ModeSet?
    ensures var after := Swept(b, r);
            && Registry.Keyed(after) && id in after && after[id].role == b[id].role
            && ((forall i :: 0 <= i < |r.choices| ==> r.choices[i].id != id) ==> after[id].mode == b[id].mode)
  {
    ChoicesOnly(b, r.choices, id);
    Registry.UpdateKeepsMemory(Registry.Updates(b, r.choices), Registry.Observed(r.sweep), id);
  }

  // ---- verdicts against the user's choice -----------------------------------------------------

  ghost predicate LeavesAlone(r: Round, id: Id) {
    forall k :: 0 <= k < |r.choices| && r.choices[k].ModeSet? ==> r.choices[k].id != id
  }

  /** The user chose nothing for this port in these rounds. */
  ghost predicate Unchosen(rounds: seq<Round>, id: Id) {
    forall i :: 0 <= i < |rounds| ==> LeavesAlone(rounds[i], id)
  }

  /** Role and mode of a port after a run: as before it if no pipeline of the port ended in it,
      and otherwise what the last one's verdict said. */
  ghost predicate FollowsVerdicts(j: Joint, j': Joint, id: Id) {
    && Registry.Keyed(j'.book) && id in j'.book && |j.classifier.outcomes| <= |j'.classifier.outcomes|
    && j.classifier.outcomes <= j'.classifier.outcomes
    && var ended := j'.classifier.outcomes[|j.classifier.outcomes|..];
    && StandingOf(j'.book, id)
       == if LastVerdict(ended, id).Some? then LastVerdict(ended, id) else StandingOf(j.book, id)
  }

  lemma StepFollows(j: Joint, octets: Id -> nat, r: Round, id: Id)
    requires Registry.Keyed(j.book) && id in j.book && Fits(j, r)
    requires LeavesAlone(r, id)
    ensures FollowsVerdicts(j, Step(j, octets, r), id)
  {
    SweptKeeps(j.book, r, id);
    OutcomesExtend(j.classifier, octets, r);
    VerdictsOverride(Swept(j.book, r), NewOutcomes(j.classifier, octets, r), id);
    var all := j.classifier.outcomes + NewOutcomes(j.classifier, octets, r);
    assert all[|j.classifier.outcomes|..] == NewOutcomes(j.classifier, octets, r);
  }

  lemma FollowsCompose(j: Joint, j': Joint, j'': Joint, id: Id)
    requires FollowsVerdicts(j, j', id) && FollowsVerdicts(j', j'', id)
    ensures FollowsVerdicts(j, j'', id)
  {
    var first := j'.classifier.outcomes[|j.classifier.outcomes|..];
    var second := j''.classifier.outcomes[|j'.classifier.outcomes|..];
    assert j''.classifier.outcomes[|j.classifier.outcomes|..] == first + second;
    LastVerdictAppend(first, second, id);
  }

  lemma {:induction false} RunFollows(j: Joint, octets: Id -> nat, rounds: seq<Round>, id: Id)
    requires Registry.Keyed(j.book) && id in j.book && Genuine(j, octets, rounds) && Unchosen(rounds, id)
    ensures FollowsVerdicts(j, Rounds(j, octets, rounds), id)
  {
    if |rounds| == 0 {
      assert j.classifier.outcomes[|j.classifier.outcomes|..] == [];
    } else {
      var before := rounds[..|rounds| - 1];
      RunFollows(j, octets, before, id);
      StepFollows(Rounds(j, octets, before), octets, rounds[|rounds| - 1], id);
      FollowsCompose(j, Rounds(j, octets, before), Rounds(j, octets, rounds), id);
    }
  }

  ghost predicate AllFromPipelines(outcomes: seq<Outcome>) {
    forall i :: 0 <= i < |outcomes| ==> IsVerdict(outcomes[i]) && !outcomes[i].mode.Backup?
  }

  lemma {:induction false} HarvestNeverSaysBackup(s: State, octets: Id -> nat, jobs: seq<Atomic>,
                                                  finished: map<Id, Segment>)
    requires AllFromPipelines(s.outcomes)
    ensures AllFromPipelines(Harvest(s, octets, jobs, finished).outcomes)
  {
    if |jobs| > 0 {
      HarvestNeverSaysBackup(s, octets, jobs[..|jobs| - 1], finished);
      var a := jobs[|jobs| - 1];
      if a.id in finished {
        VerdictMatchesCalls(a, octets(a.id), finished[a.id]);
        assert IsVerdict(Verdict(a, octets(a.id), finished[a.id]));
      }
    }
  }

  lemma {:induction false} RoundsNeverSayBackup(j: Joint, octets: Id -> nat, rounds: seq<Round>)
    requires AllFromPipelines(j.classifier.outcomes)
    ensures AllFromPipelines(Rounds(j, octets, rounds).classifier.outcomes)
  {
    if |rounds| > 0 {
      var before, r := rounds[..|rounds| - 1], rounds[|rounds| - 1];
      RoundsNeverSayBackup(j, octets, before);
      var s := Rounds(j, octets, before).classifier;
      SeeAllKeepsOutcomes(s, r.listing);
      HarvestNeverSaysBackup(SeeAll(s, r.listing), octets, SeeAll(s, r.listing).inFlight, r.finished);
    }
  }

  lemma {:induction false} LastVerdictIsOne(outcomes: seq<Outcome>, id: Id)
    requires LastVerdict(outcomes, id).Some?
    ensures exists i ::
              0 <= i < |outcomes| && LastVerdict(outcomes, id) == Some(Standing(outcomes[i].role, outcomes[i].mode))
  {
    if outcomes[|outcomes| - 1].id != id {
      LastVerdictIsOne(outcomes[..|outcomes| - 1], id);
      var i :| 0 <= i < |outcomes| - 1
               && LastVerdict(outcomes[..|outcomes| - 1], id) == Some(Standing(outcomes[i].role, outcomes[i].mode));
    }
  }

  /** A BACKUP mode the user chose lasts, without another choice, if and only if no pipeline
      of the port ends: every verdict replaces it, with NORMAL when there was a lease. */
  lemma BackupLastsIff(j: Joint, octets: Id -> nat, rounds: seq<Round>, id: Id)
    requires Registry.Keyed(j.book) && id in j.book && j.book[id].mode.Backup?
    requires Genuine(j, octets, rounds) && Unchosen(rounds, id) && AllFromPipelines(j.classifier.outcomes)
    ensures var j' := Rounds(j, octets, rounds);
            && id in j'.book
            && (j'.book[id].mode.Backup? <==> Ends(j'.classifier.outcomes, id) == Ends(j.classifier.outcomes, id))
  {
    RunFollows(j, octets, rounds, id);
    RoundsNeverSayBackup(j, octets, rounds);
    EndedOverridesBackup(j, Rounds(j, octets, rounds), id);
  }

  lemma EndedOverridesBackup(j: Joint, j': Joint, id: Id)
    requires FollowsVerdicts(j, j', id) && AllFromPipelines(j'.classifier.outcomes)
    requires id in j.book && j.book[id].mode.Backup?
    ensures j'.book[id].mode.Backup? <==> Ends(j'.classifier.outcomes, id) == Ends(j.classifier.outcomes, id)
  {
    var ended := j'.classifier.outcomes[|j.classifier.outcomes|..];
    assert j'.classifier.outcomes == j.classifier.outcomes + ended;
    EndsAppend(j.classifier.outcomes, ended, id);
    VerdictIffEnds(ended, id);
    if LastVerdict(ended, id).Some? {
      LastVerdictIsOne(ended, id);
      var i :| 0 <= i < |ended| && LastVerdict(ended, id) == Some(Standing(ended[i].role, ended[i].mode));
      assert ended[i] == j'.classifier.outcomes[|j.classifier.outcomes| + i];
    }
  }

  /** And a plug-in is enough: a port the user made BACKUP, plugged in anew with its last
      verdict forgotten, comes out NORMAL once the pipeline that starts obtains a lease. */
  lemma LeaseReplacesBackup(j: Joint, octets: Id -> nat, r: Round, id: Id, a: Atomic)
    requires Registry.Keyed(j.book) && id in j.book && Fits(j, r)
    requires a in r.listing && a.id == id && Classifiable(a) && !WasPresent(j.classifier, id)
    requires Flights(j.classifier.inFlight, id) == 0
    requires id in r.finished && r.finished[id].lease.Yes?
    ensures id in Step(j, octets, r).book && Step(j, octets, r).book[id].mode.Normal?
  {
    var seen := SeeAll(j.classifier, r.listing);
    ListedPortStarts(j.classifier, r.listing, id, a);
    OutcomesExtend(j.classifier, octets, r);
    SeeAllKeepsOutcomes(j.classifier, r.listing);
    SweptUpdatesKnown(j.book, r, id);
    FlightsAreAddressed(j.classifier, r.listing, id, a);
    HarvestedLease(seen, octets, seen.inFlight, r.finished, id);
    VerdictsOverride(Swept(j.book, r), NewOutcomes(j.classifier, octets, r), id);
    var all, was := Consider(j.classifier, octets, TurnOf(r)).outcomes, |j.classifier.outcomes|;
    assert all[was..] == NewOutcomes(j.classifier, octets, r);
  }

  lemma SweptUpdatesKnown(b: Registry.Book, r: Round, id: Id)
    requires Registry.Keyed(b) && id in b && forall i :: 0 <= i < |r.choices| ==> r.choices[i].ModeSet?
    ensures Registry.Keyed(Swept(b, r)) && id in Swept(b, r)
  {
    SweptKeeps(b, r, id);
  }

  /** Every flight of the port is of a port with an interface. */
  ghost predicate AllAddressed(jobs: seq<Atomic>, id: Id) {
    forall i :: 0 <= i < |jobs| && jobs[i].id == id ==> jobs[i].Addressed()
  }

  lemma {:induction false} NoFlightNoJob(jobs: seq<Atomic>, id: Id)
    requires Flights(jobs, id) == 0
    ensures forall i :: 0 <= i < |jobs| ==> jobs[i].id != id
  {
    if |jobs| > 0 {
      NoFlightNoJob(jobs[..|jobs| - 1], id);
    }
  }

  lemma {:induction false} SeenFlightsAreAddressed(s: State, atomics: seq<Atomic>, id: Id)
    requires AllAddressed(s.inFlight, id)
    ensures AllAddressed(SeeAll(s, atomics).inFlight, id)
  {
    if |atomics| > 0 {
      SeenFlightsAreAddressed(s, atomics[..|atomics| - 1], id);
    }
  }

  lemma FlightsAreAddressed(s: State, atomics: seq<Atomic>, id: Id, a: Atomic)
    requires Flights(s.inFlight, id) == 0
    ensures AllAddressed(SeeAll(s, atomics).inFlight, id)
  {
    NoFlightNoJob(s.inFlight, id);
    SeenFlightsAreAddressed(s, atomics, id);
  }

  /** Until the port's own entry is shown, nothing about it changes. */
  lemma {:induction false} OthersSayNothing(s: State, atomics: seq<Atomic>, id: Id)
    requires forall i :: 0 <= i < |atomics| ==> atomics[i].id != id
    ensures var s' := SeeAll(s, atomics);
            && WasPresent(s', id) == WasPresent(s, id) && (id in s'.decided <==> id in s.decided)
            && Flights(s'.inFlight, id) == Flights(s.inFlight, id)
  {
    if |atomics| > 0 {
      var before, a := atomics[..|atomics| - 1], atomics[|atomics| - 1];
      OthersSayNothing(s, before, id);
      FlightsSnoc(SeeAll(s, before).inFlight, a, id);
    }
  }

  lemma SeenCandidateFlies(s: State, a: Atomic)
    requires Candidate(a) && !WasPresent(s, a.id)
    ensures Flights(See(s, a).inFlight, a.id) > 0
  {
    FlyingIsFlights(s.inFlight, a.id);
    FlightsSnoc(s.inFlight, a, a.id);
  }

  lemma {:induction false} FlightsOnlyGrow(s: State, atomics: seq<Atomic>, id: Id)
    ensures Flights(SeeAll(s, atomics).inFlight, id) >= Flights(s.inFlight, id)
  {
    if |atomics| > 0 {
      FlightsOnlyGrow(s, atomics[..|atomics| - 1], id);
      FlightsSnoc(SeeAll(s, atomics[..|atomics| - 1]).inFlight, atomics[|atomics| - 1], id);
    }
  }

  lemma {:induction false} SeeAllAppend(s: State, first: seq<Atomic>, rest: seq<Atomic>)
    ensures SeeAll(s, first + rest) == SeeAll(SeeAll(s, first), rest)
  {
    if |rest| == 0 {
      assert first + rest == first;
    } else {
      SeeAllAppend(s, first, rest[..|rest| - 1]);
      assert (first + rest)[..|first + rest| - 1] == first + rest[..|rest| - 1];
    }
  }

  /** A candidate shown present after being absent has a pipeline in flight afterwards. */
  lemma ListedPortStarts(s: State, atomics: seq<Atomic>, id: Id, a: Atomic)
    requires DistinctIds(atomics) && a in atomics && a.id == id && Candidate(a) && !WasPresent(s, id)
    ensures Flights(SeeAll(s, atomics).inFlight, id) > 0
  {
    var i :| 0 <= i < |atomics| && atomics[i] == a;
    var first, rest := atomics[..i + 1], atomics[i + 1..];
    assert first + rest == atomics && first[..i] == atomics[..i];
    OthersSayNothing(s, atomics[..i], id);
    SeenCandidateFlies(SeeAll(s, atomics[..i]), a);
    SeeAllAppend(s, first, rest);
    FlightsOnlyGrow(SeeAll(s, first), rest, id);
  }

  /** A finished pipeline that obtained a lease says NORMAL. */
  lemma {:induction false} HarvestedLease(s: State, octets: Id -> nat, jobs: seq<Atomic>, finished: map<Id, Segment>,
                                          id: Id)
    requires id in finished && finished[id].lease.Yes? && AllAddressed(jobs, id)
    ensures var ended := Harvest(s, octets, jobs, finished).outcomes;
            && s.outcomes <= ended
            && LastVerdict(ended[|s.outcomes|..], id)
               == if Flights(jobs, id) > 0 then Some(Standing(Wan, Normal)) else None
  {
    if |jobs| == 0 {
      assert s.outcomes[|s.outcomes|..] == [];
    } else {
      var before, a := jobs[..|jobs| - 1], jobs[|jobs| - 1];
      HarvestedLease(s, octets, before, finished, id);
      var b := Harvest(s, octets, before, finished);
      if a.id in finished {
        var v := Verdict(a, octets(a.id), finished[a.id]);
        assert (b.outcomes + [v])[|s.outcomes|..] == b.outcomes[|s.outcomes|..] + [v];
        LastVerdictAppend(b.outcomes[|s.outcomes|..], [v], id);
        assert [v][..0] == [];
        if a.id == id {
          assert v == Outcome(id, Wan, Normal, "dhcp_client_lease_obtained");
        }
      }
    }
  }

  // ---- a LAN-out port is one for good --------------------------------------------------------------

  /** The port serves a LAN and no pipeline of it is under way. */
  ghost predicate Serving(j: Joint, id: Id) {
    Registry.Keyed(j.book) && id in j.book && j.book[id].role.LanOut? && Flights(j.classifier.inFlight, id) == 0
  }

  /** No entry shown for the port makes it a candidate. */
  lemma {:induction false} NoCandidateNoFlight(s: State, atomics: seq<Atomic>, id: Id)
    requires Flights(s.inFlight, id) == 0
    requires forall i :: 0 <= i < |atomics| && atomics[i].id == id ==> atomics[i].role.LanOut?
    ensures var s' := SeeAll(s, atomics);
            Flights(s'.inFlight, id) == 0 && Starts(s'.started, id) == Starts(s.started, id)
  {
    if |atomics| > 0 {
      var before, a := atomics[..|atomics| - 1], atomics[|atomics| - 1];
      NoCandidateNoFlight(s, before, id);
      var b := SeeAll(s, before);
      FlightsSnoc(b.inFlight, a, id);
      assert (b.started + [a.id])[..|b.started|] == b.started;
    }
  }

  /** The classifier's side: nothing starts and nothing ends. */
  lemma NothingStarts(s: State, octets: Id -> nat, r: Round, id: Id)
    requires Flights(s.inFlight, id) == 0
    requires forall i :: 0 <= i < |r.listing| && r.listing[i].id == id ==> r.listing[i].role.LanOut?
    ensures var s' := Consider(s, octets, TurnOf(r));
            && Flights(s'.inFlight, id) == 0 && Starts(s'.started, id) == Starts(s.started, id)
            && Ends(s'.outcomes, id) == Ends(s.outcomes, id)
    ensures LastVerdict(NewOutcomes(s, octets, r), id).None?
  {
    var seen := SeeAll(s, r.listing);
    NoCandidateNoFlight(s, r.listing, id);
    HarvestBooks(seen, octets, seen.inFlight, r.finished, id);
    SeeAllKeepsOutcomes(s, r.listing);
    OutcomesExtend(s, octets, r);
    EndsAppend(s.outcomes, NewOutcomes(s, octets, r), id);
    VerdictIffEnds(NewOutcomes(s, octets, r), id);
  }

  lemma ListedAsServing(j: Joint, r: Round, id: Id)
    requires Registry.Keyed(j.book) && id in j.book && j.book[id].role.LanOut? && Fits(j, r)
    ensures forall i :: 0 <= i < |r.listing| && r.listing[i].id == id ==> r.listing[i].role.LanOut?
  {
    SweptKeeps(j.book, r, id);
    forall i | 0 <= i < |r.listing| && r.listing[i].id == id ensures r.listing[i].role.LanOut? {
      assert r.listing[i] in r.listing;
    }
  }

  lemma ServingStays(j: Joint, octets: Id -> nat, r: Round, id: Id)
    requires Serving(j, id) && Fits(j, r)
    ensures var j' := Step(j, octets, r);
            && Serving(j', id)
            && Starts(j'.classifier.started, id) == Starts(j.classifier.started, id)
            && Ends(j'.classifier.outcomes, id) == Ends(j.classifier.outcomes, id)
  {
    SweptKeeps(j.book, r, id);
    ListedAsServing(j, r, id);
    NothingStarts(j.classifier, octets, r, id);
    VerdictsOverride(Swept(j.book, r), NewOutcomes(j.classifier, octets, r), id);
  }

  /** Unplugged, moved and plugged in elsewhere as often as one likes, a port that serves a LAN
      is never classified again and goes on serving one. */
  lemma {:induction false} LanOutIsForGood(j: Joint, octets: Id -> nat, rounds: seq<Round>, id: Id)
    requires Serving(j, id) && Genuine(j, octets, rounds)
    ensures var j' := Rounds(j, octets, rounds);
            && Serving(j', id)
            && Starts(j'.classifier.started, id) == Starts(j.classifier.started, id)
            && Ends(j'.classifier.outcomes, id) == Ends(j.classifier.outcomes, id)
  {
    if |rounds| > 0 {
      LanOutIsForGood(j, octets, rounds[..|rounds| - 1], id);
      ServingStays(Rounds(j, octets, rounds[..|rounds| - 1]), octets, rounds[|rounds| - 1], id);
    }
  }
}
