/** Registration by many workers at once: threads of several server processes, two
    locks, a temporary file and an atomic replace, with processes dying anywhere. */
module PeerProtocol {
  import opened Model
  import opened Peers

  datatype Worker = Worker(process: nat, thread: nat)

  /** Where one worker is in handling a registration. */
  datatype Phase =
    | Resting
    | Waiting(key: Key)
    | InProcess(key: Key)
    | Locked(key: Key)
    | Loaded(key: Key, peers: PeerMap)
    | Writing(key: Key, peers: PeerMap, address: Address)
    | Written(key: Key, peers: PeerMap, address: Address)
    | Answered(key: Key, grant: Grant)
    | Released(key: Key, grant: Grant)
  {
    predicate HoldsFile() {
      Locked? || Loaded? || Writing? || Written? || Answered?
    }

    predicate HoldsProcess() {
      InProcess? || HoldsFile()
    }
  }

  datatype State = State(
    file: PeerMap,
    temp: Option<PeerMap>,
    workers: map<Worker, Phase>,
    processLock: map<nat, Worker>,
    fileLock: Option<Worker>,
    successes: seq<(Key, Address)>)
  {
    function At(w: Worker): Phase {
      if w in workers then workers[w] else Resting
    }

    function Move(w: Worker, phase: Phase): State {
      this.(workers := workers[w := phase])
    }
  }

  const START := State(map[], None, map[], map[], None, [])

  datatype Step =
    | Register(worker: Worker, key: Key, ready: bool)
    | TakeProcessLock(worker: Worker)
    | TakeFileLock(worker: Worker)
    | Load(worker: Worker)
    | Choose(worker: Worker)
    | WriteTemp(worker: Worker)
    | Replace(worker: Worker)
    | StoreFails(worker: Worker, leftover: Option<PeerMap>)
    | Release(worker: Worker)
    | AddPeer(worker: Worker, added: bool)
    | Crash(process: nat, leftover: Option<PeerMap>)

  /** One step; a step whose moment has not come changes nothing. A registration
      starts only once the tunnel backend is ready, and succeeds only if the peer
      is then added. A store that raises, in the write or in the replace, frees both locks
      and leaves anything at all in the temporary file. A crash frees the dead process's locks and, if it held the file
      lock, leaves anything at all in the temporary file. */
  function Next(pool: Pool, s: State, step: Step): State {
    if step.Crash? then
      var held := s.fileLock.Some? && s.fileLock.value.process == step.process;
      s.(workers := map w | w in s.workers && w.process != step.process :: s.workers[w],
         processLock := s.processLock - {step.process},
         fileLock := if held then None else s.fileLock,
         temp := if held then step.leftover else s.temp)
    else
      var w, phase := step.worker, s.At(step.worker);
      match step
      case Register(_, key, ready) =>
        if phase.Resting? && ready then s.Move(w, Waiting(key)) else s
      case TakeProcessLock(_) =>
        if phase.Waiting? && w.process !in s.processLock
        then s.Move(w, InProcess(phase.key)).(processLock := s.processLock[w.process := w]) else s
      case TakeFileLock(_) =>
        if phase.InProcess? && s.fileLock.None? then s.Move(w, Locked(phase.key)).(fileLock := Some(w)) else s
      case Load(_) =>
        if phase.Locked? then s.Move(w, Loaded(phase.key, s.file)) else s
      case Choose(_) =>
        if !phase.Loaded? then s
        else
          var g := Answer(pool, phase.peers, phase.key);
          if g.Grant? && g.created
          then s.Move(w, Writing(phase.key, phase.peers[phase.key := g.address], g.address))
          else s.Move(w, Answered(phase.key, g))
      case WriteTemp(_) =>
        if phase.Writing?
        then s.Move(w, Written(phase.key, phase.peers, phase.address)).(temp := Some(phase.peers)) else s
      case Replace(_) =>
        if phase.Written? && s.temp.Some?
        then s.Move(w, Answered(phase.key, Grant(phase.address, true))).(file := s.temp.value, temp := None) else s
      case StoreFails(_, leftover) =>
        if phase.Writing? || phase.Written?
        then s.Move(w, Resting).(temp := leftover, fileLock := None, processLock := s.processLock - {w.process}) else s
      case Release(_) =>
        if phase.Answered?
        then s.Move(w, Released(phase.key, phase.grant))
              .(fileLock := None, processLock := s.processLock - {w.process})
        else s
      case AddPeer(_, added) =>
        if !phase.Released? then s
        else if phase.grant.Grant? && added
        then s.Move(w, Resting).(successes := s.successes + [(phase.key, phase.grant.address)])
        else s.Move(w, Resting)
  }

  function Run(pool: Pool, s: State, steps: seq<Step>): State {
    if steps == [] then s else Next(pool, Run(pool, s, steps[..|steps| - 1]), steps[|steps| - 1])
  }

  // ---- the invariant -----------------------------------------------------------------

  /** Whoever is inside a lock is its one holder, and a held lock has its holder inside. */
  ghost predicate LocksHeld(s: State) {
    ProcessLocksHeld(s) && FileLockHeld(s)
  }

  ghost predicate ProcessLocksHeld(s: State) {
    && (forall w :: s.At(w).HoldsProcess() ==> w.process in s.processLock && s.processLock[w.process] == w)
    && (forall p :: p in s.processLock ==> s.processLock[p].process == p && s.At(s.processLock[p]).HoldsProcess())
  }

  ghost predicate FileLockHeld(s: State) {
    && (forall w :: s.At(w).HoldsFile() ==> s.fileLock == Some(w))
    && (s.fileLock.Some? ==> s.At(s.fileLock.value).HoldsFile())
  }

  /** What a worker believes is still true of the file. */
  ghost predicate Informed(pool: Pool, file: PeerMap, temp: Option<PeerMap>, phase: Phase) {
    match phase
    case Loaded(_, peers) => peers == file
    case Writing(key, peers, address) => Pending(pool, file, key, peers, address)
    case Written(key, peers, address) => Pending(pool, file, key, peers, address) && temp == Some(peers)
    case Answered(key, grant) => OnFile(pool, file, key, grant)
    case Released(key, grant) => OnFile(pool, file, key, grant)
    case _ => true
  }

  ghost predicate Pending(pool: Pool, file: PeerMap, key: Key, peers: PeerMap, address: Address) {
    key !in file && Answer(pool, file, key) == Grant(address, true) && peers == file[key := address]
  }

  /** A grant is on file; exhaustion means every appliance address is taken by others. */
  ghost predicate OnFile(pool: Pool, file: PeerMap, key: Key, grant: Grant) {
    if grant.Grant? then key in file && file[key] == grant.address
    else key !in file && |file| == |pool.Appliances()|
  }

  ghost predicate Invariant(pool: Pool, s: State) {
    && Packed(pool, s.file)
    && LocksHeld(s)
    && (forall w :: Informed(pool, s.file, s.temp, s.At(w)))
    && SuccessesOnFile(s.successes, s.file)
  }

  ghost predicate SuccessesOnFile(successes: seq<(Key, Address)>, file: PeerMap) {
    forall i :: 0 <= i < |successes| ==> successes[i].0 in file && file[successes[i].0] == successes[i].1
  }

  ghost predicate Grows(file: PeerMap, file': PeerMap) {
    forall k :: k in file ==> k in file' && file'[k] == file[k]
  }

  // ---- it holds through every step ------------------------------------------------------

  lemma FileLockStaysHeld(pool: Pool, s: State, step: Step)
    requires FileLockHeld(s)
    ensures FileLockHeld(Next(pool, s, step))
  {
    var s' := Next(pool, s, step);
    if !step.Crash? {
      ActorMovesFileLock(pool, s, step);
      forall w | s'.At(w).HoldsFile() ensures s'.fileLock == Some(w) {
        if w != step.worker {
          OthersStay(pool, s, step, w);
        }
      }
      if s'.fileLock.Some? && s'.fileLock.value != step.worker {
        OthersStay(pool, s, step, s'.fileLock.value);
      }
    }
  }

  /** Its own worker takes the free file lock, keeps it, gives it up, or never had it. */
  lemma ActorMovesFileLock(pool: Pool, s: State, step: Step)
    requires !step.Crash?
    ensures var s' := Next(pool, s, step);
            var had, has := s.At(step.worker).HoldsFile(), s'.At(step.worker).HoldsFile();
            || (had == has && s'.fileLock == s.fileLock)
            || (!had && has && s.fileLock.None? && s'.fileLock == Some(step.worker))
            || (had && !has && s'.fileLock.None?)
  {
  }

  lemma TakenProcessLockIsHeld(pool: Pool, s: State, w: Worker)
    requires ProcessLocksHeld(s)
    ensures ProcessLocksHeld(Next(pool, s, TakeProcessLock(w)))
  {
  }

  lemma ReleasedProcessLockIsFree(pool: Pool, s: State, w: Worker)
    requires ProcessLocksHeld(s)
    ensures ProcessLocksHeld(Next(pool, s, Release(w)))
  {
  }

  lemma FailedStoreFreesProcessLock(pool: Pool, s: State, w: Worker, leftover: Option<PeerMap>)
    requires ProcessLocksHeld(s)
    ensures ProcessLocksHeld(Next(pool, s, StoreFails(w, leftover)))
  {
  }

  lemma CrashFreesProcessLock(pool: Pool, s: State, process: nat, leftover: Option<PeerMap>)
    requires ProcessLocksHeld(s)
    ensures ProcessLocksHeld(Next(pool, s, Crash(process, leftover)))
  {
  }

  /** A step moves nobody but its own worker. */
  lemma OthersStay(pool: Pool, s: State, step: Step, other: Worker)
    requires !step.Crash? && other != step.worker
    ensures Next(pool, s, step).At(other) == s.At(other)
  {
  }

  /** The remaining steps neither take nor release a process lock. */
  lemma OtherStepsMoveNoLock(pool: Pool, s: State, step: Step)
    requires !step.TakeProcessLock? && !step.Release? && !step.StoreFails? && !step.Crash?
    ensures var s' := Next(pool, s, step);
            s'.processLock == s.processLock && s'.At(step.worker).HoldsProcess() == s.At(step.worker).HoldsProcess()
  {
  }

  lemma SameHoldersSameLocks(s: State, s': State)
    requires ProcessLocksHeld(s) && s'.processLock == s.processLock
    requires forall w :: s'.At(w).HoldsProcess() == s.At(w).HoldsProcess()
    ensures ProcessLocksHeld(s')
  {
  }

  lemma OtherStepsKeepProcessLocks(pool: Pool, s: State, step: Step)
    requires ProcessLocksHeld(s) && !step.TakeProcessLock? && !step.Release? && !step.StoreFails? && !step.Crash?
    ensures ProcessLocksHeld(Next(pool, s, step))
  {
    var s' := Next(pool, s, step);
    OtherStepsMoveNoLock(pool, s, step);
    forall w ensures s'.At(w).HoldsProcess() == s.At(w).HoldsProcess() {
      if w != step.worker {
        OthersStay(pool, s, step, w);
      }
    }
    SameHoldersSameLocks(s, s');
  }

  lemma ProcessLocksStayHeld(pool: Pool, s: State, step: Step)
    requires ProcessLocksHeld(s)
    ensures ProcessLocksHeld(Next(pool, s, step))
  {
    match step
    case TakeProcessLock(w) => TakenProcessLockIsHeld(pool, s, w);
    case Release(w) => ReleasedProcessLockIsFree(pool, s, w);
    case StoreFails(w, leftover) => FailedStoreFreesProcessLock(pool, s, w, leftover);
    case Crash(process, leftover) => CrashFreesProcessLock(pool, s, process, leftover);
    case _ => OtherStepsKeepProcessLocks(pool, s, step);
  }

  /** Only the replace changes the file, and then to what the allocation stores. */
  lemma FileAfter(pool: Pool, s: State, step: Step)
    requires Invariant(pool, s)
    ensures var s' := Next(pool, s, step);
            s'.file == s.file ||
            (step.Replace? && s.At(step.worker).Written? && s'.file == Stored(pool, s.file, s.At(step.worker).key))
  {
    if step.Replace? {
      assert Informed(pool, s.file, s.temp, s.At(step.worker));
    }
  }

  lemma ChoiceIsInformed(pool: Pool, s: State, w: Worker)
    requires Invariant(pool, s) && s.At(w).Loaded?
    ensures Informed(pool, s.file, s.temp, Next(pool, s, Choose(w)).At(w))
  {
    assert Informed(pool, s.file, s.temp, s.At(w));
    var key := s.At(w).key;
    if key !in s.file {
      AnswerFromPacked(pool, s.file, key);
    }
  }

  /** What is on file stays on file when another key is given an address. */
  lemma OnFileStays(pool: Pool, file: PeerMap, key: Key, address: Address, other: Key, grant: Grant)
    requires Packed(pool, file) && key !in file && Answer(pool, file, key) == Grant(address, true)
    requires OnFile(pool, file, other, grant)
    ensures OnFile(pool, file[key := address], other, grant)
  {
    AnswerFromPacked(pool, file, key);
  }

  /** Every other worker's beliefs survive the replace: it holds the file lock, so
      they are at most remembering answers, which stay on file. */
  lemma ReplaceKeepsOthersInformed(pool: Pool, s: State, w: Worker, other: Worker)
    requires Invariant(pool, s) && s.At(w).Written?
    ensures var s' := Next(pool, s, Replace(w)); Informed(pool, s'.file, s'.temp, s'.At(other))
  {
    var phase, mine := s.At(w), s.At(other);
    assert Informed(pool, s.file, s.temp, phase);
    assert Informed(pool, s.file, s.temp, mine);
    assert s.fileLock == Some(w);
    if other != w {
      OthersStay(pool, s, Replace(w), other);
      if mine.Released? {
        OnFileStays(pool, s.file, phase.key, phase.address, mine.key, mine.grant);
      }
    }
  }

  /** A step other than a replace leaves the file alone, and the temporary file too
      unless its worker holds the file lock. */
  lemma FilesOfOthers(pool: Pool, s: State, step: Step)
    requires !step.Crash? && !(step.Replace? && s.At(step.worker).Written?)
    ensures var s' := Next(pool, s, step);
            s'.file == s.file && (s'.temp == s.temp || s.At(step.worker).HoldsFile())
  {
  }

  lemma BystanderStaysInformed(pool: Pool, s: State, step: Step, other: Worker)
    requires Invariant(pool, s) && !step.Crash? && other != step.worker
    requires !(step.Replace? && s.At(step.worker).Written?)
    ensures var s' := Next(pool, s, step); Informed(pool, s'.file, s'.temp, s'.At(other))
  {
    assert Informed(pool, s.file, s.temp, s.At(other));
    OthersStay(pool, s, step, other);
    FilesOfOthers(pool, s, step);
    if s.At(step.worker).HoldsFile() {
      assert s.fileLock == Some(step.worker);
      assert !s.At(other).Written?;
    }
  }

  lemma ActorStaysInformed(pool: Pool, s: State, step: Step)
    requires Invariant(pool, s) && !step.Crash? && !step.Choose? && !(step.Replace? && s.At(step.worker).Written?)
    ensures var s' := Next(pool, s, step); Informed(pool, s'.file, s'.temp, s'.At(step.worker))
  {
    assert Informed(pool, s.file, s.temp, s.At(step.worker));
  }

  /** A dying process takes its own workers' beliefs with it, and spoils the temporary
      file only if no other worker was relying on it. */
  lemma SurvivorsStayInformed(pool: Pool, s: State, step: Step, other: Worker)
    requires Invariant(pool, s) && step.Crash?
    ensures var s' := Next(pool, s, step); Informed(pool, s'.file, s'.temp, s'.At(other))
  {
    assert Informed(pool, s.file, s.temp, s.At(other));
  }

  lemma WorkersStayInformed(pool: Pool, s: State, step: Step, other: Worker)
    requires Invariant(pool, s)
    ensures var s' := Next(pool, s, step); Informed(pool, s'.file, s'.temp, s'.At(other))
  {
    if step.Crash? {
      SurvivorsStayInformed(pool, s, step, other);
    } else if step.Replace? && s.At(step.worker).Written? {
      ReplaceKeepsOthersInformed(pool, s, step.worker, other);
    } else if other != step.worker {
      BystanderStaysInformed(pool, s, step, other);
    } else if step.Choose? {
      ChooserStaysInformed(pool, s, other);
    } else {
      ActorStaysInformed(pool, s, step);
    }
  }

  lemma ChooserStaysInformed(pool: Pool, s: State, w: Worker)
    requires Invariant(pool, s)
    ensures var s' := Next(pool, s, Choose(w)); Informed(pool, s'.file, s'.temp, s'.At(w))
  {
    assert Informed(pool, s.file, s.temp, s.At(w));
    if s.At(w).Loaded? {
      ChoiceIsInformed(pool, s, w);
    }
  }

  lemma FileGrows(pool: Pool, s: State, step: Step)
    requires Invariant(pool, s)
    ensures var s' := Next(pool, s, step); Packed(pool, s'.file) && Grows(s.file, s'.file)
  {
    FileAfter(pool, s, step);
    if Next(pool, s, step).file != s.file {
      AllocationKeepsPacked(pool, s.file, s.At(step.worker).key);
    }
  }

  lemma SuccessesStayOnFile(pool: Pool, s: State, step: Step)
    requires Invariant(pool, s) && Grows(s.file, Next(pool, s, step).file)
    ensures SuccessesOnFile(Next(pool, s, step).successes, Next(pool, s, step).file)
  {
    if step.AddPeer? {
      assert Informed(pool, s.file, s.temp, s.At(step.worker));
    }
  }

  lemma StepKeepsInvariant(pool: Pool, s: State, step: Step)
    requires Invariant(pool, s)
    ensures Invariant(pool, Next(pool, s, step)) && Grows(s.file, Next(pool, s, step).file)
  {
    var s' := Next(pool, s, step);
    FileLockStaysHeld(pool, s, step);
    ProcessLocksStayHeld(pool, s, step);
    FileGrows(pool, s, step);
    forall w ensures Informed(pool, s'.file, s'.temp, s'.At(w)) {
      WorkersStayInformed(pool, s, step, w);
    }
    SuccessesStayOnFile(pool, s, step);
  }

  /** Under any interleaving of any workers, with crashes and backend failures
      anywhere: the file holds exactly the first so many appliance addresses, one per
      key, and only ever grows. */
  lemma {:induction false} FileStaysPacked(pool: Pool, s: State, steps: seq<Step>)
    requires Invariant(pool, s)
    ensures Invariant(pool, Run(pool, s, steps)) && Grows(s.file, Run(pool, s, steps).file)
  {
    if steps != [] {
      FileStaysPacked(pool, s, steps[..|steps| - 1]);
      StepKeepsInvariant(pool, Run(pool, s, steps[..|steps| - 1]), steps[|steps| - 1]);
    }
  }

  lemma StartsPacked(pool: Pool)
    ensures Invariant(pool, START)
  {
  }

  /** Every success for one key carries one address, and different keys differ. */
  lemma SuccessesAgree(pool: Pool, steps: seq<Step>, i: nat, j: nat)
    requires var s := Run(pool, START, steps); i < |s.successes| && j < |s.successes|
    ensures var s := Run(pool, START, steps);
            s.successes[i].0 == s.successes[j].0 <==> s.successes[i].1 == s.successes[j].1
  {
    StartsPacked(pool);
    FileStaysPacked(pool, START, steps);
  }

  /** At most one worker at a time is between loading the file and replacing it. */
  lemma OneWriterAtATime(pool: Pool, steps: seq<Step>, v: Worker, w: Worker)
    requires Run(pool, START, steps).At(v).HoldsFile() && Run(pool, START, steps).At(w).HoldsFile()
    ensures v == w
  {
    StartsPacked(pool);
    FileStaysPacked(pool, START, steps);
  }

  /** A worker is told the pool is exhausted only when, and as long as, every
      appliance address is taken by some other key. */
  lemma ExhaustionIsReal(pool: Pool, steps: seq<Step>, w: Worker)
    requires var phase := Run(pool, START, steps).At(w); phase.Answered? || phase.Released?
    ensures var s := Run(pool, START, steps);
            s.At(w).grant.PoolExhausted? <==> s.At(w).key !in s.file && |s.file| == |pool.Appliances()|
  {
    StartsPacked(pool);
    FileStaysPacked(pool, START, steps);
    var s := Run(pool, START, steps);
    assert Informed(pool, s.file, s.temp, s.At(w));
  }

  // ---- and registrations get through ------------------------------------------------------

  /** Nobody is in the way of w: it is at rest and both its locks are free. */
  ghost predicate Clear(s: State, w: Worker) {
    s.At(w) == Resting && w.process !in s.processLock && s.fileLock == None
  }

  /** Up to the answer, with both locks taken in order. */
  function Entered(pool: Pool, s: State, w: Worker, key: Key): State {
    Next(pool, Next(pool, Next(pool, Next(pool, s, Register(w, key, true)), TakeProcessLock(w)), TakeFileLock(w)),
         Load(w))
  }

  function Settled(pool: Pool, s: State, w: Worker): State {
    Next(pool, Next(pool, Next(pool, s, Choose(w)), WriteTemp(w)), Replace(w))
  }

  lemma EnteredKnows(pool: Pool, s: State, w: Worker, key: Key)
    requires Clear(s, w)
    ensures var s' := Entered(pool, s, w, key);
            && s'.At(w) == Loaded(key, s.file)
            && s'.file == s.file && s'.successes == s.successes
            && s'.processLock == s.processLock[w.process := w] && s'.fileLock == Some(w)
  {
  }

  lemma SettledAnswers(pool: Pool, s: State, w: Worker, key: Key)
    requires s.At(w) == Loaded(key, s.file)
    ensures var s' := Settled(pool, s, w);
            && s'.At(w) == Answered(key, Answer(pool, s.file, key))
            && s'.file == Stored(pool, s.file, key)
            && s'.successes == s.successes && s'.processLock == s.processLock && s'.fileLock == s.fileLock
  {
  }

  function Left(pool: Pool, s: State, w: Worker, added: bool): State {
    Next(pool, Next(pool, s, Release(w)), AddPeer(w, added))
  }

  lemma LeftSucceeds(pool: Pool, s: State, w: Worker, key: Key, g: Grant, added: bool)
    requires s.At(w) == Answered(key, g)
    ensures var s' := Left(pool, s, w, added);
            && s'.At(w) == Resting && s'.file == s.file && s'.fileLock == None
            && s'.processLock == s.processLock - {w.process}
            && s'.successes == if g.Grant? && added then s.successes + [(key, g.address)] else s.successes
  {
  }

  /** A registration that nothing interrupts does to the file exactly what one allocation does,
      succeeds with its address if there is one and the peer is added, and leaves the way as
      clear as it was. */
  lemma UninterruptedRegisters(pool: Pool, s: State, w: Worker, key: Key, added: bool)
    requires Clear(s, w)
    ensures var s', g := Left(pool, Settled(pool, Entered(pool, s, w, key), w), w, added), Answer(pool, s.file, key);
            && s'.file == Stored(pool, s.file, key)
            && s'.successes == (if g.Grant? && added then s.successes + [(key, g.address)] else s.successes)
            && Clear(s', w) && s'.processLock == s.processLock
  {
    var entered := Entered(pool, s, w, key);
    EnteredKnows(pool, s, w, key);
    SettledAnswers(pool, entered, w, key);
    LeftSucceeds(pool, Settled(pool, entered, w), w, key, Answer(pool, s.file, key), added);
    assert s.processLock[w.process := w] - {w.process} == s.processLock;
  }
}
