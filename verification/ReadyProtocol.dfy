/**
 The analyzer's shared state under interleaving (internal/gasanalyzer/analyzer.go, internal/processor): one goroutine
 processes blocks and resyncs, another analyses every two seconds, and pending workers read the current block and push
 transactions stamped with it. Each step below is one critical section.
 */
module ReadyProtocol {
  import opened Common

  /** Where the block goroutine stands: before its start, at rest, or inside Initialize, ProcessBlock or Resync. */
  datatype Processing =
    | NotStarted
    | InitAdd | InitLatest | InitLevels | InitReady
    | AtRest
    | BlockAdd | BlockLatest | BlockLevels
    | ResyncLock | ResyncWipe | ResyncClear | ResyncAdd | ResyncLatest | ResyncLevels | ResyncPool | ResyncReady

  /** Where the analysis goroutine stands; past the check it remembers how many resets there had been. */
  datatype Analysing =
    | Idle
    | Locked
    | Checked(resets: nat)
    | Snapped(resets: nat)
    | PendingDone(resets: nat)
    | Blended(resets: nat)
    | Sent

  datatype Holder = Nobody | Blocks | Analysis

  /** The block number a worker read, and whether it read it in the current run: after its first block was published. */
  datatype Stamp = Stamp(block: nat, inRun: bool)

  datatype State = State(
    processing: Processing,
    analysing: Analysing,
    runMu: Holder,
    ready: bool,
    levels: bool,            // the block-based result holds all three levels
    stored: nat,             // blocks in the store
    resets: nat,             // how often Reset has run
    emptySeen: bool,         // the "result data is empty" branch was taken
    sends: seq<(nat, nat)>,  // per send: resets at its check, resets at its send
    working: nat,            // the block last begun
    latest: nat,             // the block number the analyzer publishes
    base: nat,               // the lowest block number published since the last reset
    stamps: map<nat, Stamp>, // workers between their read and their push
    pushed: seq<Stamp>)      // the stamps pushed since the pool was last cleared

  /** What the block goroutine begins when it is at rest, and with which block. */
  datatype Begin = BlockOf(number: nat) | EmptyBlockOf(number: nat) | ResyncAt(number: nat)

  /** A scheduler's choice: which goroutine moves. */
  datatype Choice = MoveBlocks(begin: Begin) | MoveAnalysis | MoveWorker(id: nat)

  const INITIAL := State(NotStarted, Idle, Nobody, false, false, 0, 0, false, [], 0, 0, 0, map[], [])

  /** Between a reset (or the start) and the first block published after it. */
  predicate Unset(p: Processing) {
    p.NotStarted? || p.InitAdd? || p.InitLatest? || p.ResyncClear? || p.ResyncAdd? || p.ResyncLatest?
  }

  /** UpdateBlockInfoForAnalysis publishes nothing for an empty store. */
  function WithLatest(s: State, first: bool): State {
    if s.stored == 0 then s
    else s.(latest := s.working, base := if first then s.working else Min(s.base, s.working))
  }

  function WithLevels(s: State): State {
    if s.stored == 0 then s else s.(levels := true)
  }

  function Outdated(stamps: map<nat, Stamp>): map<nat, Stamp> {
    map id | id in stamps :: stamps[id].(inRun := false)
  }

  function AllOutdated(pushed: seq<Stamp>): seq<Stamp> {
    seq(|pushed|, i requires 0 <= i < |pushed| => pushed[i].(inRun := false))
  }

  function StepBlocks(s: State, begin: Begin, max: nat): State {
    match s.processing
    case NotStarted => s.(processing := InitAdd, working := begin.number)
    case InitAdd => s.(processing := InitLatest, stored := Min(s.stored + 1, max))
    case InitLatest => WithLatest(s, true).(processing := InitLevels)
    case InitLevels => WithLevels(s).(processing := InitReady)
    case InitReady => s.(processing := AtRest, ready := true)
    case AtRest =>
      (match begin
       case BlockOf(n) => s.(processing := BlockAdd, working := n)
       case EmptyBlockOf(n) => s.(processing := BlockLatest, working := n)
       case ResyncAt(n) => s.(processing := ResyncLock, working := n))
    case BlockAdd => s.(processing := BlockLatest, stored := Min(s.stored + 1, max))
    case BlockLatest => WithLatest(s, false).(processing := BlockLevels)
    case BlockLevels => WithLevels(s).(processing := AtRest)
    case ResyncLock => if s.runMu == Nobody then s.(processing := ResyncWipe, runMu := Blocks) else s
    case ResyncWipe =>
      s.(processing := ResyncClear, runMu := Nobody, ready := false, levels := false, latest := 0,
         resets := s.resets + 1,
         stamps := Outdated(s.stamps), pushed := AllOutdated(s.pushed))
    case ResyncClear => s.(processing := ResyncAdd, stored := 0)
    case ResyncAdd => s.(processing := ResyncLatest, stored := Min(s.stored + 1, max))
    case ResyncLatest => WithLatest(s, true).(processing := ResyncLevels)
    case ResyncLevels => WithLevels(s).(processing := ResyncPool)
    case ResyncPool => s.(processing := ResyncReady, pushed := [])
    case ResyncReady => s.(processing := AtRest, ready := true)
  }

  function StepAnalysis(s: State): State {
    match s.analysing
    case Idle => if s.runMu == Nobody then s.(analysing := Locked, runMu := Analysis) else s
    case Locked => if s.ready then s.(analysing := Checked(s.resets)) else s.(analysing := Idle, runMu := Nobody)
    case Checked(r) => s.(analysing := Snapped(r))
    case Snapped(r) => s.(analysing := PendingDone(r))
    case PendingDone(r) => s.(analysing := Blended(r), emptySeen := s.emptySeen || !s.levels)
    case Blended(r) => s.(analysing := Sent, sends := s.sends + [(r, s.resets)])
    case Sent => s.(analysing := Idle, runMu := Nobody)
  }

  /** How many more steps an analysis may take. */
  function Left(a: Analysing): nat {
    match a
    case Idle => 0
    case Locked => 6
    case Checked(_) => 5
    case Snapped(_) => 4
    case PendingDone(_) => 3
    case Blended(_) => 2
    case Sent => 1
  }

  /** A worker reads the published block number, or pushes with the one it read. */
  function StepWorker(s: State, id: nat): State {
    if id !in s.stamps then s.(stamps := s.stamps[id := Stamp(s.latest, !Unset(s.processing))])
    else s.(stamps := s.stamps - {id}, pushed := s.pushed + [s.stamps[id]])
  }

  function Step(s: State, c: Choice, max: nat): State {
    match c
    case MoveBlocks(begin) => StepBlocks(s, begin, max)
    case MoveAnalysis => StepAnalysis(s)
    case MoveWorker(id) => StepWorker(s, id)
  }

  function Run(schedule: seq<Choice>, max: nat): State {
    if schedule == [] then INITIAL else Step(Run(schedule[..|schedule| - 1], max), schedule[|schedule| - 1], max)
  }

  lemma RunStart(max: nat)
    ensures Run([], max) == INITIAL
  {
  }

  lemma RunStep(schedule: seq<Choice>, c: Choice, max: nat)
    ensures Run(schedule + [c], max) == Step(Run(schedule, max), c, max)
  {
    assert (schedule + [c])[..|schedule|] == schedule;
  }

  // ---------- invariants ----------

  /** The mutex is held by exactly the goroutine that is inside its section. */
  predicate LockOk(s: State) {
    && (s.runMu == Analysis <==> s.analysing != Idle)
    && (s.runMu == Blocks <==> s.processing == ResyncWipe)
  }

  /** The phases in which the processor has not (re)built the block result yet. */
  predicate Building(p: Processing) {
    Unset(p) || p.InitLevels? || p.InitReady? || p.ResyncLevels? || p.ResyncPool? || p.ResyncReady?
  }

  predicate Rebuilt(p: Processing) {
    p.InitReady? || p.ResyncPool? || p.ResyncReady?
  }

  predicate Filled(p: Processing) {
    p.InitLatest? || p.InitLevels? || p.ResyncLatest? || p.ResyncLevels? || Rebuilt(p) || !Building(p)
  }

  predicate AnalysisOk(s: State) {
    match s.analysing
    case Checked(r) => s.ready && r == s.resets
    case Snapped(r) => s.ready && r == s.resets
    case PendingDone(r) => s.ready && r == s.resets
    case Blended(r) => s.ready && r == s.resets
    case _ => true
  }

  predicate StampOk(s: State, stamp: Stamp) {
    stamp.inRun ==> !Unset(s.processing) && stamp.block >= s.base
  }

  predicate StampsOk(s: State) {
    && (!Unset(s.processing) ==> s.latest >= s.base)
    && (forall id | id in s.stamps :: StampOk(s, s.stamps[id]))
    && (forall i | 0 <= i < |s.pushed| :: StampOk(s, s.pushed[i]))
  }

  predicate ReadyOk(s: State) {
    && LockOk(s)
    && (s.ready <==> !Building(s.processing))
    && (Filled(s.processing) ==> s.stored > 0)
    && (!Building(s.processing) || Rebuilt(s.processing) ==> s.levels)
    && AnalysisOk(s)
    && !s.emptySeen
    && (forall i | 0 <= i < |s.sends| :: s.sends[i].0 == s.sends[i].1)
  }

  predicate Inv(s: State) {
    ReadyOk(s) && StampsOk(s)
  }

  predicate Resyncing(p: Processing) {
    p.ResyncLock? || p.ResyncWipe? || p.ResyncClear? || p.ResyncAdd? || p.ResyncLatest? || p.ResyncLevels?
    || p.ResyncPool? || p.ResyncReady?
  }

  lemma ResyncKeeps(s: State, begin: Begin, max: nat)
    requires ReadyOk(s) && max >= 1 && Resyncing(s.processing)
    ensures ReadyOk(StepBlocks(s, begin, max))
  {
  }

  lemma BlocksKeep(s: State, begin: Begin, max: nat)
    requires ReadyOk(s) && max >= 1 && !Resyncing(s.processing)
    ensures ReadyOk(StepBlocks(s, begin, max))
  {
  }

  lemma AnalysisKeeps(s: State)
    requires Inv(s)
    ensures Inv(StepAnalysis(s))
  {
    var t := StepAnalysis(s);
    assert t.stamps == s.stamps && t.pushed == s.pushed;
  }

  lemma WorkerKeeps(s: State, id: nat)
    requires Inv(s)
    ensures Inv(StepWorker(s, id))
  {
  }

  /** Publishing, resetting and clearing keep every stamp of the run at or above the base. */
  lemma BlocksKeepStamps(s: State, begin: Begin, max: nat)
    requires ReadyOk(s) && StampsOk(s) && max >= 1 && !Resyncing(s.processing)
    ensures StampsOk(StepBlocks(s, begin, max))
  {
  }

  lemma ResyncKeepsStamps(s: State, begin: Begin, max: nat)
    requires ReadyOk(s) && StampsOk(s) && max >= 1 && Resyncing(s.processing)
    ensures StampsOk(StepBlocks(s, begin, max))
  {
  }

  lemma StepKeeps(s: State, c: Choice, max: nat)
    requires Inv(s) && max >= 1
    ensures Inv(Step(s, c, max))
  {
    hide ReadyOk, StampsOk, StepBlocks, StepAnalysis, StepWorker;
    match c
    case MoveBlocks(begin) =>
      if Resyncing(s.processing) {
        ResyncKeeps(s, begin, max);
        ResyncKeepsStamps(s, begin, max);
      } else {
        BlocksKeep(s, begin, max);
        BlocksKeepStamps(s, begin, max);
      }
    case MoveAnalysis => AnalysisKeeps(s);
    case MoveWorker(id) => WorkerKeeps(s, id);
  }

  /**
   In every interleaving: the analyzer is ready exactly outside the building phases and then holds all three block-based
   levels, no reset falls between an analysis's check and its send, the branch for missing levels is never taken, and a
   stamp read in the current run is not below the run's base.
   */
  lemma {:induction false} EveryRun(schedule: seq<Choice>, max: nat)
    requires max >= 1
    ensures Inv(Run(schedule, max))
  {
    if schedule != [] {
      var n := |schedule| - 1;
      EveryRun(schedule[..n], max);
      StepKeeps(Run(schedule[..n], max), schedule[n], max);
    }
  }

  // ---------- when the branch for missing levels is dead ----------

  /** One step more, for following a schedule step by step. */
  lemma Then(schedule: seq<Choice>, c: Choice, max: nat) returns (longer: seq<Choice>)
    ensures longer == schedule + [c] && Run(longer, max) == Step(Run(schedule, max), c, max)
  {
    longer := schedule + [c];
    RunStep(schedule, c, max);
  }

  /** Initialisation with block 100. */
  function Start(): seq<Choice> {
    var b := MoveBlocks(BlockOf(100));
    [b, b, b, b, b]
  }

  lemma Started(max: nat)
    ensures var s := Run(Start(), max);
            var stored := max >= 1;
            s == INITIAL.(processing := AtRest, ready := true, levels := stored, stored := Min(1, max), working := 100,
                          latest := if stored then 100 else 0, base := if stored then 100 else 0)
  {
    hide Run;
    var b := MoveBlocks(BlockOf(100));
    RunStart(max);
    var t := Then([], b, max);
    t := Then(t, b, max);
    t := Then(t, b, max);
    t := Then(t, b, max);
    t := Then(t, b, max);
    assert t == Start();
  }

  /** Initialisation followed by one whole analysis. */
  function FirstAnalysis(): seq<Choice> {
    Start() + [MoveAnalysis, MoveAnalysis, MoveAnalysis, MoveAnalysis, MoveAnalysis]
  }

  /** With a store that keeps nothing the very first analysis finds no levels. */
  lemma WithoutStore()
    ensures Run(FirstAnalysis(), 0).emptySeen
  {
    hide Run;
    Started(0);
    var t := Then(Start(), MoveAnalysis, 0);
    t := Then(t, MoveAnalysis, 0);
    t := Then(t, MoveAnalysis, 0);
    t := Then(t, MoveAnalysis, 0);
    t := Then(t, MoveAnalysis, 0);
    assert t == FirstAnalysis();
  }

  /** The branch for missing levels stays dead in every run exactly when the store keeps at least one block. */
  lemma DeadBranchExactly(max: nat)
    ensures (forall schedule :: !Run(schedule, max).emptySeen) <==> max >= 1
  {
    if max >= 1 {
      forall schedule ensures !Run(schedule, max).emptySeen {
        EveryRun(schedule, max);
      }
    } else {
      WithoutStore();
    }
  }

  // ---------- which stamps are of the run ----------

  /** A resync at block 200, up to a worker's read after the reset. */
  function ReadInReset(): seq<Choice> {
    var r := MoveBlocks(ResyncAt(200));
    Start() + [r, r, r, MoveWorker(0)]
  }

  /** The resync stores and publishes its block. */
  function Restored(): seq<Choice> {
    var r := MoveBlocks(ResyncAt(200));
    ReadInReset() + [r, r, r]
  }

  /** The resync clears the pool. */
  function Cleared(): seq<Choice> {
    var r := MoveBlocks(ResyncAt(200));
    Restored() + [r, r]
  }

  /** The worker pushes once the pool was cleared. */
  function StaleRead(): seq<Choice> {
    Cleared() + [MoveWorker(0), MoveBlocks(ResyncAt(200))]
  }

  lemma ResetRead()
    ensures Run(ReadInReset(), 1)
            == INITIAL.(processing := ResyncClear, stored := 1, resets := 1, working := 200, base := 100,
                        stamps := map[0 := Stamp(0, false)])
  {
    hide Run, StepAnalysis;
    var r := MoveBlocks(ResyncAt(200));
    Started(1);
    var t := Then(Start(), r, 1);
    t := Then(t, r, 1);
    t := Then(t, r, 1);
    assert Outdated(map[]) == map[] && AllOutdated([]) == [];
    t := Then(t, MoveWorker(0), 1);
    assert t == ReadInReset();
  }

  lemma BlockRestored()
    ensures Run(Restored(), 1)
            == INITIAL.(processing := ResyncLevels, stored := 1, resets := 1, working := 200, latest := 200,
                        base := 200,
                        stamps := map[0 := Stamp(0, false)])
  {
    hide Run, StepAnalysis, StepWorker;
    var r := MoveBlocks(ResyncAt(200));
    ResetRead();
    var t := Then(ReadInReset(), r, 1);
    t := Then(t, r, 1);
    t := Then(t, r, 1);
    assert t == Restored();
  }

  lemma PoolCleared()
    ensures var s := Run(Cleared(), 1);
            && s.processing == ResyncReady && s.base == 200 && s.stamps == map[0 := Stamp(0, false)] && s.pushed == []
  {
    hide Run, StepAnalysis, StepWorker;
    var r := MoveBlocks(ResyncAt(200));
    BlockRestored();
    var t := Then(Restored(), r, 1);
    t := Then(t, r, 1);
    assert t == Cleared();
  }

  /** Block 0 ends up as the stamp of a pooled transaction although the run began at block 200. */
  lemma StaleStamp()
    ensures var s := Run(StaleRead(), 1);
            s.ready && s.processing == AtRest && s.base == 200 && s.pushed == [Stamp(0, false)]
  {
    hide Run, StepAnalysis;
    PoolCleared();
    var t := Then(Cleared(), MoveWorker(0), 1);
    t := Then(t, MoveBlocks(ResyncAt(200)), 1);
    assert t == StaleRead();
  }

  /** Every block that is begun has a higher number than all before it. */
  predicate Rising(schedule: seq<Choice>, max: nat) {
    schedule == [] ||
    (var s, c := Run(schedule[..|schedule| - 1], max), schedule[|schedule| - 1];
     Rising(schedule[..|schedule| - 1], max) && Rises(s, c))
  }

  predicate Rises(s: State, c: Choice) {
    c.MoveBlocks? && (s.processing.NotStarted? || s.processing.AtRest?) ==> c.begin.number > s.working
  }

  /** Begun and not yet published. */
  predicate Ahead(p: Processing) {
    p.InitAdd? || p.InitLatest? || p.BlockAdd? || p.BlockLatest?
    || p.ResyncLock? || p.ResyncWipe? || p.ResyncClear? || p.ResyncAdd? || p.ResyncLatest?
  }

  predicate StampBelow(s: State, stamp: Stamp) {
    && stamp.block <= s.working && (Ahead(s.processing) ==> stamp.block < s.working)
    && (!Unset(s.processing) && !stamp.inRun ==> stamp.block < s.base)
  }

  predicate StampsBelow(s: State) {
    && s.latest <= s.working && (Ahead(s.processing) ==> s.latest < s.working)
    && (!Unset(s.processing) ==> s.base <= s.latest)
    && (s.processing.NotStarted? ==> s.working == 0)
    && (!Unset(s.processing) && !Ahead(s.processing) ==> s.latest == s.working)
    && (forall id | id in s.stamps :: StampBelow(s, s.stamps[id]))
    && (forall i | 0 <= i < |s.pushed| :: StampBelow(s, s.pushed[i]))
  }

  lemma BlocksKeepBelow(s: State, begin: Begin, max: nat)
    requires Inv(s) && StampsBelow(s) && max >= 1 && Rises(s, MoveBlocks(begin)) && !Resyncing(s.processing)
    ensures StampsBelow(StepBlocks(s, begin, max))
  {
  }

  lemma ResyncKeepsBelow(s: State, begin: Begin, max: nat)
    requires Inv(s) && StampsBelow(s) && max >= 1 && Resyncing(s.processing)
    ensures StampsBelow(StepBlocks(s, begin, max))
  {
  }

  lemma WorkerKeepsBelow(s: State, id: nat)
    requires Inv(s) && StampsBelow(s)
    ensures StampsBelow(StepWorker(s, id))
  {
  }

  lemma AnalysisKeepsBelow(s: State)
    requires StampsBelow(s)
    ensures StampsBelow(StepAnalysis(s))
  {
    hide StampBelow;
    var t := StepAnalysis(s);
    assert t == s.(analysing := t.analysing, runMu := t.runMu, emptySeen := t.emptySeen, sends := t.sends);
    SameBelow(s, t);
  }

  lemma SameBelow(s: State, t: State)
    requires StampsBelow(s)
    requires t == s.(analysing := t.analysing, runMu := t.runMu, emptySeen := t.emptySeen, sends := t.sends)
    ensures StampsBelow(t)
  {
  }

  lemma {:induction false} EveryRunBelow(schedule: seq<Choice>, max: nat)
    requires max >= 1 && Rising(schedule, max)
    ensures StampsBelow(Run(schedule, max))
  {
    if schedule != [] {
      hide Inv, StampsBelow, StepBlocks, StepAnalysis, StepWorker;
      var n := |schedule| - 1;
      var s := Run(schedule[..n], max);
      EveryRunBelow(schedule[..n], max);
      EveryRun(schedule[..n], max);
      match schedule[n]
      case MoveBlocks(begin) =>
        if Resyncing(s.processing) {
          ResyncKeepsBelow(s, begin, max);
        } else {
          BlocksKeepBelow(s, begin, max);
        }
      case MoveAnalysis => AnalysisKeepsBelow(s);
      case MoveWorker(id) => WorkerKeepsBelow(s, id);
    }
  }

  /**
   While block numbers rise, a pushed or held stamp is a block of the run, not below its base, exactly when it was
   read in the run: after the first block since the last reset was published.
   */
  lemma StampExact(schedule: seq<Choice>, max: nat)
    requires max >= 1 && Rising(schedule, max) && !Unset(Run(schedule, max).processing)
    ensures var s := Run(schedule, max);
            && (forall id | id in s.stamps :: s.stamps[id].inRun <==> s.stamps[id].block >= s.base)
            && (forall i | 0 <= i < |s.pushed| :: s.pushed[i].inRun <==> s.pushed[i].block >= s.base)
  {
    EveryRun(schedule, max);
    EveryRunBelow(schedule, max);
  }

  /**
   While block numbers rise, outside the unset phases the published block lies between the base of the run and the
   block in work, and it is the latter exactly once that one was published.
   */
  lemma LatestExact(schedule: seq<Choice>, max: nat)
    requires max >= 1 && Rising(schedule, max) && !Unset(Run(schedule, max).processing)
    ensures var s := Run(schedule, max);
            s.base <= s.latest <= s.working && (s.latest == s.working <==> !Ahead(s.processing))
  {
    EveryRunBelow(schedule, max);
  }
}
