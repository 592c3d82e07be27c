/** The tag and the admission file stay while a start may still take effect. */
module RunSafety {
  import opened RunController
  import opened RunOwnership

  /** A start of this receipt's run would be refused by the clock. */
  predicate Late(now: int, v: Receipt) {
    now >= v.deadline - STOP_MARGIN
  }

  /** The process may go on to the start call without another write. */
  predicate Committed(now: int, p: Proc) {
    p.pc == StartCall || (p.pc == StartClock && !Late(now, p.value))
  }

  /** No start of this run is pending, nor about to be issued. */
  ghost predicate Quiet(s: State, r: Run) {
    r !in s.cloud.starts
    && forall pid | pid in s.procs && s.procs[pid].run == r :: !Committed(s.now, s.procs[pid])
  }

  /** Between its look at the admission file and its record of the intent. */
  predicate Starting(pc: Pc) {
    pc == StartObserve || pc == StartAdmission || pc == StartClaim || pc == StartReobserve || pc == StartWriteIntent
  }

  /** The admission file is this run's already, and none of its starts is past
      looking for it: the next one is refused. */
  ghost predicate Barred(s: State, r: Run) {
    s.admission == Of(r) && forall pid | pid in s.procs && s.procs[pid].run == r :: !Starting(s.procs[pid].pc)
  }

  /** No further start of this run can be committed to. */
  ghost predicate Spent(s: State, r: Run) {
    r in s.receipts && (s.receipts[r].state != Armed || Late(s.now, s.receipts[r]) || Barred(s, r))
  }

  /** No start of this run can take effect any more. */
  ghost predicate Settled(s: State, r: Run) {
    Quiet(s, r) && Spent(s, r)
  }

  /** A start has tagged an instance that is not stopped, and is about to see that;
      nobody supervises it. */
  ghost predicate Window(s: State, r: Run) {
    !Supervised(s, r) && exists pid :: pid in s.procs && s.procs[pid].run == r && s.procs[pid].pc == StartReobserve
  }

  // ------------------------------------------------------------- deadlines

  /** Every receipt a process works on has its run's deadline. */
  predicate DatedProc(s: State, p: Proc) {
    p.run in s.receipts
    && (p.watcher || (p.pc != StartLock && p.pc != StopLock) ==> p.value.deadline == s.receipts[p.run].deadline)
    && (p.watcher ==> p.memory.deadline == s.receipts[p.run].deadline)
  }

  ghost predicate Dated(s: State) {
    forall pid | pid in s.procs :: DatedProc(s, s.procs[pid])
  }

  /** No deadline ever changes. */
  predicate SameDeadlines(s: State, t: State) {
    forall r | r in s.receipts :: r in t.receipts && t.receipts[r].deadline == s.receipts[r].deadline
  }

  predicate KeepsDates(s: State, next: Next) {
    match next
    case Wait => true
    case End(t) => SameDeadlines(s, t)
    case To(t, q) => SameDeadlines(s, t) && DatedProc(t, q)
  }

  lemma StartKeepsDates(s: State, p: Proc)
    requires DatedProc(s, p) && !p.watcher
    ensures KeepsDates(s, GoStart(s, p))
  {
  }

  lemma StopKeepsDates(s: State, p: Proc)
    requires DatedProc(s, p) && (p.fault ==> p.watcher) && !IsStart(p.pc)
    ensures KeepsDates(s, GoStop(s, p))
  {
    DecisionsKeepDates(p.value, p.run, s.cloud);
    hide Decide, DecideAgain;
  }

  lemma DecisionsKeepDates(v: Receipt, r: Run, c: Cloud)
    ensures Decide(v, r, c).0.deadline == v.deadline && DecideAgain(v, r, c).0.deadline == v.deadline
  {
  }

  lemma WatchKeepsDates(s: State, p: Proc)
    requires DatedProc(s, p) && p.watcher
    ensures KeepsDates(s, GoWatch(s, p))
  {
  }

  lemma FailKeepsDates(s: State, p: Proc)
    requires DatedProc(s, p) && (p.fault || p.pc == WatchIdle ==> p.watcher) && (p.pc == StopLock || IsStart(p.pc) ==> !p.fault)
    ensures KeepsDates(s, FailAt(s, p))
  {
  }

  lemma NextKeepsDates(s: State, p: Proc)
    requires DatedProc(s, p) && ProcBase(s, p)
    ensures KeepsDates(s, GoNext(s, p)) && KeepsDates(s, FailAt(s, p))
  {
    FailKeepsDates(s, p);
    if IsStart(p.pc) { StartKeepsDates(s, p); }
    else if p.pc == WatchIdle || p.pc == WatchDecide { WatchKeepsDates(s, p); }
    else { StopKeepsDates(s, p); }
    hide KeepsDates, DatedProc, GoStart, GoStop, GoWatch, FailAt;
  }

  lemma StillDated(s: State, t: State, p: Proc)
    requires DatedProc(s, p) && SameDeadlines(s, t)
    ensures DatedProc(t, p)
  {
  }

  lemma WatchersWatch(s: State, pid: Pid)
    requires Base(s) && pid in s.procs
    ensures var p := s.procs[pid]; p.fault || p.pc == WatchIdle || p.pc == WatchDecide ==> p.watcher
  {
    BaseAt(s, pid);
    hide Base;
  }

  lemma DeadlinesStay(s: State, a: Action)
    requires Base(s) && Dated(s)
    ensures SameDeadlines(s, Apply(s, a))
  {
    hide Base;
    if (a.Go? || a.Fail?) && a.pid in s.procs {
      BaseAt(s, a.pid);
      NextKeepsDates(s, s.procs[a.pid]);
      hide GoNext, FailAt;
    } else if ByCloud(a) {
      CloudFrame(s, a);
      hide ApplyCloud;
    }
  }

  lemma StaysDated(s: State, a: Action)
    requires Base(s) && Dated(s)
    ensures Dated(Apply(s, a))
  {
    hide Base;
    var t := Apply(s, a);
    DeadlinesStay(s, a);
    forall pid | pid in t.procs ensures DatedProc(t, t.procs[pid]) { ProcStaysDated(s, a, pid); }
    hide Apply;
  }

  lemma ProcStaysDated(s: State, a: Action, pid: Pid)
    requires Base(s) && Dated(s) && pid in Apply(s, a).procs
    ensures DatedProc(Apply(s, a), Apply(s, a).procs[pid])
  {
    hide Base, GoNext, FailAt, DatedProc;
    WhoseProc(s, a, pid);
    DeadlinesStay(s, a);
    if pid !in s.procs {
      SpawnIsDated(s, a);
    } else {
      StillDated(s, Apply(s, a), s.procs[pid]);
      BaseAt(s, pid);
      NextKeepsDates(s, s.procs[pid]);
      OwnStaysDated(s, a, pid);
    }
  }

  lemma OwnStaysDated(s: State, a: Action, pid: Pid)
    requires (a == Go(pid) || a == Fail(pid)) && pid in s.procs ==>
      var n := if a.Go? then GoNext(s, s.procs[pid]) else FailAt(s, s.procs[pid]);
      n.To? ==> DatedProc(n.shared, n.proc)
    ensures (a == Go(pid) || a == Fail(pid)) && pid in s.procs ==>
      var n := if a.Go? then GoNext(s, s.procs[pid]) else FailAt(s, s.procs[pid]);
      n.To? ==> DatedProc(Apply(s, a), n.proc)
  {
    hide GoNext, FailAt;
  }

  lemma SpawnIsDated(s: State, a: Action)
    requires a.Spawn? && a.pid !in s.procs && a.pid in Apply(s, a).procs
    ensures DatedProc(Apply(s, a), Apply(s, a).procs[a.pid])
  {
  }

  /** A receipt that claims no start can take effect any more. */
  predicate Claims(v: Receipt) {
    v.state == Stopped || (v.state != Armed && !v.Uncertain())
  }

  /** A retained receipt: what it claims is so, and one that was never past
      `armed` counts as uncertain once a fault has marked it requested. */
  predicate Retained(v: Receipt, settled: bool) {
    (Claims(v) ==> settled) && (v.state == Armed && v.requested ==> v.Uncertain())
  }

  /** What holds at each position of a process about its own run. */
  predicate SafeAt(p: Proc, settled: bool, quiet: bool, off: bool) {
    && Retained(p.memory, settled)
    && match p.pc
       case StartRecord => Claims(p.value) ==> settled
       case StartWriteRefused => settled
       case StopObserve => p.fault ==> Retained(p.value, settled)
       case StopCall => settled
       case StopReobserve => settled
       case StopHandler => Claims(p.value) ==> settled
       case PublishLock => Claims(p.value) ==> settled
       case PublishWrite => Claims(p.value) ==> if p.fault then settled else quiet
       case PublishObserve => settled
       case ReleaseTag => settled && off
       case ReleaseAdmission => settled
       case Unlink => settled
       case _ => true
  }

  ghost predicate ProcSafe(s: State, p: Proc) {
    SafeAt(p, Settled(s, p.run), Quiet(s, p.run), s.cloud.power == Off)
  }

  ghost predicate FilesSafe(s: State) {
    && (forall r | r in s.receipts && Claims(s.receipts[r]) :: Settled(s, r))
    && (forall r | r in s.cloud.starts :: s.cloud.owner == Ours(r))
    && (s.cloud.owner.Ours? && s.cloud.power != Off ==> Settled(s, s.cloud.owner.run) || Window(s, s.cloud.owner.run))
  }

  ghost predicate Safe(s: State) {
    Base(s) && Dated(s) && FilesSafe(s) && forall pid | pid in s.procs :: ProcSafe(s, s.procs[pid])
  }

  // ------------------------------------------------ quiet and settled stay

  /** The step about to be taken neither commits this run to a start nor issues one. */
  predicate NoCommit(s: State, a: Action, r: Run) {
    a.Go? && a.pid in s.procs && s.procs[a.pid].run == r ==>
      && s.procs[a.pid].pc != StartCall
      && (s.procs[a.pid].pc == StartWriteIntent ==> Late(s.now, s.procs[a.pid].value))
  }

  lemma WhoCommitsNext(s: State, p: Proc)
    ensures var n := GoNext(s, p);
      n.To? && Committed(s.now, n.proc) ==>
        n.proc.run == p.run && (Committed(s.now, p) || (p.pc == StartWriteIntent && !Late(s.now, p.value)))
    ensures var n := FailAt(s, p); n.To? ==> !Committed(s.now, n.proc)
  {
  }

  lemma NextKeepsProcs(s: State, p: Proc)
    ensures GoNext(s, p).To? ==> GoNext(s, p).shared.procs == s.procs
    ensures GoNext(s, p).End? ==> GoNext(s, p).shared.procs == s.procs
    ensures FailAt(s, p).To? ==> FailAt(s, p).shared.procs == s.procs
    ensures FailAt(s, p).End? ==> FailAt(s, p).shared.procs == s.procs
  {
    StopKeepsProcs(s, p);
    hide GoStop;
  }

  lemma StopKeepsProcs(s: State, p: Proc)
    ensures GoStop(s, p).To? ==> GoStop(s, p).shared.procs == s.procs
    ensures GoStop(s, p).End? ==> GoStop(s, p).shared.procs == s.procs
  {
    hide Decide, DecideAgain;
  }

  lemma WhoCommits(s: State, a: Action, pid: Pid)
    requires pid in Apply(s, a).procs && Committed(Apply(s, a).now, Apply(s, a).procs[pid])
    ensures pid in s.procs && s.procs[pid].run == Apply(s, a).procs[pid].run
    ensures Committed(s.now, s.procs[pid])
         || (a == Go(pid) && s.procs[pid].pc == StartWriteIntent && !Late(s.now, s.procs[pid].value))
  {
    hide Apply, GoNext, FailAt;
    WhoseProc(s, a, pid);
    if pid !in s.procs {
      SpawnsOutside(s, a);
    } else {
      TimePasses(s, a);
      if a == Go(pid) || a == Fail(pid) {
        NowStays(s, a);
        WhoCommitsNext(s, s.procs[pid]);
      }
    }
  }

  lemma NowStays(s: State, a: Action)
    requires a.Go? || a.Fail?
    ensures Apply(s, a).now == s.now
  {
  }

  lemma WhoIssues(s: State, a: Action, r: Run)
    requires r in Apply(s, a).cloud.starts && r !in s.cloud.starts
    ensures a.Go? && a.pid in s.procs && s.procs[a.pid].pc == StartCall && s.procs[a.pid].run == r
  {
  }

  lemma QuietStays(s: State, a: Action, r: Run)
    requires Quiet(s, r) && NoCommit(s, a, r)
    ensures Quiet(Apply(s, a), r)
  {
    hide Apply;
    var t := Apply(s, a);
    if r in t.cloud.starts { WhoIssues(s, a, r); }
    forall pid | pid in t.procs && t.procs[pid].run == r ensures !Committed(t.now, t.procs[pid]) {
      if Committed(t.now, t.procs[pid]) { WhoCommits(s, a, pid); }
    }
  }

  lemma NextKeepsUnarmed(s: State, pid: Pid, next: Next, r: Run)
    requires Ready(s, pid) && r in s.receipts && s.receipts[r].state != Armed
    requires next == GoNext(s, s.procs[pid]) || next == FailAt(s, s.procs[pid])
    ensures next != Wait ==> r in next.shared.receipts && next.shared.receipts[r].state != Armed
  {
    hide ProcBase, FilesBase;
    if Writes(s.procs[pid].pc) { WritesUnarmed(s, s.procs[pid]); }
  }

  lemma WritesUnarmed(s: State, p: Proc)
    requires ProcBase(s, p) && Writes(p.pc)
    ensures p.run in s.receipts && (p.value.state != Armed || p.value == s.receipts[p.run])
  {
  }

  lemma UnarmedStays(s: State, a: Action, r: Run)
    requires Base(s) && r in s.receipts && s.receipts[r].state != Armed
    ensures r in Apply(s, a).receipts && Apply(s, a).receipts[r].state != Armed
  {
    if (a.Go? || a.Fail?) && a.pid in s.procs {
      assert ProcBase(s, s.procs[a.pid]);
      hide LocksExclude, ProcBase, FilesBase, GoNext, FailAt;
      NextKeepsUnarmed(s, a.pid, if a.Go? then GoNext(s, s.procs[a.pid]) else FailAt(s, s.procs[a.pid]), r);
    } else if ByCloud(a) {
      CloudFrame(s, a);
      hide ApplyCloud, Base;
    }
  }

  lemma TimePasses(s: State, a: Action)
    ensures Apply(s, a).now >= s.now
  {
  }

  /** A process starts only where there is no admission file. */
  lemma WhoStarts(s: State, p: Proc)
    requires ProcBase(s, p)
    ensures var n := GoNext(s, p); n.To? && Starting(n.proc.pc) ==> Starting(p.pc) || s.admission == Absent
    ensures var n := FailAt(s, p); n.To? ==> !Starting(n.proc.pc)
  {
    StartsFrom(s, p);
    OnlyStartsStart(s, p);
    hide GoStart, GoStop, GoWatch, FailAt, ProcBase, Starting;
  }

  lemma StartsFrom(s: State, p: Proc)
    ensures var n := GoStart(s, p); n.To? && Starting(n.proc.pc) ==> Starting(p.pc) || s.admission == Absent
  {
  }

  lemma OnlyStartsStart(s: State, p: Proc)
    ensures GoStop(s, p).To? ==> !Starting(GoStop(s, p).proc.pc)
    ensures GoWatch(s, p).To? ==> !Starting(GoWatch(s, p).proc.pc)
    ensures FailAt(s, p).To? ==> !Starting(FailAt(s, p).proc.pc)
  {
    hide Settle;
  }

  lemma SpawnsOutside(s: State, a: Action)
    requires a.Spawn? && a.pid !in s.procs && a.pid in Apply(s, a).procs
    ensures !Starting(Apply(s, a).procs[a.pid].pc) && !Committed(Apply(s, a).now, Apply(s, a).procs[a.pid])
    ensures !HoldsReceipt(Apply(s, a).procs[a.pid])
  {
  }

  lemma NobodyStarts(s: State, a: Action, r: Run, pid: Pid)
    requires Base(s) && Barred(s, r) && pid in Apply(s, a).procs && Apply(s, a).procs[pid].run == r
    ensures !Starting(Apply(s, a).procs[pid].pc)
  {
    hide Apply, Base, GoNext, FailAt;
    WhoseProc(s, a, pid);
    if pid in s.procs {
      BaseAt(s, pid);
      WhoStarts(s, s.procs[pid]);
      NextKeepsRun(s, s.procs[pid]);
    } else {
      SpawnsOutside(s, a);
    }
  }

  lemma BarredStays(s: State, a: Action, r: Run)
    requires Base(s) && Barred(s, r) && r in s.receipts && s.receipts[r].state == Armed
    ensures Barred(Apply(s, a), r)
  {
    hide Apply, ProcBase, LocksExclude, FilesBase;
    forall pid | pid in Apply(s, a).procs && Apply(s, a).procs[pid].run == r ensures !Starting(Apply(s, a).procs[pid].pc) {
      NobodyStarts(s, a, r, pid);
    }
    if Apply(s, a).admission != s.admission {
      WhoMovesAdmission(s, a);
      ReleasesStopped(s, s.procs[a.pid]);
    }
  }

  lemma ReleasesStopped(s: State, p: Proc)
    requires ProcBase(s, p)
    ensures p.pc == StartAdmission ==> s.admission == Absent
    ensures p.pc == Unlink ==> p.run in s.receipts && s.receipts[p.run].state == Stopped && s.admission == Of(p.run)
  {
  }

  lemma SpentStays(s: State, a: Action, r: Run)
    requires Base(s) && Dated(s) && Spent(s, r)
    ensures Spent(Apply(s, a), r)
  {
    hide Apply, Base, Dated, Barred;
    DeadlinesStay(s, a);
    TimePasses(s, a);
    if s.receipts[r].state != Armed {
      UnarmedStays(s, a, r);
    } else if Barred(s, r) {
      BarredStays(s, a, r);
    }
  }

  lemma IntentsWait(s: State, p: Proc)
    requires ProcBase(s, p) && p.pc == StartWriteIntent
    ensures p.run in s.receipts && s.receipts[p.run].state == Armed && Starting(p.pc)
  {
  }

  lemma SettledStays(s: State, a: Action, r: Run)
    requires Base(s) && Dated(s) && Settled(s, r)
    ensures Settled(Apply(s, a), r)
  {
    hide Apply, Base;
    if a.Go? && a.pid in s.procs {
      BaseAt(s, a.pid);
      if s.procs[a.pid].pc == StartWriteIntent { IntentsWait(s, s.procs[a.pid]); }
    }
    assert NoCommit(s, a, r);
    hide Dated, Spent;
    SpentStays(s, a, r);
    QuietStays(s, a, r);
  }

  // --------------------------------------------------- the other processes

  lemma OffStays(s: State, a: Action, r: Run)
    requires FilesSafe(s) && s.cloud.owner == Ours(r) && s.cloud.power == Off && r !in s.cloud.starts
    ensures Apply(s, a).cloud.power == Off
  {
  }

  /** Only what the process relies on has to carry over. */
  lemma SafeAtMono(p: Proc, settled: bool, quiet: bool, off: bool, settled': bool, quiet': bool, off': bool)
    requires SafeAt(p, settled, quiet, off) && (settled ==> settled')
    requires p.pc == PublishWrite && !p.fault && Claims(p.value) ==> quiet'
    requires p.pc == ReleaseTag ==> off'
    ensures SafeAt(p, settled', quiet', off')
  {
  }

  /** A supervisor or stop about to publish is not overtaken by a start. */
  lemma PublishesQuietly(s: State, a: Action, q: Pid)
    requires LocksExclude(s) && q in s.procs && s.procs[q].pc == PublishWrite && !(a.Go? && a.pid == q)
    ensures NoCommit(s, a, s.procs[q].run)
  {
    if a.Go? && a.pid in s.procs && a.pid != q { ReceiptsExclude(s, a.pid, q); }
    hide LocksExclude, HoldsAdmission;
  }

  lemma OtherStaysSafe(s: State, a: Action, q: Pid)
    requires Safe(s) && q in s.procs && !((a.Go? || a.Fail? || a.Tear? || a.Crash?) && a.pid == q)
    ensures ProcSafe(Apply(s, a), s.procs[q])
  {
    hide Apply, ProcBase, LocksExclude, FilesBase, Dated, Settled, Quiet, FilesSafe, SafeAt, NoCommit;
    var o, t := s.procs[q], Apply(s, a);
    assert ProcSafe(s, o);
    if Settled(s, o.run) { SettledStays(s, a, o.run); }
    if o.pc == ReleaseTag { ReleasesTag(s, a, q); }
    if o.pc == PublishWrite && !o.fault && Claims(o.value) {
      PublishClaims(o, Settled(s, o.run), Quiet(s, o.run), s.cloud.power == Off);
      PublishesQuietly(s, a, q);
      QuietStays(s, a, o.run);
    }
    SafeAtMono(o, Settled(s, o.run), Quiet(s, o.run), s.cloud.power == Off,
               Settled(t, o.run), Quiet(t, o.run), t.cloud.power == Off);
  }

  lemma PublishClaims(p: Proc, settled: bool, quiet: bool, off: bool)
    requires SafeAt(p, settled, quiet, off) && p.pc == PublishWrite && !p.fault && Claims(p.value)
    ensures quiet
  {
  }

  lemma ReleasesTag(s: State, a: Action, q: Pid)
    requires Safe(s) && q in s.procs && s.procs[q].pc == ReleaseTag
    ensures Apply(s, a).cloud.power == Off
  {
    hide Apply, LocksExclude, FilesBase, Dated, Settled, SafeAt, ProcBase;
    var o := s.procs[q];
    assert ProcSafe(s, o);
    BaseAt(s, q);
    SettledThere(o, Settled(s, o.run), Quiet(s, o.run), s.cloud.power == Off);
    OwnedThere(s, o);
    SettledIsQuiet(s, o.run);
    hide FilesSafe, ProcSafe;
    OffStays(s, a, o.run);
  }

  lemma SettledIsQuiet(s: State, r: Run)
    ensures Settled(s, r) ==> Quiet(s, r) && r !in s.cloud.starts
  {
  }

  // ------------------------------------------------------ the process itself

  /** What a process relies on as it takes a step, and how it carries over. */
  ghost predicate Carries(s: State, p: Proc, settled: bool, quiet: bool, settled': bool, quiet': bool) {
    && ProcBase(s, p) && SafeAt(p, settled, quiet, s.cloud.power == Off)
    && (settled ==> settled' && quiet) && (quiet ==> quiet')
    && (Claims(s.receipts[p.run]) ==> settled)
    && (s.receipts[p.run].state == Armed ==> !s.receipts[p.run].requested)
  }

  /** What it knows of its own run besides. */
  ghost predicate Knows(s: State, p: Proc, settled: bool, quiet: bool, settled': bool, quiet': bool) {
    var r := p.run;
    && Carries(s, p, settled, quiet, settled', quiet')
    && (p.pc == StartConfirm || p.pc == StopObserve || p.pc == StopReobserve ==>
          (s.cloud.owner == Ours(r) && s.cloud.power != Off ==> settled))
    // Under the receipt lock of a stop an armed receipt has no start on its way.
    && (p.pc == StopObserve && !p.fault && s.receipts[r].state == Armed ==> quiet)
    // A start that is refused never calls, and a receipt written is past `armed`.
    && (p.pc == StartClock ==> settled' || s.now < p.value.deadline - STOP_MARGIN)
    && (p.pc == PublishWrite && quiet ==> settled')
  }

  lemma StartSafe(s: State, p: Proc, settled: bool, quiet: bool, settled': bool, quiet': bool)
    requires Knows(s, p, settled, quiet, settled', quiet') && IsStart(p.pc)
    ensures var n := GoStart(s, p); n.To? ==> SafeAt(n.proc, settled', quiet', n.shared.cloud.power == Off)
  {
  }

  lemma DecisionsSafe(s: State, p: Proc, settled: bool, quiet: bool, settled': bool, quiet': bool)
    requires Knows(s, p, settled, quiet, settled', quiet') && (p.pc == StopObserve || p.pc == StopReobserve)
    ensures var next := if p.pc == StopObserve then Decide(p.value, p.run, s.cloud) else DecideAgain(p.value, p.run, s.cloud);
      && (next.1 == StopCall || next.1 == StopReobserve ==> settled)
      && (next.1 == StopHandler ==> next.0 == p.value)
      && (next.1 == PublishWrite && Claims(next.0) ==> if p.fault then settled else quiet)
  {
  }

  lemma StopSafe(s: State, p: Proc, settled: bool, quiet: bool, settled': bool, quiet': bool)
    requires Knows(s, p, settled, quiet, settled', quiet') && !IsStart(p.pc) && !p.pc.WatchIdle? && !p.pc.WatchDecide?
    ensures var n := GoStop(s, p); n.To? ==> SafeAt(n.proc, settled', quiet', n.shared.cloud.power == Off)
  {
    if p.pc == StopObserve || p.pc == StopReobserve {
      DecisionsSafe(s, p, settled, quiet, settled', quiet');
      DecisionsFit(s, p);
      hide Decide, DecideAgain;
    }
  }

  lemma WatchSafe(s: State, p: Proc, settled: bool, quiet: bool, settled': bool, quiet': bool)
    requires Knows(s, p, settled, quiet, settled', quiet') && (p.pc.WatchIdle? || p.pc.WatchDecide?)
    ensures var n := GoWatch(s, p); n.To? ==> SafeAt(n.proc, settled', quiet', n.shared.cloud.power == Off)
  {
  }

  lemma FailSafe(s: State, p: Proc, settled: bool, quiet: bool, settled': bool, quiet': bool)
    requires Carries(s, p, settled, quiet, settled', quiet')
    ensures var n := FailAt(s, p); n.To? ==> SafeAt(n.proc, settled', quiet', n.shared.cloud.power == Off)
  {
  }

  lemma StepCarries(s: State, a: Action)
    requires Safe(s) && (a.Go? || a.Fail?) && a.pid in s.procs
    requires a.Go? ==> s.procs[a.pid].pc != StartWriteIntent && s.procs[a.pid].pc != StartCall
    ensures var p, t := s.procs[a.pid], Apply(s, a);
      p.run in s.receipts
      && Carries(s, p, Settled(s, p.run), Quiet(s, p.run), Settled(t, p.run), Quiet(t, p.run))
  {
    var p, t := s.procs[a.pid], Apply(s, a);
    assert ProcSafe(s, p) && ProcBase(s, p);
    if Settled(s, p.run) { SettledStays(s, a, p.run); }
    if Quiet(s, p.run) { QuietStays(s, a, p.run); }
    assert Settled(s, p.run) ==> Quiet(s, p.run);
    hide Apply, Base, Settled, Quiet, FilesSafe, SafeAt;
  }

  /** Whoever holds the receipt lock, no other process of the run is committed, or starting. */
  lemma HolderIsAlone(s: State, pid: Pid)
    requires LocksExclude(s) && pid in s.procs && HoldsReceipt(s.procs[pid])
    ensures forall x | x in s.procs && x != pid && s.procs[x].run == s.procs[pid].run ::
      !Committed(s.now, s.procs[x]) && !Starting(s.procs[x].pc)
  {
    hide LocksExclude, HoldsReceipt;
    forall x | x in s.procs && x != pid && s.procs[x].run == s.procs[pid].run
      ensures !Committed(s.now, s.procs[x]) && !Starting(s.procs[x].pc)
    {
      ReceiptsExclude(s, x, pid);
      StartersHold(s.now, s.procs[x]);
    }
  }

  lemma StartersHold(now: int, p: Proc)
    ensures Committed(now, p) || Starting(p.pc) ==> HoldsReceipt(p)
  {
  }

  lemma UnissuedIsUnpending(s: State, r: Run)
    requires FilesBase(s) && r in s.receipts && s.receipts[r].state == Armed
    ensures r !in s.issued && r !in s.cloud.starts
  {
  }

  lemma ArmedIsQuiet(s: State, pid: Pid)
    requires Base(s) && pid in s.procs && HoldsReceipt(s.procs[pid]) && !IsStart(s.procs[pid].pc)
    requires s.procs[pid].run in s.receipts && s.receipts[s.procs[pid].run].state == Armed
    ensures Quiet(s, s.procs[pid].run)
  {
    hide LocksExclude, ProcBase, FilesBase, HoldsReceipt;
    HolderIsAlone(s, pid);
    UnissuedIsUnpending(s, s.procs[pid].run);
  }

  lemma RefusedIsSettled(s: State, pid: Pid)
    requires Safe(s) && pid in s.procs && s.procs[pid].pc == StartClock
    requires s.now >= s.procs[pid].value.deadline - STOP_MARGIN
    ensures Settled(Apply(s, Go(pid)), s.procs[pid].run)
  {
    hide Apply, GoNext, FilesSafe, FilesBase, ProcBase, ProcSafe, LocksExclude, HoldsReceipt;
    var p, t := s.procs[pid], Apply(s, Go(pid));
    BaseAt(s, pid);
    ClockRefuses(s, pid);
    AtClock(s, p);
    var q := GoNext(s, p).proc;
    NextKeepsRun(s, p);
    assert HoldsReceipt(p) by { ClockHolds(p); }
    HolderIsAlone(s, pid);
  }

  lemma ClockHolds(p: Proc)
    ensures p.pc == StartClock || p.pc == StartClaim || p.pc == StartReobserve ==> HoldsReceipt(p)
  {
  }

  /** At the clock no start of the run is pending, and its receipt is past `armed`. */
  lemma AtClock(s: State, p: Proc)
    requires ProcBase(s, p) && FilesBase(s) && p.pc == StartClock
    ensures p.run !in s.cloud.starts && p.run in s.receipts && Intent(s.receipts[p.run])
  {
  }

  lemma ClockRefuses(s: State, pid: Pid)
    requires pid in s.procs && s.procs[pid].pc == StartClock && s.now >= s.procs[pid].value.deadline - STOP_MARGIN
    ensures GoNext(s, s.procs[pid]).To? && Apply(s, Go(pid)) == Put(s, pid, GoNext(s, s.procs[pid]).proc)
    ensures GoNext(s, s.procs[pid]).proc.pc == StartWriteRefused
  {
  }

  lemma PublishedIsSettled(s: State, pid: Pid)
    requires Safe(s) && pid in s.procs && s.procs[pid].pc == PublishWrite && Quiet(s, s.procs[pid].run)
    ensures Settled(Apply(s, Go(pid)), s.procs[pid].run)
  {
    hide Quiet, Base, FilesSafe, ProcSafe, Apply;
    var p := s.procs[pid];
    assert ProcBase(s, p) by { BaseAt(s, pid); }
    PublishWrites(s, pid);
    QuietStays(s, Go(pid), p.run);
  }

  lemma BaseAt(s: State, pid: Pid)
    requires Base(s) && pid in s.procs
    ensures ProcBase(s, s.procs[pid])
  {
    hide ProcBase, LocksExclude, FilesBase;
  }

  lemma PublishWrites(s: State, pid: Pid)
    requires pid in s.procs && s.procs[pid].pc == PublishWrite
    ensures var p, t := s.procs[pid], Apply(s, Go(pid)); p.run in t.receipts && t.receipts[p.run] == p.value
  {
  }

  lemma StepKnows(s: State, pid: Pid)
    requires Safe(s) && pid in s.procs && s.procs[pid].pc != StartWriteIntent && s.procs[pid].pc != StartCall
    ensures var p, t := s.procs[pid], Apply(s, Go(pid));
      p.run in s.receipts && Knows(s, p, Settled(s, p.run), Quiet(s, p.run), Settled(t, p.run), Quiet(t, p.run))
  {
    var p := s.procs[pid];
    StepCarries(s, Go(pid));
    if p.pc == StopObserve && !p.fault && s.receipts[p.run].state == Armed { ArmedIsQuiet(s, pid); }
    if p.pc == StartClock && s.now >= p.value.deadline - STOP_MARGIN { RefusedIsSettled(s, pid); }
    if p.pc == PublishWrite && Quiet(s, p.run) { PublishedIsSettled(s, pid); }
    if p.pc == StartConfirm || p.pc == StopObserve || p.pc == StopReobserve { NoWindowHere(s, pid); }
    hide Apply, Settled, Quiet, Carries, LocksExclude, ProcBase, Window;
  }

  /** Nobody of a run decides on what it observes while a start of it is in the window. */
  lemma NoWindowHere(s: State, pid: Pid)
    requires Base(s) && pid in s.procs
    requires s.procs[pid].pc == StartConfirm || s.procs[pid].pc == StopObserve || s.procs[pid].pc == StopReobserve
    ensures !Window(s, s.procs[pid].run)
  {
    var p := s.procs[pid];
    WatchersWatch(s, pid);
    hide LocksExclude, ProcBase, FilesBase;
    if !Supervised(s, p.run) {
      assert !p.fault;
      HolderIsAlone(s, pid);
    }
  }

  lemma NextKeepsRun(s: State, p: Proc)
    ensures GoNext(s, p).To? ==> GoNext(s, p).proc.run == p.run
    ensures FailAt(s, p).To? ==> FailAt(s, p).proc.run == p.run
  {
  }

  lemma NextKeepsCloud(s: State, a: Action)
    requires (a.Go? || a.Fail?) && a.pid in s.procs
    ensures var n := if a.Go? then GoNext(s, s.procs[a.pid]) else FailAt(s, s.procs[a.pid]);
      n.To? ==> Apply(s, a).cloud == n.shared.cloud
  {
    hide GoNext, FailAt;
  }

  lemma OwnGoSafe(s: State, pid: Pid)
    requires Safe(s) && pid in s.procs && GoNext(s, s.procs[pid]).To?
    ensures ProcSafe(Apply(s, Go(pid)), GoNext(s, s.procs[pid]).proc)
  {
    var p, t := s.procs[pid], Apply(s, Go(pid));
    NextKeepsRun(s, p);
    NextKeepsCloud(s, Go(pid));
    if p.pc == StartWriteIntent || p.pc == StartCall {
      CommitSafe(s, pid);
    } else {
      StepKnows(s, pid);
      hide Settled, Quiet, Safe, Knows, SafeAt, GoStart, GoStop, GoWatch, Apply;
      var settled, quiet, settled', quiet' := Settled(s, p.run), Quiet(s, p.run), Settled(t, p.run), Quiet(t, p.run);
      if IsStart(p.pc) { StartSafe(s, p, settled, quiet, settled', quiet'); }
      else if p.pc == WatchIdle || p.pc == WatchDecide { WatchSafe(s, p, settled, quiet, settled', quiet'); }
      else { StopSafe(s, p, settled, quiet, settled', quiet'); }
    }
  }

  /** Committing to a start, or issuing it, unsettles nothing the supervisors retain. */
  lemma CommitSafe(s: State, pid: Pid)
    requires Safe(s) && pid in s.procs && (s.procs[pid].pc == StartWriteIntent || s.procs[pid].pc == StartCall)
    ensures var n := GoNext(s, s.procs[pid]); n.To? ==> ProcSafe(Apply(s, Go(pid)), n.proc)
  {
    hide Base, FilesSafe, Settled, Quiet, GoNext, Apply, SafeAt;
    var p, t := s.procs[pid], Apply(s, Go(pid));
    assert ProcSafe(s, p);
    if Settled(s, p.run) { SettledStays(s, Go(pid), p.run); }
    CommitRemembers(s, p, Settled(s, p.run), Quiet(s, p.run), Settled(t, p.run), Quiet(t, p.run), t.cloud.power == Off);
  }

  lemma CommitRemembers(s: State, p: Proc, settled: bool, quiet: bool, settled': bool, quiet': bool, off': bool)
    requires SafeAt(p, settled, quiet, s.cloud.power == Off) && (settled ==> settled')
    requires p.pc == StartWriteIntent || p.pc == StartCall
    ensures var n := GoNext(s, p); n.To? ==> n.proc.run == p.run && SafeAt(n.proc, settled', quiet', off')
  {
  }

  lemma OwnFailSafe(s: State, pid: Pid)
    requires Safe(s) && pid in s.procs && FailAt(s, s.procs[pid]).To?
    ensures ProcSafe(Apply(s, Fail(pid)), FailAt(s, s.procs[pid]).proc)
  {
    var p, t := s.procs[pid], Apply(s, Fail(pid));
    hide Settled, Quiet, Safe, Carries, SafeAt, FailAt, Apply;
    NextKeepsRun(s, p);
    NextKeepsCloud(s, Fail(pid));
    StepCarries(s, Fail(pid));
    FailSafe(s, p, Settled(s, p.run), Quiet(s, p.run), Settled(t, p.run), Quiet(t, p.run));
  }

  // ------------------------------------------------------------- the files

  predicate Writes(pc: Pc) {
    pc == StartWriteIntent || pc == StartWriteRefused || pc == StartRecord || pc == StopHandler || pc == PublishWrite
  }

  lemma WhoWrites(s: State, a: Action, r: Run)
    requires r in Apply(s, a).receipts
    ensures || (r in s.receipts && Apply(s, a).receipts[r] == s.receipts[r])
            || Apply(s, a).receipts[r].state == Armed
            || (a.Go? && a.pid in s.procs && s.procs[a.pid].run == r && Writes(s.procs[a.pid].pc)
                && Apply(s, a).receipts[r] == s.procs[a.pid].value)
  {
  }

  lemma ReceiptsStaySafe(s: State, a: Action, r: Run)
    requires Safe(s) && r in Apply(s, a).receipts && Claims(Apply(s, a).receipts[r])
    ensures Settled(Apply(s, a), r)
  {
    WhoWrites(s, a, r);
    if r in s.receipts && Apply(s, a).receipts[r] == s.receipts[r] {
      SettledStays(s, a, r);
    } else {
      var p := s.procs[a.pid];
      assert ProcBase(s, p) && ProcSafe(s, p);
      if p.pc == PublishWrite {
        assert p.fault ==> Quiet(s, r);
        PublishedIsSettled(s, a.pid);
      } else {
        assert p.pc != StartWriteIntent;
        SettledStays(s, a, r);
      }
    }
    hide Apply, Base, FilesSafe, Settled, Quiet;
  }

  lemma StartsStayTagged(s: State, a: Action, r: Run)
    requires Safe(s) && r in Apply(s, a).cloud.starts
    ensures Apply(s, a).cloud.owner == Ours(r)
  {
    var t := Apply(s, a);
    if r !in s.cloud.starts { WhoIssues(s, a, r); }
    if a.Go? && a.pid in s.procs { assert ProcBase(s, s.procs[a.pid]) && ProcSafe(s, s.procs[a.pid]); }
    if t.cloud.owner != s.cloud.owner && s.cloud.owner.Ours? { WhoRetags(s, a); }
  }

  lemma ActivatedIsSettled(s: State, r: Run)
    requires Safe(s) && r in s.cloud.starts
    ensures Settled(Apply(s, Activate(r)), r)
  {
    hide LocksExclude, ProcBase, FilesBase;
    PendingIsIssued(s, r);
    forall x | x in s.procs && s.procs[x].run == r ensures !Committed(s.now, s.procs[x]) {
      BaseAt(s, x);
      CommittedIsUnissued(s, s.procs[x]);
    }
  }

  lemma PendingIsIssued(s: State, r: Run)
    requires FilesBase(s) && r in s.cloud.starts
    ensures r in s.issued && r in s.receipts && s.receipts[r].state != Armed
  {
  }

  lemma CommittedIsUnissued(s: State, p: Proc)
    requires ProcBase(s, p)
    ensures Committed(s.now, p) ==> p.run !in s.issued
  {
  }

  lemma WhoSwitchesOn(s: State, a: Action)
    requires s.cloud.power == Off && Apply(s, a).cloud.power != Off
    ensures (a.Activate? && a.run in s.cloud.starts) || (a.ForeignStart? && !s.cloud.owner.Ours?)
  {
  }

  /** A tag that lands on an instance that is not stopped, but cleanly. */
  lemma TagLands(s: State, pid: Pid)
    requires Safe(s) && pid in s.procs && s.procs[pid].pc == StartClaim && CleanStep(s, Go(pid)) && s.cloud.power != Off
    ensures var t, r := Apply(s, Go(pid)), s.procs[pid].run; Settled(t, r) || Window(t, r)
  {
    hide Apply, LocksExclude, ProcBase, FilesBase, Dated, FilesSafe, ProcSafe, HoldsReceipt;
    var p, t := s.procs[pid], Apply(s, Go(pid));
    BaseAt(s, pid);
    ClaimIs(s, pid);
    ClaimFits(s, p);
    ClockHolds(p);
    HolderIsAlone(s, pid);
    UnissuedIsUnpending(s, p.run);
    assert t.procs[pid].pc == StartReobserve;
  }

  lemma ClaimIs(s: State, pid: Pid)
    requires pid in s.procs && s.procs[pid].pc == StartClaim
    ensures Apply(s, Go(pid)) == Put(Tag(s, Ours(s.procs[pid].run)), pid, s.procs[pid].(pc := StartReobserve))
  {
  }

  lemma ClaimFits(s: State, p: Proc)
    requires ProcBase(s, p) && (p.pc == StartClaim || p.pc == StartReobserve)
    ensures !p.watcher && p.run in s.receipts && s.receipts[p.run] == p.value && p.value.state == Armed
    ensures s.admission == Of(p.run)
  {
  }

  lemma NextKeepsWatcher(s: State, p: Proc)
    ensures GoNext(s, p).To? ==> GoNext(s, p).proc.watcher == p.watcher
    ensures FailAt(s, p).To? ==> FailAt(s, p).proc.watcher == p.watcher
  {
  }

  /** While its receipt is locked a run gets no supervisor. */
  lemma NoNewSupervisor(s: State, a: Action, r: Run)
    requires Supervised(Apply(s, a), r) && !ReceiptFree(s, r)
    ensures Supervised(s, r)
  {
    hide Apply, GoNext, FailAt, ReceiptFree;
    var pid :| pid in Apply(s, a).procs && Apply(s, a).procs[pid].run == r && Apply(s, a).procs[pid].watcher;
    WhoseProc(s, a, pid);
    if pid in s.procs {
      NextKeepsWatcher(s, s.procs[pid]);
      NextKeepsRun(s, s.procs[pid]);
    } else {
      SpawnsFree(s, a);
    }
  }

  lemma SpawnsFree(s: State, a: Action)
    requires a.Spawn? && a.pid !in s.procs && a.pid in Apply(s, a).procs && Apply(s, a).procs[a.pid].watcher
    ensures ReceiptFree(s, Apply(s, a).procs[a.pid].run)
  {
  }

  /** What becomes of a start that sees its tag on an instance that is not stopped. */
  lemma ReobserveEnds(s: State, a: Action, pid: Pid)
    requires pid in s.procs && s.procs[pid].pc == StartReobserve && s.cloud.power != Off && !s.procs[pid].watcher
    requires a == Go(pid) || a == Fail(pid) || a == Crash(pid)
    ensures Apply(s, a) == Gone(s, pid)
  {
  }

  lemma WindowCloses(s: State, pid: Pid)
    requires Base(s) && pid in s.procs && s.procs[pid].pc == StartReobserve
    ensures Settled(Gone(s, pid), s.procs[pid].run)
  {
    hide LocksExclude, ProcBase, FilesBase, HoldsReceipt;
    var p := s.procs[pid];
    BaseAt(s, pid);
    ClaimFits(s, p);
    ClockHolds(p);
    HolderIsAlone(s, pid);
    UnissuedIsUnpending(s, p.run);
  }

  lemma WindowStays(s: State, a: Action, r: Run)
    requires Safe(s) && Window(s, r) && s.cloud.power != Off
    ensures Settled(Apply(s, a), r) || Window(Apply(s, a), r)
  {
    hide Apply, LocksExclude, ProcBase, FilesBase, Dated, FilesSafe, ProcSafe, HoldsReceipt, Settled;
    var pid :| pid in s.procs && s.procs[pid].run == r && s.procs[pid].pc == StartReobserve;
    BaseAt(s, pid);
    ClaimFits(s, s.procs[pid]);
    ClockHolds(s.procs[pid]);
    if a == Go(pid) || a == Fail(pid) || a == Crash(pid) {
      ReobserveEnds(s, a, pid);
      WindowCloses(s, pid);
    } else {
      OthersStand(s, a, pid);
      assert !ReceiptFree(s, r);
      if Supervised(Apply(s, a), r) { NoNewSupervisor(s, a, r); }
    }
  }

  lemma OthersStand(s: State, a: Action, pid: Pid)
    requires pid in s.procs && a != Go(pid) && a != Fail(pid) && a != Crash(pid) && s.procs[pid].pc != StartAdmission
    ensures pid in Apply(s, a).procs && Apply(s, a).procs[pid] == s.procs[pid]
  {
    if (a.Go? || a.Fail?) && a.pid in s.procs { NextKeepsProcs(s, s.procs[a.pid]); }
    hide GoNext, FailAt;
  }

  /** A tagged instance that is not stopped was started by its run, and no more will
      come; or a start that will see it, and go, has just tagged it. */
  lemma RunningStaysSettled(s: State, a: Action, r: Run)
    requires Safe(s) && CleanStep(s, a)
    requires Apply(s, a).cloud.owner == Ours(r) && Apply(s, a).cloud.power != Off
    ensures Settled(Apply(s, a), r) || Window(Apply(s, a), r)
  {
    hide Apply, Base, Dated, Settled, Quiet, Window, CleanStep, ProcSafe;
    var t := Apply(s, a);
    if s.cloud.owner == t.cloud.owner {
      if s.cloud.power != Off {
        if Settled(s, r) { SettledStays(s, a, r); } else { WindowStays(s, a, r); }
      } else {
        WhoSwitchesOn(s, a);
        if a.Activate? { ActivatedIsSettled(s, a.run); }
      }
    } else {
      WhoTags(s, a, r);
      TagLands(s, a.pid);
    }
  }

  lemma WhoTags(s: State, a: Action, r: Run)
    requires s.cloud.owner != Ours(r) && Apply(s, a).cloud.owner == Ours(r)
    ensures a.Go? && a.pid in s.procs && s.procs[a.pid].pc == StartClaim && s.procs[a.pid].run == r
    ensures Apply(s, a).cloud.power == s.cloud.power
  {
  }

  lemma ApplyKeepsSafe(s: State, a: Action)
    requires Safe(s) && CleanStep(s, a)
    ensures Safe(Apply(s, a))
  {
    hide Apply, Base, Dated, Settled, ProcSafe, Claims, CleanStep, Window;
    var t := Apply(s, a);
    ApplyKeepsBase(s, a);
    StaysDated(s, a);
    forall r | r in t.receipts && Claims(t.receipts[r]) ensures Settled(t, r) { ReceiptsStaySafe(s, a, r); }
    forall r | r in t.cloud.starts ensures t.cloud.owner == Ours(r) { StartsStayTagged(s, a, r); }
    if t.cloud.owner.Ours? && t.cloud.power != Off { RunningStaysSettled(s, a, t.cloud.owner.run); }
    forall pid | pid in t.procs ensures ProcSafe(t, t.procs[pid]) { EveryProcSafe(s, a, pid); }
  }

  lemma EveryProcSafe(s: State, a: Action, pid: Pid)
    requires Safe(s) && pid in Apply(s, a).procs
    ensures ProcSafe(Apply(s, a), Apply(s, a).procs[pid])
  {
    WhoseProc(s, a, pid);
    if pid !in s.procs {
      SpawnSafe(s, a);
    } else if a == Go(pid) {
      if GoNext(s, s.procs[pid]).To? { OwnGoSafe(s, pid); }
    } else if a == Fail(pid) {
      if FailAt(s, s.procs[pid]).To? { OwnFailSafe(s, pid); }
    } else if a != Tear(pid) {
      OtherStaysSafe(s, a, pid);
    }
    hide Apply, Base, FilesSafe, ProcSafe;
  }

  lemma WhoseProc(s: State, a: Action, pid: Pid)
    requires pid in Apply(s, a).procs
    ensures pid !in s.procs ==> a.Spawn? && a.pid == pid
    ensures pid in s.procs && a == Go(pid) ==>
      var n := GoNext(s, s.procs[pid]);
      if n.To? then Apply(s, a).procs[pid] == n.proc else n.Wait? && Apply(s, a) == s
    ensures pid in s.procs && a == Fail(pid) ==>
      var n := FailAt(s, s.procs[pid]);
      if n.To? then Apply(s, a).procs[pid] == n.proc else n.Wait? && Apply(s, a) == s
    ensures pid in s.procs && a != Go(pid) && a != Fail(pid) ==>
      Apply(s, a).procs[pid] == s.procs[pid] && a != Crash(pid) && (a == Tear(pid) ==> Apply(s, a) == s)
  {
    if (a.Go? || a.Fail?) && a.pid in s.procs { NextKeepsProcs(s, s.procs[a.pid]); }
    hide GoNext, FailAt;
  }

  lemma SpawnSafe(s: State, a: Action)
    requires Safe(s) && a.Spawn? && a.pid !in s.procs && a.pid in Apply(s, a).procs
    ensures ProcSafe(Apply(s, a), Apply(s, a).procs[a.pid])
  {
    if Settled(s, a.run) { SettledStays(s, a, a.run); }
    hide Base, Settled, Quiet;
  }

  lemma {:induction false} SafeForGood(s: State, more: seq<Action>)
    requires Safe(s) && Clean(s, more)
    ensures Safe(Exec(s, more))
    decreases |more|
  {
    if more != [] {
      SafeForGood(s, more[..|more|-1]);
      ApplyKeepsSafe(Exec(s, more[..|more|-1]), more[|more|-1]);
    }
  }

  lemma ReachableSafe(s: State, acts: seq<Action>)
    requires Initial(s) && Clean(s, acts)
    ensures Safe(Exec(s, acts))
  {
    SafeForGood(s, acts);
  }

  // ------------------------------------------- power on the way to the unlink

  /** Between its last look at the instance and the unlink, while the admission
      file is there. */
  predicate Leaving(s: State, pid: Pid) {
    pid in s.procs
    && (s.procs[pid].pc == ReleaseTag || s.procs[pid].pc == ReleaseAdmission || s.procs[pid].pc == Unlink)
    && s.admission == Of(s.procs[pid].run)
  }

  predicate LooksAgain(s: State, a: Action, pid: Pid) {
    a == Go(pid) && pid in s.procs && s.procs[pid].pc == PublishObserve
  }

  /** Another party starts the instance, which then carries no tag of ours. */
  predicate StartedByOther(s: State, a: Action) {
    a.ForeignStart? && s.cloud.power == Off && !s.cloud.owner.Ours?
  }

  /** Another party has started the instance since this process last looked at it,
      and it has not stopped again. */
  predicate OtherRuns(s: State, acts: seq<Action>, pid: Pid)
    decreases |acts|
  {
    acts != []
    && var t, a := Exec(s, acts[..|acts|-1]), acts[|acts|-1];
    !LooksAgain(t, a, pid)
    && (StartedByOther(t, a)
        || (OtherRuns(s, acts[..|acts|-1], pid) && !(a.PowerOff? && t.cloud.power == GoingDown)))
  }

  lemma WhoLeaves(s: State, p: Proc)
    ensures var n := GoNext(s, p);
      n.To? && (n.proc.pc == ReleaseTag || n.proc.pc == ReleaseAdmission || n.proc.pc == Unlink) ==>
        && (p.pc == PublishObserve || p.pc == ReleaseTag || p.pc == ReleaseAdmission) && n.proc.run == p.run
        && (p.pc == PublishObserve ==> n.shared.cloud == s.cloud && s.cloud.power == Off)
    ensures var n := FailAt(s, p);
      n.To? ==> n.proc.pc != ReleaseTag && n.proc.pc != ReleaseAdmission && n.proc.pc != Unlink
  {
  }

  /** A process is on its way only from its look at a stopped instance on. */
  lemma LeavesFrom(s: State, a: Action, pid: Pid)
    requires Leaving(Apply(s, a), pid)
    ensures pid in s.procs && s.procs[pid].run == Apply(s, a).procs[pid].run
    ensures if LooksAgain(s, a, pid) then Apply(s, a).cloud.power == Off
      else s.procs[pid].pc == ReleaseTag || s.procs[pid].pc == ReleaseAdmission || s.procs[pid].pc == Unlink
  {
    WhoseProc(s, a, pid);
    if pid in s.procs {
      WhoLeaves(s, s.procs[pid]);
      if a == Go(pid) { NextKeepsCloud(s, a); }
    }
    hide GoNext, FailAt;
  }

  /** Its admission file has been there since. */
  lemma StaysAdmitted(s: State, a: Action, pid: Pid)
    requires Base(s) && pid in s.procs && HoldsReceipt(s.procs[pid]) && !IsStart(s.procs[pid].pc)
    ensures Apply(s, a).admission == s.admission || Apply(s, a).admission != Of(s.procs[pid].run)
  {
    if Apply(s, a).admission != s.admission {
      WhoMovesAdmission(s, a);
      AdmitsItself(s, a);
      if a.pid != pid { ReceiptsExclude(s, a.pid, pid); }
    }
    hide Apply, ProcBase, FilesBase, LocksExclude;
  }

  lemma ReceiptsExclude(s: State, a: Pid, b: Pid)
    requires LocksExclude(s) && a in s.procs && b in s.procs && a != b
    ensures !(s.procs[a].run == s.procs[b].run && HoldsReceipt(s.procs[a]) && HoldsReceipt(s.procs[b]))
  {
    hide HoldsReceipt, HoldsAdmission;
  }

  lemma AdmitsItself(s: State, a: Action)
    requires (a.Go? || a.Tear?) && a.pid in s.procs && (s.procs[a.pid].pc == StartAdmission || s.procs[a.pid].pc == Unlink)
    ensures Apply(s, a).admission.Of? && Apply(s, a).admission != s.admission ==>
      s.procs[a.pid].pc == StartAdmission && Apply(s, a).admission == Of(s.procs[a.pid].run)
  {
  }

  lemma WhoSwitchesOff(s: State, a: Action)
    requires s.cloud.power != Off
    ensures Apply(s, a).cloud.power == Off <==> a.PowerOff? && s.cloud.power == GoingDown
  {
  }

  lemma LeavingStep(s: State, a: Action, pid: Pid)
    requires Safe(s) && Leaving(Apply(s, a), pid) && !LooksAgain(s, a, pid)
    ensures Leaving(s, pid)
    ensures Apply(s, a).cloud.power != Off <==>
      StartedByOther(s, a) || (s.cloud.power != Off && !(a.PowerOff? && s.cloud.power == GoingDown))
  {
    hide Apply, ProcBase, LocksExclude, Settled, SafeAt, FilesSafe, FilesBase;
    LeavesFrom(s, a, pid);
    StaysAdmitted(s, a, pid);
    var p := s.procs[pid];
    assert ProcSafe(s, p);
    SettledThere(p, Settled(s, p.run), Quiet(s, p.run), s.cloud.power == Off);
    NothingPending(s, p.run);
    if s.cloud.power != Off { WhoSwitchesOff(s, a); } else if Apply(s, a).cloud.power != Off { WhoSwitchesOn(s, a); }
    StartsByOther(s, a);
  }

  lemma StartsByOther(s: State, a: Action)
    ensures StartedByOther(s, a) ==> Apply(s, a).cloud.power != Off
  {
  }

  /** On its way to the unlink the instance is stopped unless another party has
      started it since the process looked. */
  lemma {:induction false} LeavingPower(s: State, acts: seq<Action>, pid: Pid)
    requires Initial(s) && Clean(s, acts) && Leaving(Exec(s, acts), pid)
    ensures Exec(s, acts).cloud.power != Off <==> OtherRuns(s, acts, pid)
    decreases |acts|
  {
    hide Apply, Safe, Leaving;
    if acts == [] {
      NobodyLeaves(s, pid);
    } else {
      var before, a := acts[..|acts|-1], acts[|acts|-1];
      ReachableSafe(s, before);
      if LooksAgain(Exec(s, before), a, pid) {
        LeavesFrom(Exec(s, before), a, pid);
      } else {
        LeavingStep(Exec(s, before), a, pid);
        LeavingPower(s, before, pid);
      }
    }
  }

  lemma NobodyLeaves(s: State, pid: Pid)
    requires Initial(s)
    ensures !Leaving(s, pid)
  {
  }

  // ------------------------------------------------------------ the results

  /** The tag is released, and the admission file removed, only when no start of
      any run can take effect any more; the tag only while the instance is
      stopped, and the file too, but for another party that started the instance
      meanwhile. Crashes, failed calls, late starts and lock-free stops included. */
  lemma ReleasedOnlyWhenSettled(s: State, acts: seq<Action>, a: Action, r: Run)
    requires Initial(s) && Clean(s, acts)
    ensures var t, t' := Exec(s, acts), Apply(Exec(s, acts), a);
      && (t.cloud.owner == Ours(r) && t'.cloud.owner != Ours(r) ==>
            Settled(t, r) && t.cloud.starts == {} && t.cloud.power == Off)
      && (t.admission == Of(r) && t'.admission != Of(r) ==>
            Settled(t, r) && t.cloud.starts == {} && a.Go? && (t.cloud.power != Off <==> OtherRuns(s, acts, a.pid)))
  {
    hide Exec, Apply, Safe, Settled, Clean, Initial, OtherRuns;
    var t := Exec(s, acts);
    ReachableSafe(s, acts);
    OnlyItsOwnRelease(s, acts, a, r);
    if a.Go? && a.pid in t.procs && t.procs[a.pid].run == r {
      AtRelease(t, a.pid);
      if t.procs[a.pid].pc == Unlink && t.admission == Of(r) { LeavingPower(s, acts, a.pid); }
    }
  }

  lemma AtRelease(t: State, pid: Pid)
    requires Safe(t) && pid in t.procs
    ensures var r := t.procs[pid].run;
      && (t.procs[pid].pc == ReleaseTag ==> Settled(t, r) && t.cloud.starts == {} && t.cloud.power == Off)
      && (t.procs[pid].pc == Unlink ==> Settled(t, r) && t.cloud.starts == {})
  {
    hide ProcBase, LocksExclude, Settled, SafeAt, FilesSafe, FilesBase;
    var p := t.procs[pid];
    assert ProcSafe(t, p) && ProcBase(t, p);
    OwnedThere(t, p);
    SettledThere(p, Settled(t, p.run), Quiet(t, p.run), t.cloud.power == Off);
    if p.pc == ReleaseTag || p.pc == Unlink { NothingPending(t, p.run); }
  }

  lemma OwnedThere(t: State, p: Proc)
    requires ProcBase(t, p)
    ensures p.pc == ReleaseTag ==> t.cloud.owner == Ours(p.run)
    ensures p.pc == Unlink ==> t.admission == Of(p.run)
  {
  }

  lemma SettledThere(p: Proc, settled: bool, quiet: bool, off: bool)
    requires SafeAt(p, settled, quiet, off)
    ensures p.pc == ReleaseTag ==> settled && off
    ensures p.pc == Unlink || p.pc == ReleaseAdmission ==> settled
  {
  }

  /** A settled run that has the tag or the admission file is the only one that could start. */
  lemma NothingPending(t: State, r: Run)
    requires FilesSafe(t) && FilesBase(t) && Settled(t, r) && (t.cloud.owner == Ours(r) || t.admission == Of(r))
    ensures t.cloud.starts == {}
  {
  }

  /** However late a start takes effect, tag and admission file are still its
      run's: the instance never comes up without its owner. */
  lemma StartsTakeEffectOwned(s: State, acts: seq<Action>, r: Run)
    requires Initial(s) && Clean(s, acts) && r in Exec(s, acts).cloud.starts
    ensures Owns(Exec(s, acts), r)
  {
    ReachableSafe(s, acts);
  }

  /** A receipt that says `stopped`, or that no start is uncertain, is right for
      good: whatever happens next, its run's start never takes effect. */
  lemma StoppedIsFinal(s: State, acts: seq<Action>, more: seq<Action>, r: Run)
    requires Initial(s) && Clean(s, acts) && r in Exec(s, acts).receipts && Claims(Exec(s, acts).receipts[r])
    ensures var t := Exec(Exec(s, acts), more); Settled(t, r) && t.issued[r] == Exec(s, acts).issued[r]
    decreases |more|
  {
    ReachableSafe(s, acts);
    SettledForGood(Exec(s, acts), more, r);
  }

  lemma {:induction false} SettledForGood(s: State, more: seq<Action>, r: Run)
    requires Base(s) && Dated(s) && Settled(s, r)
    ensures var t := Exec(s, more); Base(t) && Dated(t) && Settled(t, r) && t.issued[r] == s.issued[r]
    decreases |more|
  {
    if more != [] {
      var before, a := more[..|more|-1], more[|more|-1];
      SettledForGood(s, before, r);
      var t := Exec(s, before);
      SettledStays(t, a, r);
      ApplyKeepsBase(t, a);
      StaysDated(t, a);
      if Apply(t, a).issued != t.issued { OnlyStartCallIssues(t, a); }
      hide Apply, Base, Dated, Spent;
    }
  }

  /** The stopping of a run has begun. */
  predicate Ending(v: Receipt) {
    v.state == Stopping || v.state == Settling || v.state == Stopped
  }

  /** Whoever decides whether to stop goes on to stop exactly if it is late by the
      receipt retained, or the stopping has begun. */
  lemma DecidesToStop(t: State, pid: Pid)
    requires pid in t.procs && t.procs[pid].pc == WatchDecide
    ensures var u := Apply(t, Go(pid));
      && pid in u.procs && u.procs[pid].memory == t.procs[pid].memory
      && u.procs[pid].pc == if Late(t.now, t.procs[pid].memory) || Ending(t.procs[pid].memory) then StopLock else WatchIdle
  {
  }

  /** A supervisor for which it is a minute to the deadline, or whose receipt says so,
      stands at its stop after its own next two steps, as soon as it gets the receipt. */
  lemma LateSupervisorStops(s: State, acts: seq<Action>, pid: Pid)
    requires Initial(s)
    requires var t := Exec(s, acts);
      pid in t.procs && t.procs[pid].pc == WatchIdle && ReceiptFree(t, t.procs[pid].run)
    ensures var t := Exec(s, acts);
      var u, r := Apply(Apply(t, Go(pid)), Go(pid)), t.procs[pid].run;
      r in t.receipts && pid in u.procs
      && (u.procs[pid].pc == StopLock <==> Late(t.now, t.procs[pid].memory) || Ending(t.receipts[r]))
  {
    var t := Exec(s, acts);
    ReachableDates(s, acts);
    hide Exec, ReceiptFree;
    BaseAt(t, pid);
    Beats(t, pid);
    DecidesToStop(Apply(t, Go(pid)), pid);
    hide Apply, Base;
  }

  lemma Beats(t: State, pid: Pid)
    requires pid in t.procs && t.procs[pid].pc == WatchIdle && ReceiptFree(t, t.procs[pid].run)
    requires t.procs[pid].run in t.receipts
    ensures var u := Apply(t, Go(pid));
      pid in u.procs && u.procs[pid].pc == WatchDecide && u.procs[pid].memory == t.receipts[t.procs[pid].run] && u.now == t.now
  {
    hide ReceiptFree;
  }

  lemma {:induction false} ReachableDates(s: State, acts: seq<Action>)
    requires Initial(s)
    ensures Base(Exec(s, acts)) && Dated(Exec(s, acts))
    decreases |acts|
  {
    if acts != [] {
      var before := acts[..|acts|-1];
      ReachableDates(s, before);
      ApplyKeepsBase(Exec(s, before), acts[|acts|-1]);
      StaysDated(Exec(s, before), acts[|acts|-1]);
    }
    hide Apply, LocksExclude, ProcBase, FilesBase;
  }
}
