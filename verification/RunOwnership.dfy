/** What every run of the controllers keeps, whatever other parties do: the
    locks exclude, each receipt starts at most once, and tag and admission file
    of one run are removed only by that run. */
module RunOwnership {
  import opened Options
  import opened RunController

  ghost predicate LocksExclude(s: State) {
    forall a, b | a in s.procs && b in s.procs && a != b ::
      && !(s.procs[a].run == s.procs[b].run && HoldsReceipt(s.procs[a]) && HoldsReceipt(s.procs[b]))
      && !(HoldsAdmission(s.procs[a]) && HoldsAdmission(s.procs[b]))
  }

  /** A receipt says what was asked for: only `start_intent` may lack nothing. */
  predicate Sane(v: Receipt) {
    && (v.requested ==> v.uncertain != None)
    && (v.uncertain == Some(true) ==> v.requested)
    && (v.state == StartIntent ==> v.requested)
  }

  predicate Intent(v: Receipt) {
    v.state == StartIntent && v.requested && v.uncertain == Some(true)
  }

  /** What holds at each position of a process, about the files and the tag. */
  predicate ProcBase(s: State, p: Proc) {
    var r := p.run;
    r in s.receipts
    && Sane(p.memory) && Sane(p.value) && (IsStart(p.pc) ==> !p.watcher)
    && (p.fault || p.pc == WatchIdle || p.pc == WatchDecide ==> p.watcher)
    && match p.pc
       case StartAdmit => p.value == s.receipts[r]
       case StartCheck => p.value == s.receipts[r]
       case StartObserve => p.value == s.receipts[r] && Unstarted(p.value) && s.admission == Absent
       case StartAdmission => p.value == s.receipts[r] && Unstarted(p.value) && s.admission == Absent
       case StartClaim => p.value == s.receipts[r] && Unstarted(p.value) && s.admission == Of(r)
       case StartReobserve => p.value == s.receipts[r] && Unstarted(p.value) && Owns(s, r)
       case StartWriteIntent => Unstarted(s.receipts[r]) && Intent(p.value) && Owns(s, r)
       case StartClock => p.value == s.receipts[r] && Intent(p.value) && Owns(s, r) && r !in s.issued
       case StartCall =>
         p.value == s.receipts[r] && Intent(p.value) && Owns(s, r) && r !in s.issued
         && p.clock < p.value.deadline - STOP_MARGIN
       case StartWriteRefused => Intent(s.receipts[r]) && p.value.state == Stopping && Owns(s, r) && r !in s.issued
       case StartConfirm => Intent(s.receipts[r]) && Intent(p.value) && Owns(s, r)
       case StartRecord =>
         Intent(s.receipts[r]) && p.value.requested && (p.value.state == Running || p.value.state == StartIntent)
         && Owns(s, r)
       case StopObserve => if p.fault then p.value.requested else p.value == s.receipts[r]
       case StopCall => p.value.state == Stopping && p.value.uncertain == Some(false)
       case StopReobserve => p.value.state == Stopping && p.value.uncertain == Some(false)
       case StopHandler =>
         !p.fault && (p.value == s.receipts[r] || (p.value.state == Stopping && p.value.uncertain == Some(false)))
       case PublishLock => p.fault && p.value.state != Armed
       case PublishWrite => p.value.state != Armed
       case PublishObserve => p.value.state == Stopped && s.receipts[r] == p.value
       case ReleaseTag => p.value.state == Stopped && s.receipts[r] == p.value && s.cloud.owner == Ours(r)
       case ReleaseAdmission => p.value.state == Stopped && s.receipts[r] == p.value && s.cloud.owner != Ours(r)
       case Unlink =>
         p.value.state == Stopped && s.receipts[r] == p.value && s.cloud.owner != Ours(r) && s.admission == Of(r)
       case StopLock => !p.fault
       case WatchDecide => !p.fault
       case _ => true
  }

  predicate Unstarted(v: Receipt) {
    v.state == Armed && !v.requested
  }

  predicate Owns(s: State, r: Run) {
    s.cloud.owner == Ours(r) && s.admission == Of(r)
  }

  /** The receipts, the tag and the calls issued. */
  ghost predicate FilesBase(s: State) {
    && (s.cloud.owner.Ours? ==> s.admission == Of(s.cloud.owner.run))
    && (forall r | r in s.receipts :: Sane(s.receipts[r]) && (s.receipts[r].state == Armed ==> !s.receipts[r].requested))
    && (forall r :: s.issued[r] <= 1)
    && (forall r | r in s.issued :: r in s.receipts && s.receipts[r].state != Armed)
    && (forall r | r in s.cloud.starts :: r in s.issued)
  }

  ghost predicate Base(s: State) {
    && LocksExclude(s)
    && (forall pid | pid in s.procs :: ProcBase(s, s.procs[pid]))
    && FilesBase(s)
  }

  /** What a step of `pid` may change beside its own entry, given what it holds. */
  ghost predicate Respects(s: State, s': State, pid: Pid)
    requires pid in s.procs
  {
    var p := s.procs[pid];
    && s.receipts.Keys <= s'.receipts.Keys
    && (forall r | r in s.receipts :: s'.receipts[r] == s.receipts[r] || (r == p.run && HoldsReceipt(p)))
    && (s'.admission == s.admission || HoldsAdmission(p))
    && (s'.cloud.owner == s.cloud.owner
        || (HoldsReceipt(p) && HoldsAdmission(p) && s.admission == Of(p.run) && s'.cloud.owner == Ours(p.run))
        || (HoldsReceipt(p) && s.cloud.owner == Ours(p.run) && s'.cloud.owner == Nobody))
    && (forall r | r in s'.issued :: r in s.issued || (r == p.run && HoldsReceipt(p)))
  }

  lemma OthersKeepBase(s: State, s': State, pid: Pid, q: Pid)
    requires Base(s) && pid in s.procs && q in s.procs && q != pid && Respects(s, s', pid)
    ensures ProcBase(s', s.procs[q])
  {
    var p, o := s.procs[pid], s.procs[q];
    assert !(p.run == o.run && HoldsReceipt(p) && HoldsReceipt(o)) && !(HoldsAdmission(p) && HoldsAdmission(o));
    hide LocksExclude, ProcBase, HoldsReceipt, HoldsAdmission;
    if IsStart(o.pc) { OtherStartKeepsBase(s, s', pid, o); } else { OtherStopKeepsBase(s, s', pid, o); }
  }

  lemma OtherStartKeepsBase(s: State, s': State, pid: Pid, o: Proc)
    requires pid in s.procs && Respects(s, s', pid) && ProcBase(s, o) && IsStart(o.pc)
    requires var p := s.procs[pid];
      !(p.run == o.run && HoldsReceipt(p) && HoldsReceipt(o)) && !(HoldsAdmission(p) && HoldsAdmission(o))
    ensures ProcBase(s', o)
  {
  }

  lemma OtherStopKeepsBase(s: State, s': State, pid: Pid, o: Proc)
    requires pid in s.procs && Respects(s, s', pid) && ProcBase(s, o) && !IsStart(o.pc) && FilesBase(s)
    requires var p := s.procs[pid];
      !(p.run == o.run && HoldsReceipt(p) && HoldsReceipt(o)) && !(HoldsAdmission(p) && HoldsAdmission(o))
    ensures ProcBase(s', o)
  {
  }

  /** The processes do not matter to what one of them relies on. */
  lemma ProcsAside(s: State, procs: map<Pid, Proc>, p: Proc)
    ensures ProcBase(s.(procs := procs), p) == ProcBase(s, p)
    ensures FilesBase(s.(procs := procs)) == FilesBase(s)
  {
  }

  lemma OthersKeepAside(s: State, t: State, pid: Pid, procs: map<Pid, Proc>)
    requires Base(s) && pid in s.procs && Respects(s, t, pid)
    ensures forall x | x in s.procs && x != pid :: ProcBase(t.(procs := procs), s.procs[x])
  {
    forall x | x in s.procs && x != pid ensures ProcBase(t.(procs := procs), s.procs[x]) {
      OthersKeepBase(s, t, pid, x);
      ProcsAside(t, procs, s.procs[x]);
    }
  }

  /** The new entry holds only locks the old one held, or free ones. */
  predicate TakesFree(s: State, p: Proc, q: Proc) {
    && q.run == p.run
    && (HoldsReceipt(q) ==> HoldsReceipt(p) || ReceiptFree(s, q.run))
    && (HoldsAdmission(q) ==> HoldsAdmission(p) || AdmissionFree(s))
  }

  lemma LocksStayExclusive(s: State, t: State, pid: Pid, q: Proc)
    requires LocksExclude(s) && pid in s.procs && TakesFree(s, s.procs[pid], q) && t.procs == s.procs[pid := q]
    ensures LocksExclude(t)
  {
    hide HoldsReceipt, HoldsAdmission;
  }

  /** A step respects the others and leaves the files and its own entry in order. */
  ghost predicate GoodStep(s: State, pid: Pid, next: Next)
    requires pid in s.procs
  {
    var p := s.procs[pid];
    match next
    case Wait => true
    case End(t) => t.procs == s.procs && Respects(s, t, pid) && FilesBase(t)
    case To(t, q) =>
      t.procs == s.procs && Respects(s, t, pid) && FilesBase(t) && ProcBase(t, q) && TakesFree(s, p, q)
  }

  lemma GoodStepKeepsBase(s: State, pid: Pid, next: Next)
    requires Base(s) && pid in s.procs && GoodStep(s, pid, next)
    ensures Base(Move(s, pid, next))
  {
    hide ProcBase, FilesBase, Respects, HoldsReceipt, HoldsAdmission, TakesFree;
    match next {
      case Wait =>
      case End(t) =>
        OthersKeepAside(s, t, pid, s.procs - {pid});
        ProcsAside(t, s.procs - {pid}, s.procs[pid]);
      case To(t, q) =>
        OthersKeepAside(s, t, pid, s.procs[pid := q]);
        ProcsAside(t, s.procs[pid := q], q);
        LocksStayExclusive(s, Put(t, pid, q), pid, q);
    }
  }

  ghost predicate Ready(s: State, pid: Pid) {
    pid in s.procs && ProcBase(s, s.procs[pid]) && FilesBase(s)
  }

  lemma MoveIsGood(s: State, pid: Pid)
    requires Ready(s, pid)
    ensures Respects(s, s, pid)
  {
  }

  lemma WriteIsGood(s: State, pid: Pid, v: Receipt)
    requires Ready(s, pid) && HoldsReceipt(s.procs[pid]) && Sane(v)
    requires v.state != Armed || v == s.receipts[s.procs[pid].run]
    ensures var t := Write(s, s.procs[pid].run, v); Respects(s, t, pid) && FilesBase(t)
  {
  }

  /** Going back to the idle supervisor, or ending, is always in order. */
  lemma RaiseIsGood(s: State, t: State, pid: Pid, p: Proc)
    requires Ready(s, pid) && t.procs == s.procs && Respects(s, t, pid) && FilesBase(t)
    requires p.run == s.procs[pid].run && Sane(p.value) && Sane(p.memory)
    ensures GoodStep(s, pid, Raise(t, p)) && GoodStep(s, pid, Finish(t, p))
  {
    hide FilesBase, Sane;
  }

  /** A step that changes nothing but the process. */
  lemma OwnMoveIsGood(s: State, pid: Pid, q: Proc)
    requires Ready(s, pid) && ProcBase(s, q) && TakesFree(s, s.procs[pid], q)
    ensures GoodStep(s, pid, To(s, q)) && GoodStep(s, pid, End(s)) && GoodStep(s, pid, Wait)
  {
    MoveIsGood(s, pid);
    hide Respects, ProcBase, FilesBase, TakesFree;
  }

  lemma StartReads(s: State, pid: Pid)
    requires Ready(s, pid)
    requires var pc := s.procs[pid].pc;
      pc.StartLock? || pc.StartAdmit? || pc.StartCheck? || pc.StartObserve? || pc.StartReobserve?
      || pc.StartClock? || pc.StartConfirm?
    ensures GoodStep(s, pid, GoStart(s, s.procs[pid]))
  {
    var p := s.procs[pid];
    StartReadsOwn(s, p);
    hide GoodStep, ProcBase, FilesBase, TakesFree, GoStart;
    match GoStart(s, p) {
      case Wait => OwnMoveIsGood(s, pid, p);
      case End(t) => OwnMoveIsGood(s, pid, p);
      case To(t, q) => OwnMoveIsGood(s, pid, q);
    }
  }

  lemma StartReadsOwn(s: State, p: Proc)
    requires ProcBase(s, p) && FilesBase(s)
    requires var pc := p.pc;
      pc.StartLock? || pc.StartAdmit? || pc.StartCheck? || pc.StartObserve? || pc.StartReobserve?
      || pc.StartClock? || pc.StartConfirm?
    ensures TakesFree(s, p, p)
    ensures match GoStart(s, p)
      case Wait => true
      case End(t) => t == s
      case To(t, q) => t == s && ProcBase(s, q) && TakesFree(s, p, q)
  {
  }

  lemma StartTags(s: State, pid: Pid)
    requires Ready(s, pid)
    requires var pc := s.procs[pid].pc; pc.StartAdmission? || pc.StartClaim?
    ensures GoodStep(s, pid, GoStart(s, s.procs[pid]))
  {
  }

  lemma StartRecordsIntent(s: State, pid: Pid)
    requires Ready(s, pid) && s.procs[pid].pc.StartWriteIntent?
    ensures GoodStep(s, pid, GoStart(s, s.procs[pid]))
  {
    WriteIsGood(s, pid, s.procs[pid].value);
    hide Respects, FilesBase;
  }

  lemma StartWrites(s: State, pid: Pid)
    requires Ready(s, pid)
    requires var pc := s.procs[pid].pc; pc.StartWriteRefused? || pc.StartRecord?
    ensures GoodStep(s, pid, GoStart(s, s.procs[pid]))
  {
    WriteIsGood(s, pid, s.procs[pid].value);
    hide Respects, FilesBase;
  }

  lemma StartIssues(s: State, pid: Pid)
    requires Ready(s, pid) && s.procs[pid].pc.StartCall?
    ensures GoodStep(s, pid, GoStart(s, s.procs[pid]))
  {
  }

  /** The receipt stop decides on is in order, and so is where it goes. */
  lemma DecisionsFit(s: State, p: Proc)
    requires ProcBase(s, p) && (p.pc.StopObserve? || p.pc.StopReobserve?)
    ensures var next := if p.pc.StopObserve? then Decide(p.value, p.run, s.cloud) else DecideAgain(p.value, p.run, s.cloud);
      && Sane(next.0)
      && (next.1 == PublishWrite ==> next.0.state != Armed)
      && (next.1 == StopHandler ==> next.0 == p.value)
      && (next.1 == StopCall || next.1 == StopReobserve ==> next.0.state == Stopping && next.0.uncertain == Some(false))
      && (next.1 == PublishWrite || next.1 == StopHandler || next.1 == StopCall || next.1 == StopReobserve)
  {
  }

  /** Where the decision leads the process is in order. */
  lemma LandsFit(s: State, p: Proc, next: (Receipt, Pc))
    requires ProcBase(s, p) && (p.pc.StopObserve? || p.pc.StopReobserve?) && Sane(next.0)
    requires next.1 == PublishWrite ==> next.0.state != Armed
    requires next.1 == StopHandler ==> next.0 == p.value
    requires next.1 == StopCall || next.1 == StopReobserve ==> next.0.state == Stopping && next.0.uncertain == Some(false)
    requires next.1 == PublishWrite || next.1 == StopHandler || next.1 == StopCall || next.1 == StopReobserve
    requires !(next.1 == StopHandler && p.fault)
    ensures var n := MoveTo(s, p, next); n.To? && n.shared == s && ProcBase(s, n.proc) && TakesFree(s, p, n.proc)
  {
  }

  lemma StopObserves(s: State, pid: Pid)
    requires Ready(s, pid) && (s.procs[pid].pc.StopObserve? || s.procs[pid].pc.StopReobserve?)
    ensures GoodStep(s, pid, GoStop(s, s.procs[pid]))
  {
    var p := s.procs[pid];
    MoveIsGood(s, pid);
    DecisionsFit(s, p);
    var next := if p.pc.StopObserve? then Decide(p.value, p.run, s.cloud) else DecideAgain(p.value, p.run, s.cloud);
    if next.1 == StopHandler && p.fault {
      RaiseIsGood(s, s, pid, p.(value := next.0));
    } else {
      LandsFit(s, p, next);
    }
    hide Respects, Decide, DecideAgain, FilesBase, Sane, ProcBase, TakesFree;
  }

  lemma StopWaits(s: State, pid: Pid)
    requires Ready(s, pid)
    requires var pc := s.procs[pid].pc; pc.StopLock? || pc.PublishLock?
    ensures GoodStep(s, pid, GoStop(s, s.procs[pid]))
  {
    MoveIsGood(s, pid);
    hide Respects;
  }

  lemma StopLooks(s: State, pid: Pid)
    requires Ready(s, pid) && s.procs[pid].pc.PublishObserve?
    ensures GoodStep(s, pid, GoStop(s, s.procs[pid]))
  {
    MoveIsGood(s, pid);
    RaiseIsGood(s, s, pid, s.procs[pid]);
    hide Respects, FilesBase;
  }

  lemma StopRecords(s: State, pid: Pid)
    requires Ready(s, pid) && s.procs[pid].pc.StopHandler?
    ensures GoodStep(s, pid, GoStop(s, s.procs[pid]))
  {
    var p := s.procs[pid];
    WriteIsGood(s, pid, p.value);
    RaiseIsGood(s, Write(s, p.run, p.value), pid, p);
    hide Respects, FilesBase, Raise, Finish;
  }

  lemma StopWrites(s: State, pid: Pid)
    requires Ready(s, pid) && s.procs[pid].pc.PublishWrite?
    ensures GoodStep(s, pid, GoStop(s, s.procs[pid]))
  {
    var p := s.procs[pid];
    var t := Write(s, p.run, p.value);
    WriteIsGood(s, pid, p.value);
    if p.value.state == Stopped {
      PublishesStopped(s, p);
      hide Respects, FilesBase, ProcBase, GoStop;
    } else {
      PublishesOpen(s, p);
      RaiseIsGood(s, t, pid, p);
      hide Respects, FilesBase, GoStop, Raise, Finish;
    }
  }

  lemma PublishesOpen(s: State, p: Proc)
    requires ProcBase(s, p) && p.pc == PublishWrite && p.value.state != Stopped
    ensures GoStop(s, p) == Finish(Write(s, p.run, p.value), p)
  {
  }

  lemma PublishesStopped(s: State, p: Proc)
    requires ProcBase(s, p) && p.pc == PublishWrite && p.value.state == Stopped
    ensures var t, q := Write(s, p.run, p.value), p.(pc := PublishObserve);
      GoStop(s, p) == To(t, q) && ProcBase(t, q) && TakesFree(s, p, q)
  {
  }

  lemma StopCalls(s: State, pid: Pid)
    requires Ready(s, pid) && s.procs[pid].pc.StopCall?
    ensures GoodStep(s, pid, GoStop(s, s.procs[pid]))
  {
    CloudIsGood(s, pid);
    hide Respects, FilesBase;
  }

  lemma StopReleases(s: State, pid: Pid)
    requires Ready(s, pid) && s.procs[pid].pc.ReleaseTag?
    ensures GoodStep(s, pid, GoStop(s, s.procs[pid]))
  {
    CloudIsGood(s, pid);
    hide Respects, FilesBase;
  }

  lemma CloudIsGood(s: State, pid: Pid)
    requires Ready(s, pid)
    ensures forall power :: Respects(s, s.(cloud := s.cloud.(power := power)), pid)
                         && FilesBase(s.(cloud := s.cloud.(power := power)))
    ensures s.procs[pid].pc.ReleaseTag? ==> Respects(s, Tag(s, Nobody), pid) && FilesBase(Tag(s, Nobody))
  {
  }

  lemma StopUnlinks(s: State, pid: Pid)
    requires Ready(s, pid) && (s.procs[pid].pc.ReleaseAdmission? || s.procs[pid].pc.Unlink?)
    ensures GoodStep(s, pid, GoStop(s, s.procs[pid]))
  {
    var p := s.procs[pid];
    MoveIsGood(s, pid);
    if p.pc.Unlink? {
      var t := s.(admission := Absent);
      assert Respects(s, t, pid) && FilesBase(t);
      RaiseIsGood(s, t, pid, p);
    } else {
      RaiseIsGood(s, s, pid, p);
    }
    hide Respects, FilesBase;
  }

  lemma WatchMoves(s: State, pid: Pid)
    requires Ready(s, pid)
    requires s.procs[pid].pc.WatchIdle? || s.procs[pid].pc.WatchDecide?
    ensures GoodStep(s, pid, GoWatch(s, s.procs[pid]))
  {
    MoveIsGood(s, pid);
    hide Respects;
  }

  lemma Raises(s: State, pid: Pid)
    requires Ready(s, pid)
    ensures GoodStep(s, pid, FailAt(s, s.procs[pid]))
  {
    MoveIsGood(s, pid);
    hide Respects, FilesBase;
    var p := s.procs[pid];
    if p.pc == StopObserve || p.pc == StopCall || p.pc == StopReobserve || p.pc == WatchIdle {
      StopRaises(s, p);
    } else {
      assert Sane(p.value) && Sane(p.memory);
      RaiseIsGood(s, s, pid, p);
      hide ProcBase, TakesFree;
    }
  }

  lemma StopRaises(s: State, p: Proc)
    requires ProcBase(s, p) && (p.pc == StopObserve || p.pc == StopCall || p.pc == StopReobserve || p.pc == WatchIdle)
    ensures match FailAt(s, p)
      case Wait => true
      case End(t) => t == s
      case To(t, q) => t == s && ProcBase(s, q) && TakesFree(s, p, q)
  {
  }

  lemma GoIsGood(s: State, pid: Pid)
    requires Ready(s, pid)
    ensures GoodStep(s, pid, GoNext(s, s.procs[pid]))
  {
    hide GoodStep, GoStart, GoStop, GoWatch, ProcBase, FilesBase;
    match s.procs[pid].pc {
      case StartAdmission => StartTags(s, pid);
      case StartClaim => StartTags(s, pid);
      case StartWriteIntent => StartRecordsIntent(s, pid);
      case StartWriteRefused => StartWrites(s, pid);
      case StartRecord => StartWrites(s, pid);
      case StartCall => StartIssues(s, pid);
      case StopObserve => StopObserves(s, pid);
      case StopReobserve => StopObserves(s, pid);
      case StopHandler => StopRecords(s, pid);
      case PublishWrite => StopWrites(s, pid);
      case StopCall => StopCalls(s, pid);
      case ReleaseTag => StopReleases(s, pid);
      case ReleaseAdmission => StopUnlinks(s, pid);
      case Unlink => StopUnlinks(s, pid);
      case WatchIdle => WatchMoves(s, pid);
      case WatchDecide => WatchMoves(s, pid);
      case StopLock => StopWaits(s, pid);
      case PublishLock => StopWaits(s, pid);
      case PublishObserve => StopLooks(s, pid);
      case _ => StartReads(s, pid);
    }
  }

  predicate ByCloud(a: Action) {
    !a.Go? && !a.Fail? && !a.Tear? && !a.Crash? && !a.Spawn? && !a.Arm?
  }

  lemma CloudFrame(s: State, a: Action)
    requires ByCloud(a)
    ensures var t := Apply(s, a);
      && t.procs == s.procs && t.receipts == s.receipts && t.admission == s.admission && t.issued == s.issued
      && (t.cloud.owner == s.cloud.owner || (!t.cloud.owner.Ours? && !s.cloud.owner.Ours?))
      && t.cloud.starts <= s.cloud.starts
  {
  }

  lemma ProcFrame(s: State, t: State, p: Proc)
    requires t.receipts == s.receipts && t.admission == s.admission && t.issued == s.issued && ProcBase(s, p)
    requires t.cloud.owner == s.cloud.owner || (!t.cloud.owner.Ours? && !s.cloud.owner.Ours?)
    ensures ProcBase(t, p)
  {
  }

  lemma CloudKeepsBase(s: State, a: Action)
    requires Base(s) && ByCloud(a)
    ensures Base(Apply(s, a))
  {
    hide Apply, ProcBase, LocksExclude;
    CloudFrame(s, a);
    var t := Apply(s, a);
    forall pid | pid in t.procs ensures ProcBase(t, t.procs[pid]) {
      ProcFrame(s, t, s.procs[pid]);
    }
    LocksStay(s, t);
  }

  lemma LocksStay(s: State, t: State)
    requires LocksExclude(s) && t.procs == s.procs
    ensures LocksExclude(t)
  {
  }

  lemma ArmKeepsBase(s: State, r: Run, deadline: int)
    requires Base(s)
    ensures Base(Apply(s, Arm(r, deadline)))
  {
    hide Apply, ProcBase, LocksExclude, FilesBase;
    var t := Apply(s, Arm(r, deadline));
    Arms(s, r, deadline);
    LocksStay(s, t);
    forall pid | pid in t.procs ensures ProcBase(t, t.procs[pid]) {
      ArmFrame(s, t, r, s.procs[pid]);
    }
  }

  lemma Arms(s: State, r: Run, deadline: int)
    requires FilesBase(s)
    ensures var t := Apply(s, Arm(r, deadline));
      && (t == s || (r !in s.receipts && r in t.receipts && t == s.(receipts := s.receipts[r := t.receipts[r]])))
      && FilesBase(t)
  {
  }

  lemma ArmFrame(s: State, t: State, r: Run, p: Proc)
    requires t == s || (r !in s.receipts && r in t.receipts && t == s.(receipts := s.receipts[r := t.receipts[r]]))
    requires ProcBase(s, p)
    ensures ProcBase(t, p)
  {
  }

  lemma EndsKeepBase(s: State, a: Action)
    requires Base(s) && (a.Crash? || a.Tear?)
    ensures Base(Apply(s, a))
  {
    if a.pid in s.procs {
      var t := if a.Tear? then s.(admission := Torn) else s;
      assert ProcBase(s, s.procs[a.pid]);
      hide LocksExclude, ProcBase;
      if a.Crash? {
        MoveIsGood(s, a.pid);
        GoodStepKeepsBase(s, a.pid, End(t));
      } else if s.procs[a.pid].pc == StartAdmission {
        TearIsGood(s, a);
        GoodStepKeepsBase(s, a.pid, End(t));
      }
    } else {
      assert s.procs - {a.pid} == s.procs;
    }
  }

  lemma TearIsGood(s: State, a: Action)
    requires Base(s) && a.Tear? && a.pid in s.procs && s.procs[a.pid].pc == StartAdmission
    ensures GoodStep(s, a.pid, End(s.(admission := Torn)))
  {
    hide LocksExclude;
  }

  lemma SpawnKeepsBase(s: State, pid: Pid, r: Run, command: Command)
    requires Base(s)
    ensures Base(Apply(s, Spawn(pid, r, command)))
  {
    hide Apply, ProcBase, FilesBase, LocksExclude;
    var t := Apply(s, Spawn(pid, r, command));
    Spawns(s, pid, r, command);
    if t != s {
      var q := t.procs[pid];
      JoinsWithoutLocks(s, t, pid, q);
      forall x | x in t.procs ensures ProcBase(t, t.procs[x]) {
        ProcsAside(s, t.procs, t.procs[x]);
      }
      ProcsAside(s, t.procs, q);
    }
  }

  lemma JoinsWithoutLocks(s: State, t: State, pid: Pid, q: Proc)
    requires LocksExclude(s) && t == Put(s, pid, q) && !HoldsReceipt(q) && !HoldsAdmission(q)
    ensures LocksExclude(t)
  {
    hide HoldsReceipt, HoldsAdmission;
  }

  lemma Spawns(s: State, pid: Pid, r: Run, command: Command)
    requires FilesBase(s)
    ensures var t := Apply(s, Spawn(pid, r, command));
      t == s
      || (pid in t.procs && var q := t.procs[pid];
          t == Put(s, pid, q) && !HoldsReceipt(q) && !HoldsAdmission(q) && ProcBase(s, q))
  {
    hide ReceiptFree;
  }

  lemma ApplyKeepsBase(s: State, a: Action)
    requires Base(s)
    ensures Base(Apply(s, a))
  {
    match a {
      case Go(pid) =>
        hide ProcBase, FilesBase, GoNext, FailAt, LocksExclude, Move;
        if pid in s.procs { GoIsGood(s, pid); GoodStepKeepsBase(s, pid, GoNext(s, s.procs[pid])); }
      case Fail(pid) =>
        hide ProcBase, FilesBase, GoNext, FailAt, LocksExclude, Move;
        if pid in s.procs { Raises(s, pid); GoodStepKeepsBase(s, pid, FailAt(s, s.procs[pid])); }
      case Crash(pid) => EndsKeepBase(s, a);
      case Tear(pid) => EndsKeepBase(s, a);
      case Spawn(pid, r, command) => SpawnKeepsBase(s, pid, r, command);
      case Arm(r, deadline) => ArmKeepsBase(s, r, deadline);
      case _ => CloudKeepsBase(s, a);
    }
  }

  lemma {:induction false} ReachableBase(s: State, acts: seq<Action>)
    requires Initial(s)
    ensures Base(Exec(s, acts))
    decreases |acts|
  {
    if acts != [] {
      ReachableBase(s, acts[..|acts|-1]);
      ApplyKeepsBase(Exec(s, acts[..|acts|-1]), acts[|acts|-1]);
    }
  }

  // ------------------------------------------------------------ the results

  /** In every run each receipt's start is called at most once. */
  lemma AtMostOneStart(s: State, acts: seq<Action>, r: Run)
    requires Initial(s)
    ensures Exec(s, acts).issued[r] <= 1
  {
    ReachableBase(s, acts);
  }

  /** A step issues a start only as the start call of a process, and then the
      durable receipt records the intent as uncertain, tag and admission file are
      this run's, none was issued before, and the clock was last read in time. */
  lemma StartsAreRecorded(s: State, acts: seq<Action>, a: Action)
    requires Initial(s) && Apply(Exec(s, acts), a).issued != Exec(s, acts).issued
    ensures var t := Exec(s, acts);
      && a.Go? && a.pid in t.procs && t.procs[a.pid].pc == StartCall
      && var p := t.procs[a.pid];
      && p.run in t.receipts && Intent(t.receipts[p.run]) && Owns(t, p.run)
      && t.issued[p.run] == 0 && Apply(t, a).issued == t.issued + multiset{p.run}
      && p.clock < t.receipts[p.run].deadline - STOP_MARGIN
      // From then on it may take effect.
      && p.run in Apply(t, a).cloud.starts && Apply(Apply(t, a), Activate(p.run)).cloud.power != Off
  {
    var t := Exec(s, acts);
    ReachableBase(s, acts);
    hide Exec, LocksExclude;
    OnlyStartCallIssues(t, a);
    assert ProcBase(t, t.procs[a.pid]);
  }

  lemma OnlyStartCallIssues(t: State, a: Action)
    requires Apply(t, a).issued != t.issued
    ensures a.Go? && a.pid in t.procs && t.procs[a.pid].pc == StartCall
    ensures Apply(t, a).issued == t.issued + multiset{t.procs[a.pid].run}
    ensures t.procs[a.pid].run in Apply(t, a).cloud.starts
    ensures Apply(Apply(t, a), Activate(t.procs[a.pid].run)).cloud.power != Off
  {
  }

  /** The tag of a run is removed only by that run's own release, and its
      admission file only by that run's own unlink, after the tag is gone. */
  lemma OnlyItsOwnRelease(s: State, acts: seq<Action>, a: Action, r: Run)
    requires Initial(s)
    ensures var t, t' := Exec(s, acts), Apply(Exec(s, acts), a);
      && (t.cloud.owner == Ours(r) && t'.cloud.owner != Ours(r) ==>
            a.Go? && a.pid in t.procs && t.procs[a.pid].run == r && t.procs[a.pid].pc == ReleaseTag)
      && (t.admission == Of(r) && t'.admission != Of(r) ==>
            a.Go? && a.pid in t.procs && t.procs[a.pid].run == r && t.procs[a.pid].pc == Unlink
            && t.cloud.owner != Ours(r))
  {
    hide Exec, Initial, Apply, ProcBase, FilesBase, LocksExclude;
    var t := Exec(s, acts);
    ReachableBase(s, acts);
    if Apply(t, a).cloud.owner != t.cloud.owner {
      WhoRetags(t, a);
      if t.cloud.owner.Ours? { ReleasesOwn(t, t.procs[a.pid]); }
    }
    if Apply(t, a).admission != t.admission {
      WhoMovesAdmission(t, a);
      ReleasesOwn(t, t.procs[a.pid]);
    }
  }

  /** What a process about to change tag or admission file finds there. */
  lemma ReleasesOwn(t: State, p: Proc)
    requires ProcBase(t, p) && FilesBase(t)
    ensures p.pc == StartClaim && t.cloud.owner.Ours? ==> t.cloud.owner == Ours(p.run)
    ensures p.pc == StartAdmission ==> t.admission == Absent
    ensures p.pc == Unlink ==> t.admission == Of(p.run) && t.cloud.owner != Ours(p.run)
  {
  }

  lemma WhoRetags(t: State, a: Action)
    requires Apply(t, a).cloud.owner != t.cloud.owner
    ensures t.cloud.owner.Ours? ==>
      a.Go? && a.pid in t.procs
      && var p := t.procs[a.pid];
      (p.pc == StartClaim && Apply(t, a).cloud.owner == Ours(p.run)) || (p.pc == ReleaseTag && t.cloud.owner == Ours(p.run))
  {
  }

  lemma WhoMovesAdmission(t: State, a: Action)
    requires Apply(t, a).admission != t.admission
    ensures (a.Go? || a.Tear?) && a.pid in t.procs
    ensures var pc := t.procs[a.pid].pc; pc == StartAdmission || (pc == Unlink && a.Go?)
  {
  }
}
