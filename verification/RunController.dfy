/** The bounded EC2 runs of one controller host: operator commands and
    supervisors over durable receipts, one admission file and a cloud whose
    start call may take effect arbitrarily late. Any process may die between
    any two effects, and any call may fail, before or after its effect. */
module RunController {
  import opened Options

  /** A run: its receipt, its identifier and its owner tag go together. */
  type Run = nat
  type Pid = nat

  const STOP_MARGIN := 60

  datatype Phase = Armed | StartIntent | Running | Stopping | Settling | Stopped

  datatype Receipt = Receipt(state: Phase, requested: bool, uncertain: Option<bool>, deadline: int) {
    /** value.get("start_uncertain", value["state"] == "start_intent") */
    predicate Uncertain() {
      if uncertain == None then state == StartIntent else uncertain.value
    }
  }

  datatype Power = Off | On | GoingDown

  datatype Owner = Nobody | Ours(run: Run) | Foreign

  /** `starts` are the runs whose issued start call may still take effect. */
  datatype Cloud = Cloud(power: Power, owner: Owner, starts: set<Run>)

  /** The admission file: a crash while creating it leaves it unreadable. */
  datatype Admission = Absent | Torn | Of(run: Run)

  datatype Pc =
    // start, in order
    | StartLock | StartAdmit | StartCheck | StartObserve | StartAdmission | StartClaim | StartReobserve
    | StartWriteIntent | StartClock | StartWriteRefused | StartCall | StartConfirm | StartRecord
    // stop, and the part of watch that stops without the receipt lock
    | StopLock | StopObserve | StopCall | StopReobserve | StopHandler
    | PublishLock | PublishWrite | PublishObserve | ReleaseTag | ReleaseAdmission | Unlink
    // watch, between its stops
    | WatchIdle | WatchDecide

  /** A process of one run. `value` is the receipt its command works on, `memory`
      the one a supervisor retains, `fault` its stop after a storage fault, and
      `clock` the time a start last read. */
  datatype Proc = Proc(
    run: Run, watcher: bool, fault: bool, pc: Pc, value: Receipt, memory: Receipt, clock: int)

  datatype State = State(
    now: int, cloud: Cloud, receipts: map<Run, Receipt>, admission: Admission, procs: map<Pid, Proc>,
    issued: multiset<Run>)

  // ----------------------------------------------------------------- locks

  predicate HoldsReceipt(p: Proc) {
    match p.pc
    case StartLock => false
    case StopLock => false
    case PublishLock => false
    case WatchIdle => false
    case WatchDecide => false
    case StopObserve => !p.fault
    case StopCall => !p.fault
    case StopReobserve => !p.fault
    case _ => true
  }

  predicate HoldsAdmission(p: Proc) {
    match p.pc
    case StartCheck => true
    case StartObserve => true
    case StartAdmission => true
    case StartClaim => true
    case StartReobserve => true
    case StartWriteIntent => true
    case StartClock => true
    case StartWriteRefused => true
    case StartCall => true
    case StartConfirm => true
    case StartRecord => true
    case Unlink => true
    case _ => false
  }

  predicate ReceiptFree(s: State, r: Run) {
    forall pid | pid in s.procs :: s.procs[pid].run == r ==> !HoldsReceipt(s.procs[pid])
  }

  predicate AdmissionFree(s: State) {
    forall pid | pid in s.procs :: !HoldsAdmission(s.procs[pid])
  }

  // --------------------------------------------------- what stop decides

  /** The end of _stop_cloud when the instance is seen stopped. */
  function Settle(v: Receipt): Receipt {
    v.(state := if v.Uncertain() then Settling else Stopped)
  }

  /** _stop_cloud after its first observation: the new receipt, and what comes next. */
  function Decide(v: Receipt, r: Run, c: Cloud): (Receipt, Pc) {
    if c.owner != Ours(r) then
      if c.power == Off && c.owner == Nobody && (!v.requested || v.state == Stopped) then
        (v.(state := Stopped), PublishWrite)
      else (v, StopHandler)
    else if c.power != Off then
      (v.(uncertain := Some(false), state := Stopping), if c.power == On then StopCall else StopReobserve)
    else (Settle(v), PublishWrite)
  }

  /** And after its second. */
  function DecideAgain(v: Receipt, r: Run, c: Cloud): (Receipt, Pc) {
    if c.owner != Ours(r) then (v, StopHandler)
    else if c.power == Off then (Settle(v), PublishWrite)
    else (v, PublishWrite)
  }

  // ----------------------------------------------------------- the machine

  datatype Command = StartCommand | StopCommand | WatchCommand

  datatype Action =
    | Tick(seconds: nat)
    | Arm(run: Run, deadline: int)
    | Spawn(pid: Pid, run: Run, command: Command)
    | Go(pid: Pid)        // the process takes its next step
    | Fail(pid: Pid)      // the step it stands at raises instead
    | Tear(pid: Pid)      // creating the admission file stops half way
    | Crash(pid: Pid)
    // the cloud, and other parties while the instance carries no tag of ours
    | Activate(run: Run) | Forget(run: Run) | ShutDown | PowerOff
    | ForeignStart | ForeignTag | ForeignUntag

  /** What one step of a process leads to: it waits for a lock, it ends, or it
      goes on in a new state; the shared state may have changed either way. */
  datatype Next = Wait | End(shared: State) | To(shared: State, proc: Proc)

  /** A finished command: an operator's process ends, and so does a supervisor
      whose run is stopped; otherwise the supervisor goes on with what it has. */
  function Finish(s: State, p: Proc): Next {
    if !p.watcher || p.value.state == Stopped then End(s)
    else To(s, p.(pc := WatchIdle, memory := p.value))
  }

  /** A command that raises: a supervisor goes on, keeping what its own
      lock-free stop changed in the receipt it retains. */
  function Raise(s: State, p: Proc): Next {
    if !p.watcher then End(s)
    else To(s, p.(pc := WatchIdle, memory := if p.fault then p.value else p.memory))
  }

  /** After an observation of stop: on to `next`, except that the lock-free stop
      has no handler and must take the receipt lock before it publishes. */
  function MoveTo(s: State, p: Proc, next: (Receipt, Pc)): Next {
    var q := p.(value := next.0);
    if next.1 == StopHandler && p.fault then Raise(s, q)
    else To(s, q.(pc := if next.1 == PublishWrite && p.fault then PublishLock else next.1))
  }

  function Write(s: State, r: Run, v: Receipt): State {
    s.(receipts := s.receipts[r := v])
  }

  function Tag(s: State, owner: Owner): State {
    s.(cloud := s.cloud.(owner := owner))
  }

  function GoStart(s: State, p: Proc): Next {
    var r := p.run;
    match p.pc
    case StartLock =>
      if ReceiptFree(s, r) && r in s.receipts then To(s, p.(pc := StartAdmit, value := s.receipts[r])) else Wait
    case StartAdmit => if AdmissionFree(s) then To(s, p.(pc := StartCheck)) else Wait
    case StartCheck =>
      if p.value.state != Armed || s.now >= p.value.deadline - STOP_MARGIN || s.admission != Absent
      then End(s) else To(s, p.(pc := StartObserve))
    case StartObserve =>
      if s.cloud.power == Off && s.cloud.owner == Nobody then To(s, p.(pc := StartAdmission)) else End(s)
    case StartAdmission => To(s.(admission := Of(r)), p.(pc := StartClaim))
    case StartClaim => To(Tag(s, Ours(r)), p.(pc := StartReobserve))
    case StartReobserve =>
      if s.cloud.power == Off && s.cloud.owner == Ours(r) then
        To(s, p.(pc := StartWriteIntent,
                 value := p.value.(requested := true, state := StartIntent, uncertain := Some(true))))
      else End(s)
    case StartWriteIntent => To(Write(s, r, p.value), p.(pc := StartClock))
    case StartClock =>
      if s.now >= p.value.deadline - STOP_MARGIN then
        To(s, p.(pc := StartWriteRefused, clock := s.now, value := p.value.(state := Stopping, uncertain := Some(false))))
      else To(s, p.(pc := StartCall, clock := s.now))
    case StartWriteRefused => End(Write(s, r, p.value))
    case StartCall =>
      To(s.(cloud := s.cloud.(starts := s.cloud.starts + {r}), issued := s.issued + multiset{r}),
         p.(pc := StartConfirm))
    case StartConfirm =>
      if s.cloud.owner != Ours(r) then End(s)
      else
        var visible := s.cloud.power != Off;
        To(s, p.(pc := StartRecord,
                 value := p.value.(state := if visible then Running else StartIntent, uncertain := Some(!visible))))
    case StartRecord => End(Write(s, r, p.value))
    case _ => Wait
  }

  function GoStop(s: State, p: Proc): Next {
    var r := p.run;
    match p.pc
    case StopLock =>
      if ReceiptFree(s, r) && r in s.receipts then To(s, p.(pc := StopObserve, value := s.receipts[r])) else Wait
    case StopObserve => MoveTo(s, p, Decide(p.value, r, s.cloud))
    case StopCall =>
      To(s.(cloud := s.cloud.(power := if s.cloud.power == On then GoingDown else s.cloud.power)),
         p.(pc := StopReobserve))
    case StopReobserve => MoveTo(s, p, DecideAgain(p.value, r, s.cloud))
    case StopHandler => Raise(Write(s, r, p.value), p)
    case PublishLock => if ReceiptFree(s, r) then To(s, p.(pc := PublishWrite)) else Wait
    case PublishWrite =>
      if p.value.state == Stopped then To(Write(s, r, p.value), p.(pc := PublishObserve))
      else Finish(Write(s, r, p.value), p)
    case PublishObserve =>
      if s.cloud.power != Off || (s.cloud.owner != Nobody && s.cloud.owner != Ours(r)) then Raise(s, p)
      else To(s, p.(pc := if s.cloud.owner == Ours(r) then ReleaseTag else ReleaseAdmission))
    case ReleaseTag =>
      To(Tag(s, if s.cloud.owner == Ours(r) then Nobody else s.cloud.owner), p.(pc := ReleaseAdmission))
    case ReleaseAdmission =>
      if !AdmissionFree(s) then Wait
      else if s.admission == Absent then Finish(s, p)
      else if s.admission == Of(r) then To(s, p.(pc := Unlink))
      else Raise(s, p)
    case Unlink => Finish(s.(admission := Absent), p)
    case _ => Wait
  }

  function GoWatch(s: State, p: Proc): Next {
    var r, m := p.run, p.memory;
    match p.pc
    case WatchIdle =>
      if ReceiptFree(s, r) && r in s.receipts then
        To(s, p.(pc := WatchDecide, memory := s.receipts[r], fault := false))
      else Wait
    case WatchDecide =>
      if s.now >= m.deadline - STOP_MARGIN || m.state == Stopping || m.state == Settling || m.state == Stopped
      then To(s, p.(pc := StopLock)) else To(s, p.(pc := WatchIdle))
    case _ => Wait
  }

  /** The heartbeat meets a storage fault: stop with the retained receipt,
      taken as possibly started. */
  function Faulted(m: Receipt): Receipt {
    if m.requested then m else m.(requested := true, uncertain := Some(true))
  }

  /** The step a process stands at raises. */
  function FailAt(s: State, p: Proc): Next {
    match p.pc
    case WatchIdle => To(s, p.(pc := StopObserve, fault := true, value := Faulted(p.memory)))
    case WatchDecide => Wait
    case StopObserve => MoveTo(s, p, (p.value, StopHandler))
    case StopCall => MoveTo(s, p, (p.value, StopHandler))
    case StopReobserve => MoveTo(s, p, (p.value, StopHandler))
    case _ => Raise(s, p)
  }

  function GoNext(s: State, p: Proc): Next {
    if IsStart(p.pc) then GoStart(s, p)
    else if p.pc == WatchIdle || p.pc == WatchDecide then GoWatch(s, p)
    else GoStop(s, p)
  }

  function Put(s: State, pid: Pid, p: Proc): State {
    s.(procs := s.procs[pid := p])
  }

  function Gone(s: State, pid: Pid): State {
    s.(procs := s.procs - {pid})
  }

  function Move(s: State, pid: Pid, next: Next): State {
    match next
    case Wait => s
    case End(t) => Gone(t, pid)
    case To(t, q) => Put(t, pid, q)
  }

  function ApplyCloud(s: State, a: Action): State {
    var c := s.cloud;
    match a
    case Activate(r) =>
      if r in c.starts then s.(cloud := c.(starts := c.starts - {r}, power := if c.power == Off then On else c.power))
      else s
    case Forget(r) => s.(cloud := c.(starts := c.starts - {r}))
    case ShutDown => if c.power == On then s.(cloud := c.(power := GoingDown)) else s
    case PowerOff => if c.power == GoingDown then s.(cloud := c.(power := Off)) else s
    case ForeignStart => if c.owner.Ours? || c.power != Off then s else s.(cloud := c.(power := On))
    case ForeignTag => if c.owner == Nobody then s.(cloud := c.(owner := Foreign)) else s
    case ForeignUntag => if c.owner == Foreign then s.(cloud := c.(owner := Nobody)) else s
    case _ => s
  }

  const BLANK := Receipt(Armed, false, None, 0)

  /** One step. An action that is not enabled changes nothing. */
  function Apply(s: State, a: Action): State {
    match a
    case Tick(seconds) => s.(now := s.now + seconds)
    case Arm(r, deadline) =>
      if r in s.receipts || !(120 <= deadline - s.now <= 7200) then s
      else s.(receipts := s.receipts[r := Receipt(Armed, false, None, deadline)])
    case Spawn(pid, r, command) =>
      if pid in s.procs || r !in s.receipts then s
      else match command {
        case StartCommand => Put(s, pid, Proc(r, false, false, StartLock, BLANK, BLANK, s.now))
        case StopCommand => Put(s, pid, Proc(r, false, false, StopLock, BLANK, BLANK, s.now))
        case WatchCommand =>
          if ReceiptFree(s, r) then Put(s, pid, Proc(r, true, false, WatchIdle, s.receipts[r], s.receipts[r], s.now)) else s
      }
    case Go(pid) => if pid in s.procs then Move(s, pid, GoNext(s, s.procs[pid])) else s
    case Fail(pid) => if pid in s.procs then Move(s, pid, FailAt(s, s.procs[pid])) else s
    case Tear(pid) =>
      if pid in s.procs && s.procs[pid].pc == StartAdmission then Gone(s.(admission := Torn), pid) else s
    case Crash(pid) => Gone(s, pid)
    case _ => ApplyCloud(s, a)
  }

  predicate IsStart(pc: Pc) {
    pc.StartLock? || pc.StartAdmit? || pc.StartCheck? || pc.StartObserve? || pc.StartAdmission? || pc.StartClaim?
    || pc.StartReobserve? || pc.StartWriteIntent? || pc.StartClock? || pc.StartWriteRefused? || pc.StartCall?
    || pc.StartConfirm? || pc.StartRecord?
  }

  function Exec(s: State, acts: seq<Action>): State
    decreases |acts|
  {
    if acts == [] then s else Apply(Exec(s, acts[..|acts|-1]), acts[|acts|-1])
  }

  /** A host with no receipt yet; the instance may be in any hands. */
  predicate Initial(s: State) {
    s.receipts == map[] && s.procs == map[] && s.admission == Absent && s.cloud.starts == {}
    && !s.cloud.owner.Ours? && s.issued == multiset{}
  }

  /** A supervisor of this run is there. */
  predicate Supervised(s: State, r: Run) {
    exists pid :: pid in s.procs && s.procs[pid].run == r && s.procs[pid].watcher
  }

  /** A process that tags the instance finds it still stopped, or has no supervisor,
      or is too late to start it. */
  predicate CleanStep(s: State, a: Action) {
    a.Go? && a.pid in s.procs && s.procs[a.pid].pc == StartClaim ==>
      || s.cloud.power == Off || !Supervised(s, s.procs[a.pid].run)
      || s.now >= s.procs[a.pid].value.deadline - STOP_MARGIN
  }

  /** No other party started the instance between the observation and the tag of a
      start that is in time and under supervision. */
  predicate Clean(s: State, acts: seq<Action>)
    decreases |acts|
  {
    acts == []
    || (Clean(s, acts[..|acts|-1]) && CleanStep(Exec(s, acts[..|acts|-1]), acts[|acts|-1]))
  }
}
