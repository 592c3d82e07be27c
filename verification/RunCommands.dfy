/** The commands of the controller as the source writes them, one call or file
    write at a time, while other processes, the cloud and the clock go on in
    between. Every way through them is a run of the machine in RunController. */
module RunCommands {
  import opened Options
  import opened RunController
  import opened RunOwnership
  import opened RunSafety

  /** The run `trace` led to this shared state, where `pid` is at `p` beside the others. */
  ghost predicate Led(first: State, trace: seq<Action>, s: State, pid: Pid, p: Proc) {
    Initial(first) && pid !in s.procs && Exec(first, trace) == Put(s, pid, p)
  }

  /** And to this one, where `pid` is gone. */
  ghost predicate LedOut(first: State, trace: seq<Action>, s: State, pid: Pid) {
    Initial(first) && pid !in s.procs && Exec(first, trace) == s
  }

  lemma ExecMore(first: State, trace: seq<Action>, a: Action)
    ensures Exec(first, trace + [a]) == Apply(Exec(first, trace), a)
  {
    hide Apply;
    assert (trace + [a])[..|trace|] == trace;
  }

  predicate Mine(a: Action, pid: Pid) {
    (a.Go? || a.Fail? || a.Tear? || a.Crash?) && a.pid == pid
  }

  lemma OthersLeaveMe(s: State, a: Action, pid: Pid)
    requires pid in s.procs && !Mine(a, pid)
    ensures pid in Apply(s, a).procs && Apply(s, a).procs[pid] == s.procs[pid]
  {
    if (a.Go? || a.Fail?) && a.pid in s.procs { NextKeepsProcs(s, s.procs[a.pid]); }
    hide GoNext, FailAt;
  }

  lemma TheyStepped(first: State, trace: seq<Action>, s: State, pid: Pid, p: Proc, a: Action)
    requires Led(first, trace, s, pid, p) && !Mine(a, pid)
    ensures var t := Apply(Put(s, pid, p), a); Led(first, trace + [a], t.(procs := t.procs - {pid}), pid, p)
  {
    ExecMore(first, trace, a);
    OthersLeaveMe(Put(s, pid, p), a, pid);
    hide Apply, Exec, Initial;
    var t := Apply(Put(s, pid, p), a);
    assert (t.procs - {pid})[pid := p] == t.procs;
  }

  lemma IssuedGrows(s: State, a: Action)
    ensures s.issued <= Apply(s, a).issued
  {
  }

  /** Creating the admission file stops half way, and with it the command. */
  lemma ITore(first: State, trace: seq<Action>, s: State, pid: Pid, p: Proc)
    requires Led(first, trace, s, pid, p) && p.pc == StartAdmission
    ensures LedOut(first, trace + [Tear(pid)], s.(admission := Torn), pid)
  {
    ExecMore(first, trace, Tear(pid));
    hide Exec, Initial;
    assert s.procs[pid := p] - {pid} == s.procs;
  }

  /** What a step of `pid` comes to in the shared state. */
  ghost predicate Steps(s: State, pid: Pid, p: Proc, failed: bool, s': State, p': Proc) {
    var n := if failed then FailAt(Put(s, pid, p), p) else GoNext(Put(s, pid, p), p);
    n.To? && n.proc == p' && n.shared.(procs := s.procs) == s'
  }

  ghost predicate Ends(s: State, pid: Pid, p: Proc, failed: bool, s': State) {
    var n := if failed then FailAt(Put(s, pid, p), p) else GoNext(Put(s, pid, p), p);
    n.End? && n.shared.(procs := s.procs) == s'
  }

  function Turn(pid: Pid, failed: bool): Action {
    if failed then Fail(pid) else Go(pid)
  }

  lemma IStepped(first: State, trace: seq<Action>, s: State, pid: Pid, p: Proc, failed: bool, s': State, p': Proc)
    requires Led(first, trace, s, pid, p) && Steps(s, pid, p, failed, s', p')
    ensures Led(first, trace + [Turn(pid, failed)], s', pid, p')
  {
    ExecMore(first, trace, Turn(pid, failed));
    NextKeepsProcs(Put(s, pid, p), p);
    hide GoNext, FailAt, Exec, Initial;
    assert s.procs[pid := p][pid := p'] == s.procs[pid := p'];
  }

  lemma IEnded(first: State, trace: seq<Action>, s: State, pid: Pid, p: Proc, failed: bool, s': State)
    requires Led(first, trace, s, pid, p) && Ends(s, pid, p, failed, s')
    ensures LedOut(first, trace + [Turn(pid, failed)], s', pid)
  {
    ExecMore(first, trace, Turn(pid, failed));
    NextKeepsProcs(Put(s, pid, p), p);
    hide GoNext, FailAt, Exec, Initial;
    assert s.procs[pid := p] - {pid} == s.procs;
  }

  // ------------------------------------------------ why a command answers so

  /** What a command may find. */
  datatype Finding =
    | NotOn | IsOff               // the instance is stopped or going down; it is stopped
    | NotOurs(run: Run)           // it has not this run's tag
    | NotFree(run: Run)           // it is not stopped, or has another tag
    | IsLate(run: Run)            // it is a minute to the deadline, or later
    | NotArmed(run: Run)          // the receipt is past `armed`
    | IsEnding(run: Run)          // it says stopping, settling or stopped
    | NotEnding(run: Run)
    | IsAdmitted(pid: Pid)        // a start looks for the admission file, and it is there
    | MayBegin(pid: Pid)          // it is not, the receipt is armed and there is time
    | IsFree | IsClaimed(run: Run)   // the instance is stopped, without a tag or with this run's
    | IsBlocked(run: Run)         // a stopped run may not be released
    | IsPending(run: Run)         // the start call may still take effect
    | IsVisible(run: Run, up: bool)  // the start was called, and the instance is up or not
    | IsStored(run: Run, v: Receipt)

  predicate Holds(s: State, f: Finding) {
    match f
    case NotOn => s.cloud.power != On
    case IsOff => s.cloud.power == Off
    case NotOurs(r) => s.cloud.owner != Ours(r)
    case NotFree(r) => s.cloud.power != Off || (s.cloud.owner != Nobody && s.cloud.owner != Ours(r))
    case IsLate(r) => r in s.receipts && Late(s.now, s.receipts[r])
    case NotArmed(r) => r in s.receipts && s.receipts[r].state != Armed
    case IsEnding(r) => r in s.receipts && Ending(s.receipts[r])
    case NotEnding(r) => r in s.receipts && !Ending(s.receipts[r])
    case IsAdmitted(pid) => pid in s.procs && s.procs[pid].pc == StartCheck && s.admission != Absent
    case MayBegin(pid) =>
      && pid in s.procs && s.procs[pid].pc == StartCheck && s.admission == Absent
      && s.procs[pid].value.state == Armed && s.now < s.procs[pid].value.deadline - 60
    case IsFree => s.cloud.power == Off && s.cloud.owner == Nobody
    case IsClaimed(r) => s.cloud.power == Off && s.cloud.owner == Ours(r)
    case IsBlocked(r) =>
      r in s.receipts && s.receipts[r].state == Stopped
      && (s.cloud.power != Off || (s.cloud.owner != Nobody && s.cloud.owner != Ours(r))
          || (s.admission != Absent && s.admission != Of(r)))
    case IsPending(r) => r in s.cloud.starts
    case IsVisible(r, up) => r in s.issued && (up <==> s.cloud.power != Off)
    case IsStored(r, v) => r in s.receipts && s.receipts[r] == v
  }

  /** It was so at a moment of the command. */
  ghost predicate Found(first: State, before: seq<Action>, after: seq<Action>, f: Finding) {
    exists moment :: before <= moment <= after && Holds(Exec(first, moment), f)
  }

  /** The instance was looked at twice, in this order. */
  ghost predicate Looked(first: State, before: seq<Action>, after: seq<Action>, c: Cloud, d: Cloud) {
    exists moment, later :: before <= moment <= later <= after
      && Exec(first, moment).cloud == c && Exec(first, later).cloud == d
  }

  predicate Breaks(a: Action, pid: Pid) {
    a == Fail(pid) || a == Tear(pid)
  }

  /** A call, a write or a lock of this process failed. */
  ghost predicate Broke(before: seq<Action>, after: seq<Action>, pid: Pid) {
    exists i :: |before| <= i < |after| && Breaks(after[i], pid)
  }

  lemma Chains<T>(a: seq<T>, b: seq<T>, c: seq<T>)
    requires a <= b <= c
    ensures a <= c
  {
    assert a == b[..|a|] == c[..|a|];
  }

  /** What was found in a part of a command was found in the command. */
  lemma GoesOn(first: State, before: seq<Action>, middle: seq<Action>, after: seq<Action>, pid: Pid)
    requires before <= middle <= after
    ensures before <= after
    ensures forall f ::
      Found(first, middle, after, f) || Found(first, before, middle, f) ==> Found(first, before, after, f)
    ensures Broke(middle, after, pid) || Broke(before, middle, pid) ==> Broke(before, after, pid)
    ensures forall c, d ::
      Looked(first, middle, after, c, d) || Looked(first, before, middle, c, d) ==> Looked(first, before, after, c, d)
  {
    hide Holds, Exec, Breaks, Looked, Broke;
    Chains(before, middle, after);
    forall f | Found(first, middle, after, f) || Found(first, before, middle, f)
      ensures Found(first, before, after, f)
    {
      if Found(first, middle, after, f) {
        var moment :| middle <= moment <= after && Holds(Exec(first, moment), f);
        Chains(before, middle, moment);
      } else {
        var moment :| before <= moment <= middle && Holds(Exec(first, moment), f);
        Chains(moment, middle, after);
      }
    }
    FailureStays(before, middle, after, pid);
    forall c, d | Looked(first, middle, after, c, d) || Looked(first, before, middle, c, d)
      ensures Looked(first, before, after, c, d)
    {
      LookStays(first, before, middle, after, c, d);
    }
  }

  lemma FailureStays(before: seq<Action>, middle: seq<Action>, after: seq<Action>, pid: Pid)
    requires before <= middle <= after
    ensures Broke(middle, after, pid) || Broke(before, middle, pid) ==> Broke(before, after, pid)
  {
    hide Breaks;
    if Broke(before, middle, pid) {
      var i :| |before| <= i < |middle| && Breaks(middle[i], pid);
      assert after[i] == middle[i];
    }
  }

  lemma LookStays(
      first: State, before: seq<Action>, middle: seq<Action>, after: seq<Action>, c: Cloud, d: Cloud)
    requires before <= middle <= after
    ensures Looked(first, middle, after, c, d) || Looked(first, before, middle, c, d) ==> Looked(first, before, after, c, d)
  {
    hide Exec;
    if Looked(first, middle, after, c, d) {
      var moment, later :| middle <= moment <= later <= after
        && Exec(first, moment).cloud == c && Exec(first, later).cloud == d;
      Chains(before, middle, moment);
    } else if Looked(first, before, middle, c, d) {
      var moment, later :| before <= moment <= later <= middle
        && Exec(first, moment).cloud == c && Exec(first, later).cloud == d;
      Chains(later, middle, after);
    }
  }

  /** Two looks, one in each part. */
  lemma LooksTwice(first: State, before: seq<Action>, middle: seq<Action>, after: seq<Action>, c: Cloud, d: Cloud)
    requires before <= middle <= after
    requires Looked(first, before, middle, c, c) && Looked(first, middle, after, d, d)
    ensures Looked(first, before, after, c, d)
  {
    hide Exec;
    var m, m' :| before <= m <= m' <= middle && Exec(first, m).cloud == c && Exec(first, m').cloud == c;
    var n, n' :| middle <= n <= n' <= after && Exec(first, n).cloud == d && Exec(first, n').cloud == d;
    Chains(m, m', middle);
    Chains(m, middle, n);
    Chains(n, n', after);
  }

  /** What _stop_cloud makes of a receipt when it has seen this, and then that. */
  predicate Concluded(run: Run, v: Receipt, c: Cloud, d: Cloud, v': Receipt) {
    if c.owner == Ours(run) && c.power != Off then
      d.owner == Ours(run) && v' == v.(uncertain := Some(false), state := if d.power == Off then Stopped else Stopping)
    else if c.owner == Ours(run) then v' == v.(state := if v.Uncertain() then Settling else Stopped)
    else c.power == Off && c.owner == Nobody && (!v.requested || v.state == Stopped) && v' == v.(state := Stopped)
  }

  /** What it must have seen to raise without a failing call. */
  predicate NothingToStop(run: Run, v: Receipt, c: Cloud, d: Cloud) {
    if c.owner == Ours(run) then c.power != Off && d.owner != Ours(run)
    else !(c.power == Off && c.owner == Nobody && (!v.requested || v.state == Stopped))
  }

  datatype ArmAnswer =
    | ArmedRun
    | Unapproved | InvalidDeadline | CredentialExpires | Unreached | OwnedOrRunning | ReceiptExists

  /** The host, the cloud and the other processes. */
  class Host {
    var now: int
    var cloud: Cloud
    var receipts: map<Run, Receipt>
    var admission: Admission
    var others: map<Pid, Proc>
    var issued: multiset<Run>
    ghost const first: State
    ghost var trace: seq<Action>

    constructor (s: State)
      requires Initial(s)
      ensures Rests() && Shared() == s && first == s && trace == []
    {
      now, cloud, receipts, admission, others, issued := s.now, s.cloud, s.receipts, s.admission, s.procs, s.issued;
      first, trace := s, [];
    }

    function Shared(): State
      reads this
    {
      State(now, cloud, receipts, admission, others, issued)
    }

    /** No command of ours is under way. */
    ghost predicate Rests()
      reads this
    {
      Initial(first) && Exec(first, trace) == Shared()
    }

    /** arm, at one moment: `expiration` is that of the credential, `reached` says
        that account and instance could be asked. It refuses for the first reason
        there is, and otherwise leaves an armed receipt of a stopped, free instance. */
    method Arm(run: Run, deadline: int, approved: bool, expiration: Option<int>, reached: bool) returns (answer: ArmAnswer)
      requires Rests()
      modifies this`receipts, this`trace
      ensures Rests()
      ensures answer == Unapproved <==> !approved
      ensures answer == InvalidDeadline <==> approved && !InReach(deadline)
      ensures answer == CredentialExpires <==> approved && InReach(deadline) && expiration.Some? && expiration.value <= deadline + 120
      ensures answer == Unreached ==> !reached
      ensures answer == OwnedOrRunning ==> cloud.power != Off || cloud.owner != Nobody
      ensures answer == ReceiptExists ==> run in old(receipts)
      ensures answer == ArmedRun <==>
        && approved && InReach(deadline) && (expiration == None || expiration.value > deadline + 120)
        && reached && cloud.power == Off && cloud.owner == Nobody && run !in old(receipts)
      ensures receipts == if answer == ArmedRun then old(receipts)[run := Receipt(Armed, false, None, deadline)] else old(receipts)
    {
      if !approved { return Unapproved; }
      if !(120 <= deadline - now <= 7200) { return InvalidDeadline; }
      if expiration.Some? && expiration.value <= deadline + 120 { return CredentialExpires; }
      if !reached { return Unreached; }
      if cloud.power != Off || cloud.owner != Nobody { return OwnedOrRunning; }
      if run in receipts { return ReceiptExists; }
      ExecMore(first, trace, RunController.Arm(run, deadline));
      hide Exec;
      receipts := receipts[run := Receipt(Armed, false, None, deadline)];
      trace := trace + [RunController.Arm(run, deadline)];
      return ArmedRun;
    }

    /** Between two minutes and two hours ahead. */
    predicate InReach(deadline: int)
      reads this`now
    {
      120 <= deadline - now <= 7200
    }

    /** The command stands where the run led it. */
    ghost predicate Runs(c: Command)
      reads this, c
    {
      Led(first, trace, Shared(), c.pid, c.Proc())
    }

    /** The command has ended. */
    ghost predicate Left(c: Command)
      reads this
    {
      LedOut(first, trace, Shared(), c.pid)
    }

    /** Any number of steps of the others, the cloud and the clock. */
    method Interfere(c: Command)
      requires Runs(c)
      modifies this
      ensures Runs(c) && old(issued) <= issued && old(trace) <= trace && old(now) <= now
    {
      hide Led;
      var n: nat := *;
      while n > 0
        invariant Runs(c) && old(issued) <= issued && old(trace) <= trace && old(now) <= now
      {
        var a: Action := *;
        ghost var before := trace;
        if !Mine(a, c.pid) { They(c, a); }
        Chains(old(trace), before, trace);
        n := n - 1;
      }
    }

    method They(c: Command, a: Action)
      requires Runs(c) && !Mine(a, c.pid)
      modifies this
      ensures Runs(c) && old(issued) <= issued && old(trace) <= trace && old(now) <= now
    {
      hide Led, Apply;
      IssuedGrows(Put(Shared(), c.pid, c.Proc()), a);
      TimePasses(Put(Shared(), c.pid, c.Proc()), a);
      TheyStepped(first, trace, Shared(), c.pid, c.Proc(), a);
      var t := Apply(Put(Shared(), c.pid, c.Proc()), a);
      now, cloud, receipts, admission, others, issued :=
        t.now, t.cloud, t.receipts, t.admission, t.procs - {c.pid}, t.issued;
      trace := trace + [a];
    }

    /** The command made this step, or failed at it. */
    ghost method Did(c: Command, s: State, p: Proc, failed: bool)
      requires Led(first, trace, s, c.pid, p) && Steps(s, c.pid, p, failed, Shared(), c.Proc())
      modifies this`trace
      ensures Runs(c) && trace == old(trace) + [Turn(c.pid, failed)]
      ensures failed ==> Broke(old(trace), trace, c.pid)
    {
      IStepped(first, trace, s, c.pid, p, failed, Shared(), c.Proc());
      trace := trace + [Turn(c.pid, failed)];
      assert trace[|old(trace)|] == Turn(c.pid, failed);
    }

    ghost method Ended(c: Command, s: State, p: Proc, failed: bool)
      requires Led(first, trace, s, c.pid, p) && Ends(s, c.pid, p, failed, Shared())
      modifies this`trace
      ensures Left(c) && trace == old(trace) + [Turn(c.pid, failed)]
      ensures failed ==> Broke(old(trace), trace, c.pid)
    {
      IEnded(first, trace, s, c.pid, p, failed, Shared());
      trace := trace + [Turn(c.pid, failed)];
      assert trace[|old(trace)|] == Turn(c.pid, failed);
    }

    ghost method TornBy(c: Command, s: State, p: Proc)
      requires Led(first, trace, s, c.pid, p) && p.pc == StartAdmission && s.(admission := Torn) == Shared()
      modifies this`trace
      ensures Left(c) && trace == old(trace) + [Tear(c.pid)] && Broke(old(trace), trace, c.pid)
    {
      ITore(first, trace, s, c.pid, p);
      trace := trace + [Tear(c.pid)];
      assert trace[|old(trace)|] == Tear(c.pid);
    }

    /** cloud.observe, which may fail. */
    method Observe(c: Command) returns (ok: bool, seen: Cloud)
      requires Runs(c)
      modifies this
      ensures Runs(c) && seen == cloud && old(issued) <= issued && old(trace) <= trace && old(now) <= now
    {
      hide Led;
      Interfere(c);
      ok, seen := *, cloud;
    }
  }

  datatype Outcome = Done | Refused | Failed

  class Command {
    const pid: Pid
    const run: Run
    const watcher: bool
    var fault: bool
    var value: Receipt
    var memory: Receipt
    var clock: int
    // Where it stands, and so which locks it holds.
    var pc: Pc

    function Proc(): Proc
      reads this
    {
      RunController.Proc(run, watcher, fault, pc, value, memory, clock)
    }

    /** A process of an armed run; a supervisor reads the receipt first. */
    constructor (host: Host, pid: Pid, run: Run, command: RunController.Command)
      requires host.Rests() && pid !in host.others && run in host.receipts
      requires command.WatchCommand? ==> ReceiptFree(host.Shared(), run)
      modifies host`trace
      ensures host.Runs(this) && this.run == run && watcher == command.WatchCommand? && !fault
      ensures pc == match command case StartCommand => StartLock case StopCommand => StopLock case WatchCommand => WatchIdle
    {
      this.pid, this.run, watcher, fault := pid, run, command.WatchCommand?, false;
      value := if command.WatchCommand? then host.receipts[run] else BLANK;
      memory := if command.WatchCommand? then host.receipts[run] else BLANK;
      clock := host.now;
      pc := match command case StartCommand => StartLock case StopCommand => StopLock case WatchCommand => WatchIdle;
      new;
      ExecMore(host.first, host.trace, Spawn(pid, run, command));
      hide Exec;
      host.trace := host.trace + [Spawn(pid, run, command)];
    }

    /** Since then a call, a write or a lock of this process failed. */
    ghost predicate Fell(host: Host, before: seq<Action>)
      reads this, host
    {
      Broke(before, host.trace, pid)
    }

    ghost predicate Saw(host: Host, before: seq<Action>, f: Finding)
      reads host
    {
      Found(host.first, before, host.trace, f)
    }

    lemma SawNow(host: Host, before: seq<Action>, f: Finding)
      requires host.Runs(this) && before <= host.trace && Holds(Put(host.Shared(), pid, Proc()), f)
      ensures Saw(host, before, f)
    {
      hide Exec, Holds;
    }

    lemma LooksNow(host: Host, before: seq<Action>)
      requires host.Runs(this) && before <= host.trace
      ensures Looked(host.first, before, host.trace, host.cloud, host.cloud)
    {
      hide Exec;
    }

    // ----------------------------------------------------------------- start

    /** What refuses a start. */
    ghost predicate HasReason(host: Host, before: seq<Action>)
      reads this, host
    {
      Saw(host, before, NotArmed(run)) || Saw(host, before, IsLate(run))
      || Saw(host, before, IsAdmitted(pid)) || Saw(host, before, NotFree(run))
    }

    /** What a start has seen before it calls: receipt, clock and admission file allowed
        it, and the instance was stopped, first without a tag and then with this one. */
    ghost predicate Cleared(host: Host, before: seq<Action>)
      reads this, host
    {
      Saw(host, before, MayBegin(pid)) && Saw(host, before, IsFree) && Saw(host, before, IsClaimed(run))
    }

    /** The start that is done, as the receipt has it. */
    ghost predicate Started(host: Host, before: seq<Action>)
      reads this, host
    {
      && Owns(host.Shared(), run) && run in host.receipts && host.receipts[run] == value && host.issued[run] == 1
      && value.requested && value.state == (if value.Uncertain() then StartIntent else Running)
      && Saw(host, before, IsVisible(run, value.state == Running))
    }

    /** The call or the write it stands at raises, and the command with it. */
    method StartRaises(host: Host)
      requires host.Runs(this) && !watcher && IsStart(pc)
      modifies host
      ensures host.Left(this) && unchanged(host`issued) && old(host.trace) <= host.trace && Fell(host, old(host.trace))
    {
      hide Led, LedOut, Broke;
      host.Ended(this, host.Shared(), Proc(), true);
    }

    /** start takes both locks and reads the receipt. */
    method Start(host: Host) returns (out: Outcome)
      requires host.Runs(this) && pc == StartLock && !watcher
      modifies this, host
      ensures host.Left(this) && old(host.trace) <= host.trace
      ensures out == Done ==> Cleared(host, old(host.trace))
      ensures out == Done ==> Started(host, old(host.trace)) && Saw(host, old(host.trace), IsPending(run))
      ensures out == Refused ==> HasReason(host, old(host.trace)) && (run in host.issued ==> value.state != Armed)
      ensures out == Failed ==> Fell(host, old(host.trace))
    {
      hide Led, LedOut, Found, Broke, Looked, Owns;
      var ok := ReadReceipt(host);
      ghost var read := host.trace;
      if ok { ok := EnterAdmission(host); }
      GoesOn(host.first, old(host.trace), read, host.trace, pid);
      ghost var entered := host.trace;
      if ok { out := StartLocked(host); } else { StartRaises(host); out := Failed; }
      GoesOn(host.first, old(host.trace), entered, host.trace, pid);
    }

    method ReadReceipt(host: Host) returns (ok: bool)
      requires host.Runs(this) && pc == StartLock
      modifies this, host
      ensures host.Runs(this) && pc == (if ok then StartAdmit else StartLock) && old(host.trace) <= host.trace
    {
      hide Led, LedOut;
      host.Interfere(this);
      ghost var asked := host.trace;
      ok := *;
      if !ReceiptFree(host.Shared(), run) || run !in host.receipts { ok := false; }
      if ok {
        ghost var s, p := host.Shared(), Proc();
        value, pc := host.receipts[run], StartAdmit;
        host.Did(this, s, p, false);
      }
      Chains(old(host.trace), asked, host.trace);
    }

    method EnterAdmission(host: Host) returns (ok: bool)
      requires host.Runs(this) && pc == StartAdmit
      modifies this, host
      ensures host.Runs(this) && pc == (if ok then StartCheck else StartAdmit) && old(host.trace) <= host.trace
    {
      hide Led, LedOut;
      host.Interfere(this);
      ghost var asked := host.trace;
      ok := *;
      if !AdmissionFree(host.Shared()) { ok := false; }
      if ok {
        ghost var s, p := host.Shared(), Proc();
        pc := StartCheck;
        host.Did(this, s, p, false);
      }
      Chains(old(host.trace), asked, host.trace);
    }

    /** _start_locked */
    method StartLocked(host: Host) returns (out: Outcome)
      requires host.Runs(this) && pc == StartCheck && !watcher
      modifies this, host
      ensures host.Left(this) && old(host.trace) <= host.trace
      ensures out == Done ==> Cleared(host, old(host.trace))
      ensures out == Done ==> Started(host, old(host.trace)) && Saw(host, old(host.trace), IsPending(run))
      ensures out == Refused ==> HasReason(host, old(host.trace)) && (run in host.issued ==> value.state != Armed)
      ensures out == Failed ==> Fell(host, old(host.trace))
    {
      hide Led, LedOut, Found, Broke, Looked, Owns;
      out := MayStart(host);
      ghost var admitted := host.trace;
      if out == Done { out := Announce(host); }
      GoesOn(host.first, old(host.trace), admitted, host.trace, pid);
      ghost var announced := host.trace;
      if out == Done { out := CallAndRecord(host); }
      GoesOn(host.first, old(host.trace), announced, host.trace, pid);
    }

    /** The claim: admission file, tag and intent, in this order. */
    method Announce(host: Host) returns (out: Outcome)
      requires host.Runs(this) && pc == StartObserve && !watcher
      modifies this, host
      ensures if out == Done then host.Runs(this) && pc == StartClock else host.Left(this)
      ensures old(host.trace) <= host.trace
      ensures out == Refused ==> run !in host.issued && Saw(host, old(host.trace), NotFree(run))
      ensures out == Failed ==> Fell(host, old(host.trace))
      ensures out == Done ==> Saw(host, old(host.trace), IsFree) && Saw(host, old(host.trace), IsClaimed(run))
    {
      hide Led, LedOut, Found, Broke, Looked;
      out := TakeFree(host);
      ghost var claimed := host.trace;
      if out == Done { out := SeesItsTag(host); }
      GoesOn(host.first, old(host.trace), claimed, host.trace, pid);
      ghost var seen := host.trace;
      if out == Done { out := WriteIntent(host); }
      GoesOn(host.first, old(host.trace), seen, host.trace, pid);
    }

    method TakeFree(host: Host) returns (out: Outcome)
      requires host.Runs(this) && pc == StartObserve && !watcher
      modifies this, host
      ensures if out == Done then host.Runs(this) && pc == StartReobserve else host.Left(this)
      ensures old(host.trace) <= host.trace
      ensures out == Refused ==> run !in host.issued && Saw(host, old(host.trace), NotFree(run))
      ensures out == Failed ==> Fell(host, old(host.trace))
      ensures out == Done ==> Saw(host, old(host.trace), IsFree)
    {
      hide Led, LedOut, Found, Broke, Looked;
      out := SeesItFree(host);
      ghost var free := host.trace;
      if out == Done { out := WriteAdmission(host); }
      GoesOn(host.first, old(host.trace), free, host.trace, pid);
      ghost var admitted := host.trace;
      if out == Done { out := Claim(host); }
      GoesOn(host.first, old(host.trace), admitted, host.trace, pid);
    }

    /** The last look at the clock, the call and its record. */
    method CallAndRecord(host: Host) returns (out: Outcome)
      requires host.Runs(this) && pc == StartClock && !watcher
      modifies this, host
      ensures host.Left(this) && old(host.trace) <= host.trace
      ensures out == Done ==> Started(host, old(host.trace)) && Saw(host, old(host.trace), IsPending(run))
      ensures out == Refused ==> run !in host.issued && Saw(host, old(host.trace), IsLate(run))
      ensures out == Failed ==> Fell(host, old(host.trace))
    {
      hide Led, LedOut, Found, Broke, Looked, Owns;
      out := StillInTime(host);
      ghost var timed := host.trace;
      if out == Done { out := CallStart(host); }
      GoesOn(host.first, old(host.trace), timed, host.trace, pid);
      ghost var called := host.trace;
      if out == Done { out := Confirm(host); }
      GoesOn(host.first, old(host.trace), called, host.trace, pid);
    }

    /** Supervisor, state, deadline and account, and no admission file yet. */
    method MayStart(host: Host) returns (out: Outcome)
      requires host.Runs(this) && pc == StartCheck && !watcher
      modifies this, host
      ensures if out == Done then host.Runs(this) && pc == StartObserve else host.Left(this)
      ensures old(host.trace) <= host.trace
      ensures out == Refused ==> HasReason(host, old(host.trace)) && (run in host.issued ==> value.state != Armed)
      ensures out == Failed ==> Fell(host, old(host.trace))
      ensures out == Done ==> Saw(host, old(host.trace), MayBegin(pid))
    {
      hide Led, LedOut, Found, Broke, Looked;
      host.Interfere(this);
      ghost var asked := host.trace;
      var live: bool := *;
      ghost var s, p := host.Shared(), Proc();
      StartStands(host.first, host.trace, s, pid, p);
      if !live {
        StartRaises(host);
        out := Failed;
      } else if value.state != Armed || host.now >= value.deadline - STOP_MARGIN || host.admission != Absent {
        SawNow(host, old(host.trace),
               if value.state != Armed then NotArmed(run) else if host.admission != Absent then IsAdmitted(pid) else IsLate(run));
        host.Ended(this, s, p, false);
        out := Refused;
      } else {
        SawNow(host, old(host.trace), MayBegin(pid));
        pc := StartObserve;
        host.Did(this, s, p, false);
        out := Done;
      }
      GoesOn(host.first, old(host.trace), asked, host.trace, pid);
    }

    method SeesItFree(host: Host) returns (out: Outcome)
      requires host.Runs(this) && pc == StartObserve && !watcher
      modifies this, host
      ensures if out == Done then host.Runs(this) && pc == StartAdmission else host.Left(this)
      ensures old(host.trace) <= host.trace
      ensures out == Refused ==> run !in host.issued && Saw(host, old(host.trace), NotFree(run))
      ensures out == Failed ==> Fell(host, old(host.trace))
      ensures out == Done ==> Saw(host, old(host.trace), IsFree)
    {
      hide Led, LedOut, Found, Broke, Looked;
      var ok, seen := host.Observe(this);
      ghost var asked := host.trace;
      ghost var s, p := host.Shared(), Proc();
      StartStands(host.first, host.trace, s, pid, p);
      if !ok {
        StartRaises(host);
        out := Failed;
      } else if seen.power != Off || seen.owner != Nobody {
        SawNow(host, old(host.trace), NotFree(run));
        host.Ended(this, s, p, false);
        out := Refused;
      } else {
        SawNow(host, old(host.trace), IsFree);
        pc := StartAdmission;
        host.Did(this, s, p, false);
        out := Done;
      }
      GoesOn(host.first, old(host.trace), asked, host.trace, pid);
    }

    /** The exclusive creation may stop half way. */
    method WriteAdmission(host: Host) returns (out: Outcome)
      requires host.Runs(this) && pc == StartAdmission && !watcher
      modifies this, host
      ensures if out == Done then host.Runs(this) && pc == StartClaim
        else host.Left(this) && out == Failed && Fell(host, old(host.trace))
      ensures old(host.trace) <= host.trace
    {
      hide Led, LedOut, Broke;
      host.Interfere(this);
      ghost var asked := host.trace;
      var ok: bool, torn: bool := *, *;
      ghost var s, p := host.Shared(), Proc();
      if !ok && !torn {
        StartRaises(host);
        out := Failed;
      } else if !ok {
        host.admission := Torn;
        host.TornBy(this, s, p);
        out := Failed;
      } else {
        host.admission, pc := Of(run), StartClaim;
        host.Did(this, s, p, false);
        out := Done;
      }
      GoesOn(host.first, old(host.trace), asked, host.trace, pid);
    }

    method Claim(host: Host) returns (out: Outcome)
      requires host.Runs(this) && pc == StartClaim && !watcher
      modifies this, host
      ensures if out == Done then host.Runs(this) && pc == StartReobserve
        else host.Left(this) && out == Failed && Fell(host, old(host.trace))
      ensures old(host.trace) <= host.trace
    {
      hide Led, LedOut, Broke;
      host.Interfere(this);
      ghost var asked := host.trace;
      var ok: bool := *;
      if ok {
        ghost var s, p := host.Shared(), Proc();
        host.cloud, pc := host.cloud.(owner := Ours(run)), StartReobserve;
        host.Did(this, s, p, false);
        out := Done;
      } else {
        StartRaises(host);
        out := Failed;
      }
      GoesOn(host.first, old(host.trace), asked, host.trace, pid);
    }

    method SeesItsTag(host: Host) returns (out: Outcome)
      requires host.Runs(this) && pc == StartReobserve && !watcher
      modifies this, host
      ensures if out == Done then host.Runs(this) && pc == StartWriteIntent else host.Left(this)
      ensures old(host.trace) <= host.trace
      ensures out == Refused ==> run !in host.issued && Saw(host, old(host.trace), NotFree(run))
      ensures out == Failed ==> Fell(host, old(host.trace))
      ensures out == Done ==> Saw(host, old(host.trace), IsClaimed(run))
    {
      hide Led, LedOut, Found, Broke, Looked;
      var ok, seen := host.Observe(this);
      ghost var asked := host.trace;
      ghost var s, p := host.Shared(), Proc();
      StartStands(host.first, host.trace, s, pid, p);
      if !ok {
        StartRaises(host);
        out := Failed;
      } else if seen.power != Off || seen.owner != Ours(run) {
        SawNow(host, old(host.trace), NotFree(run));
        host.Ended(this, s, p, false);
        out := Refused;
      } else {
        SawNow(host, old(host.trace), IsClaimed(run));
        value := value.(requested := true, state := StartIntent, uncertain := Some(true));
        pc := StartWriteIntent;
        host.Did(this, s, p, false);
        out := Done;
      }
      GoesOn(host.first, old(host.trace), asked, host.trace, pid);
    }

    /** Durable before the start call. */
    method WriteIntent(host: Host) returns (out: Outcome)
      requires host.Runs(this) && pc == StartWriteIntent && !watcher
      modifies this, host
      ensures if out == Done then host.Runs(this) && pc == StartClock
        else host.Left(this) && out == Failed && Fell(host, old(host.trace))
      ensures old(host.trace) <= host.trace
    {
      hide Led, LedOut, Broke;
      host.Interfere(this);
      ghost var asked := host.trace;
      var ok: bool := *;
      if ok {
        ghost var s, p := host.Shared(), Proc();
        host.receipts, pc := host.receipts[run := value], StartClock;
        host.Did(this, s, p, false);
        out := Done;
      } else {
        StartRaises(host);
        out := Failed;
      }
      GoesOn(host.first, old(host.trace), asked, host.trace, pid);
    }

    /** The deadline may have passed meanwhile. */
    method StillInTime(host: Host) returns (out: Outcome)
      requires host.Runs(this) && pc == StartClock && !watcher
      modifies this, host
      ensures if out == Done then host.Runs(this) && pc == StartCall else host.Left(this)
      ensures old(host.trace) <= host.trace
      ensures out == Refused ==> run !in host.issued && Saw(host, old(host.trace), IsLate(run))
      ensures out == Failed ==> Fell(host, old(host.trace))
      ensures old(host.now) >= old(value).deadline - STOP_MARGIN ==> out != Done
    {
      hide Led, LedOut, Found, Broke, Looked;
      host.Interfere(this);
      ghost var asked := host.trace;
      ghost var s, p := host.Shared(), Proc();
      StartStands(host.first, host.trace, s, pid, p);
      if host.now >= value.deadline - STOP_MARGIN {
        SawNow(host, old(host.trace), IsLate(run));
        clock := host.now;
        value, pc := value.(state := Stopping, uncertain := Some(false)), StartWriteRefused;
        host.Did(this, s, p, false);
        GoesOn(host.first, old(host.trace), asked, host.trace, pid);
        ghost var refused := host.trace;
        out := WriteRefused(host);
        GoesOn(host.first, old(host.trace), refused, host.trace, pid);
      } else {
        clock, pc := host.now, StartCall;
        host.Did(this, s, p, false);
        Chains(old(host.trace), asked, host.trace);
        out := Done;
      }
    }

    method WriteRefused(host: Host) returns (out: Outcome)
      requires host.Runs(this) && pc == StartWriteRefused && !watcher
      modifies this, host
      ensures host.Left(this) && out != Done && old(host.trace) <= host.trace
      ensures out == Refused ==> run !in host.issued && run in host.receipts && host.receipts[run] == value
      ensures out == Failed ==> Fell(host, old(host.trace))
    {
      hide Led, LedOut, Broke;
      host.Interfere(this);
      ghost var asked := host.trace;
      var ok: bool := *;
      if ok {
        ghost var s, p := host.Shared(), Proc();
        StartStands(host.first, host.trace, s, pid, p);
        host.receipts := host.receipts[run := value];
        host.Ended(this, s, p, false);
        out := Refused;
      } else {
        StartRaises(host);
        out := Failed;
      }
      GoesOn(host.first, old(host.trace), asked, host.trace, pid);
    }

    method CallStart(host: Host) returns (out: Outcome)
      requires host.Runs(this) && pc == StartCall && !watcher
      modifies this, host
      ensures if out == Done then host.Runs(this) && pc == StartConfirm && run in host.issued
        else host.Left(this) && out == Failed && Fell(host, old(host.trace))
      ensures old(host.trace) <= host.trace
      ensures out == Done ==> Saw(host, old(host.trace), IsPending(run))
    {
      hide Led, LedOut, Found, Broke, Looked;
      host.Interfere(this);
      ghost var asked := host.trace;
      var ok: bool := *;
      if ok {
        ghost var s, p := host.Shared(), Proc();
        host.cloud, host.issued := host.cloud.(starts := host.cloud.starts + {run}), host.issued + multiset{run};
        pc := StartConfirm;
        host.Did(this, s, p, false);
        SawNow(host, asked, IsPending(run));
        out := Done;
      } else {
        StartRaises(host);
        out := Failed;
      }
      GoesOn(host.first, old(host.trace), asked, host.trace, pid);
    }

    /** What is visible at once, and its record. The tag is still this run's. */
    method Confirm(host: Host) returns (out: Outcome)
      requires host.Runs(this) && pc == StartConfirm && !watcher && run in host.issued
      modifies this, host
      ensures host.Left(this) && (out == Done || out == Failed) && old(host.trace) <= host.trace
      ensures out == Done ==> Started(host, old(host.trace))
      ensures out == Failed ==> Fell(host, old(host.trace))
    {
      hide Led, LedOut, Found, Broke, Looked, Owns;
      var ok := SeesOutcome(host);
      ghost var confirmed := host.trace;
      if ok { out := Record(host); } else { StartRaises(host); out := Failed; }
      GoesOn(host.first, old(host.trace), confirmed, host.trace, pid);
    }

    method SeesOutcome(host: Host) returns (ok: bool)
      requires host.Runs(this) && pc == StartConfirm && !watcher && run in host.issued
      modifies this, host
      ensures host.Runs(this) && pc == (if ok then StartRecord else StartConfirm)
      ensures old(host.trace) <= host.trace && old(host.issued) <= host.issued
      ensures ok ==> value.state == (if value.Uncertain() then StartIntent else Running)
      ensures ok ==> Saw(host, old(host.trace), IsVisible(run, value.state == Running))
    {
      hide Led, LedOut, Found, Broke, Looked, Owns;
      var seen;
      ok, seen := host.Observe(this);
      ghost var asked := host.trace;
      if ok {
        ghost var s, p := host.Shared(), Proc();
        StartStands(host.first, host.trace, s, pid, p);
        // Nobody else takes the tag of a start that holds both locks.
        if seen.owner != Ours(run) { assert false; }
        var visible := seen.power != Off;
        SawNow(host, old(host.trace), IsVisible(run, visible));
        value := value.(state := if visible then Running else StartIntent, uncertain := Some(!visible));
        pc := StartRecord;
        host.Did(this, s, p, false);
      }
      GoesOn(host.first, old(host.trace), asked, host.trace, pid);
    }

    method Record(host: Host) returns (out: Outcome)
      requires host.Runs(this) && pc == StartRecord && !watcher && run in host.issued
      modifies this, host
      ensures host.Left(this) && (out == Done || out == Failed) && old(host.trace) <= host.trace
      ensures out == Done ==>
        Owns(host.Shared(), run) && run in host.receipts && host.receipts[run] == value && host.issued[run] == 1
      ensures value == old(value) && (out == Done ==> value.requested)
      ensures out == Failed ==> Fell(host, old(host.trace))
    {
      hide Led, LedOut, Broke;
      host.Interfere(this);
      ghost var asked := host.trace;
      var ok: bool := *;
      if ok {
        ghost var s, p := host.Shared(), Proc();
        Recording(host.first, host.trace, s, pid, p);
        host.receipts := host.receipts[run := value];
        host.Ended(this, s, p, false);
        out := Done;
      } else {
        StartRaises(host);
        out := Failed;
      }
      GoesOn(host.first, old(host.trace), asked, host.trace, pid);
    }

    // ------------------------------------------------------------------ stop

    /** An operator's process is gone; a supervisor goes on with this receipt. */
    ghost predicate Over(host: Host, retained: Receipt)
      reads this, host
    {
      if watcher then host.Runs(this) && pc == WatchIdle && memory == retained else host.Left(this)
    }

    /** The run is stopped for good, and its tag and admission file are gone. */
    ghost predicate Released(host: Host)
      reads this, host
    {
      && host.Left(this) && value.state == Stopped
      && run in host.receipts && host.receipts[run] == value
      && host.cloud.owner != Ours(run) && host.admission != Of(run)
      && (Clean(host.first, host.trace) ==> Settled(host.Shared(), run))
    }

    predicate Decided() reads this {
      value.state == Stopped || value.state == Settling || value.state == Stopping
    }

    /** From receipt `v` on, _stop_cloud came to this receipt by what it saw. */
    ghost predicate Decides(host: Host, before: seq<Action>, v: Receipt)
      reads this, host
    {
      exists c, d :: Looked(host.first, before, host.trace, c, d) && Concluded(run, v, c, d, value)
    }

    /** Or it saw an instance that it must not stop. */
    ghost predicate Declines(host: Host, before: seq<Action>, v: Receipt)
      reads this, host
    {
      exists c, d :: Looked(host.first, before, host.trace, c, d) && NothingToStop(run, v, c, d)
    }

    /** It raises, by a failure or after a check, from state `s` on. */
    method Raises(host: Host, ghost s: State, ghost failed: bool)
      requires Led(host.first, host.trace, s, pid, Proc()) && s.procs == host.others
      requires (if failed then FailAt(Put(s, pid, Proc()), Proc()) else GoNext(Put(s, pid, Proc()), Proc()))
            == RunController.Raise(Put(host.Shared(), pid, Proc()), Proc())
      modifies this, host
      ensures Over(host, if fault then value else old(memory)) && value == old(value) && fault == old(fault)
      ensures old(host.trace) <= host.trace && (failed ==> Fell(host, old(host.trace)))
      ensures host.receipts == old(host.receipts)
    {
      hide Led, LedOut, GoNext, FailAt, Broke;
      ghost var p := Proc();
      if watcher {
        pc, memory := WatchIdle, if fault then value else memory;
        host.Did(this, s, p, failed);
      } else {
        host.Ended(this, s, p, failed);
      }
    }

    /** The run's receipt says what stop made of it. */
    predicate Recorded(host: Host)
      reads this, host
    {
      run in host.receipts && host.receipts[run] == value
    }

    /** stop, with the receipt lock held throughout. It answers only once the instance
        was seen, or made, to be no longer on; it raises only if something failed, or
        having recorded what it found. */
    method Stop(host: Host) returns (ok: bool)
      requires host.Runs(this) && pc == StopLock && !fault
      modifies this, host
      ensures ok && value.state == Stopped ==> Released(host)
      ensures ok && value.state != Stopped ==> Over(host, value) && Decided() && Recorded(host)
      ensures !ok ==> Over(host, old(memory))
      ensures old(host.trace) <= host.trace && fault == old(fault)
      ensures ok ==> Saw(host, old(host.trace), NotOn)
      ensures ok ==> exists v :: Saw(host, old(host.trace), IsStored(run, v)) && Decides(host, old(host.trace), v)
      ensures !ok ==>
        || Fell(host, old(host.trace))
        || (Recorded(host) && Saw(host, old(host.trace), IsBlocked(run)) && Saw(host, old(host.trace), NotOn))
        || (Recorded(host) && exists v :: Saw(host, old(host.trace), IsStored(run, v)) && Declines(host, old(host.trace), v))
    {
      hide Led, LedOut, GoNext, FailAt, Found, Broke, Looked, Concluded, NothingToStop;
      var locked := LockToStop(host);
      ghost var read, v := host.trace, value;
      if !locked {
        AtStopLock(host.Shared(), pid, Proc());
        Raises(host, host.Shared(), true);
        GoesOn(host.first, old(host.trace), read, host.trace, pid);
        return false;
      }
      ok := StopCloud(host);
      GoesOn(host.first, old(host.trace), read, host.trace, pid);
      ghost var decided := host.trace;
      if ok { ok := PublishCleanup(host); } else { WriteAndRaise(host); }
      GoesOn(host.first, old(host.trace), decided, host.trace, pid);
    }

    method LockToStop(host: Host) returns (ok: bool)
      requires host.Runs(this) && pc == StopLock
      modifies this, host
      ensures host.Runs(this) && pc == if ok then StopObserve else StopLock
      ensures memory == old(memory) && fault == old(fault) && old(host.trace) <= host.trace
      ensures ok ==> Saw(host, old(host.trace), IsStored(run, value))
    {
      hide Led, LedOut, Found, Broke, Looked;
      host.Interfere(this);
      ghost var asked := host.trace;
      ok := *;
      if !ReceiptFree(host.Shared(), run) || run !in host.receipts { ok := false; }
      if ok {
        ghost var s, p := host.Shared(), Proc();
        value, pc := host.receipts[run], StopObserve;
        host.Did(this, s, p, false);
        SawNow(host, asked, IsStored(run, value));
      }
      GoesOn(host.first, old(host.trace), asked, host.trace, pid);
    }

    /** The handler of stop writes what _stop_cloud made of the receipt. */
    method WriteAndRaise(host: Host)
      requires host.Runs(this) && pc == StopHandler && !fault
      modifies this, host
      ensures Over(host, old(memory)) && value == old(value) && fault == old(fault) && old(host.trace) <= host.trace
      ensures Fell(host, old(host.trace)) || Recorded(host)
    {
      hide Led, LedOut, Broke;
      host.Interfere(this);
      ghost var asked := host.trace;
      var written: bool := *;
      ghost var s := host.Shared();
      if written { host.receipts := host.receipts[run := value]; }
      Raises(host, s, !written);
      GoesOn(host.first, old(host.trace), asked, host.trace, pid);
    }

    /** _stop_cloud works on the receipt in memory alone. */
    method StopCloud(host: Host) returns (ok: bool)
      requires host.Runs(this) && pc == StopObserve && (fault ==> watcher)
      modifies this, host
      ensures host.Runs(this) && fault == old(fault) && old(host.trace) <= host.trace
      ensures ok ==> pc == (if fault then PublishLock else PublishWrite) && Decided() && memory == old(memory)
      ensures !ok ==> if fault then pc == WatchIdle && memory == value else pc == StopHandler && memory == old(memory)
      ensures ok ==> Saw(host, old(host.trace), NotOn) && Decides(host, old(host.trace), old(value))
      ensures !ok ==> Fell(host, old(host.trace)) || Declines(host, old(host.trace), old(value))
      ensures !ok ==> value == old(value) || value == old(value).(uncertain := Some(false), state := Stopping)
    {
      hide Led, LedOut, GoNext, FailAt, Found, Broke, Looked;
      var looked, seen := host.Observe(this);
      ghost var asked := host.trace;
      LooksNow(host, old(host.trace));
      if !looked {
        GivesUp(host, true);
        ok := false;
      } else if seen.owner == Ours(run) && seen.power != Off {
        ghost var d;
        ok, d := StopRunning(host, seen.power);
        if Looked(host.first, asked, host.trace, d, d) {
          LooksTwice(host.first, old(host.trace), asked, host.trace, seen, d);
        }
      } else if seen.owner == Ours(run) {
        SawNow(host, old(host.trace), NotOn);
        Concludes(host, value.(state := if value.Uncertain() then Settling else Stopped));
        ok := true;
      } else if seen.power == Off && seen.owner == Nobody && (!value.requested || value.state == Stopped) {
        SawNow(host, old(host.trace), NotOn);
        Concludes(host, value.(state := Stopped));
        ok := true;
      } else {
        GivesUp(host, false);
        ok := false;
      }
      GoesOn(host.first, old(host.trace), asked, host.trace, pid);
    }

    /** An activation has become visible: stop it and look again. */
    method StopRunning(host: Host, power: Power) returns (ok: bool, ghost d: Cloud)
      requires host.Runs(this) && pc == StopObserve && (fault ==> watcher)
      requires host.cloud.owner == Ours(run) && host.cloud.power == power != Off
      modifies this, host
      ensures host.Runs(this) && fault == old(fault) && old(host.trace) <= host.trace
      ensures ok ==> pc == (if fault then PublishLock else PublishWrite) && memory == old(memory)
      ensures !ok ==> if fault then pc == WatchIdle && memory == value else pc == StopHandler && memory == old(memory)
      ensures !ok ==> value == old(value).(uncertain := Some(false), state := Stopping)
      ensures ok ==>
        && Looked(host.first, old(host.trace), host.trace, d, d) && d.owner == Ours(run)
        && value == old(value).(uncertain := Some(false), state := if d.power == Off then Stopped else Stopping)
        && Saw(host, old(host.trace), NotOn)
      ensures !ok ==>
        || Fell(host, old(host.trace))
        || (Looked(host.first, old(host.trace), host.trace, d, d) && d.owner != Ours(run))
    {
      hide Led, LedOut, GoNext, FailAt, Found, Broke, Looked;
      d := host.cloud;
      ok := BringDown(host, power);
      ghost var called := host.trace;
      if ok { ok, d := LookAgain(host); } else { GivesUp(host, true); }
      GoesOn(host.first, old(host.trace), called, host.trace, pid);
    }

    /** The stop call, unless the instance is going down already. */
    method BringDown(host: Host, power: Power) returns (ok: bool)
      requires host.Runs(this) && pc == StopObserve
      requires host.cloud.owner == Ours(run) && host.cloud.power == power != Off
      modifies this, host
      ensures host.Runs(this) && pc == (if ok then StopReobserve else StopCall) && old(host.trace) <= host.trace
      ensures value == old(value).(uncertain := Some(false), state := Stopping)
      ensures memory == old(memory) && fault == old(fault)
      ensures ok ==> Saw(host, old(host.trace), NotOn)
    {
      hide Led, LedOut, Found, Broke, Looked;
      if power != On { SawNow(host, old(host.trace), NotOn); }
      MarksStopping(host, power);
      ghost var marked := host.trace;
      GoesOn(host.first, old(host.trace), old(host.trace), marked, pid);
      ok := true;
      if power == On { ok := CallStop(host); }
      GoesOn(host.first, old(host.trace), marked, host.trace, pid);
    }

    method LookAgain(host: Host) returns (ok: bool, ghost d: Cloud)
      requires host.Runs(this) && pc == StopReobserve && (fault ==> watcher) && !value.Uncertain() && value.state == Stopping
      modifies this, host
      ensures host.Runs(this) && fault == old(fault) && old(host.trace) <= host.trace
      ensures ok ==> pc == (if fault then PublishLock else PublishWrite) && memory == old(memory)
      ensures !ok ==> if fault then pc == WatchIdle && memory == value else pc == StopHandler && memory == old(memory)
      ensures !ok ==> value == old(value)
      ensures ok ==>
        && Looked(host.first, old(host.trace), host.trace, d, d) && d.owner == Ours(run)
        && value == old(value).(state := if d.power == Off then Stopped else Stopping)
      ensures !ok ==>
        || Fell(host, old(host.trace))
        || (Looked(host.first, old(host.trace), host.trace, d, d) && d.owner != Ours(run))
    {
      hide Led, LedOut, GoNext, FailAt, Found, Broke, Looked;
      var looked, seen := host.Observe(this);
      ghost var asked := host.trace;
      d := seen;
      LooksNow(host, old(host.trace));
      if !looked {
        GivesUp(host, true);
        ok := false;
      } else if seen.owner != Ours(run) {
        GivesUp(host, false);
        ok := false;
      } else {
        Concludes(host, if seen.power == Off then value.(state := if value.Uncertain() then Settling else Stopped) else value);
        ok := true;
      }
      GoesOn(host.first, old(host.trace), asked, host.trace, pid);
    }

    method MarksStopping(host: Host, power: Power)
      requires host.Runs(this) && pc == StopObserve
      requires host.cloud.owner == Ours(run) && host.cloud.power == power != Off
      modifies this, host
      ensures host.Runs(this) && pc == (if power == On then StopCall else StopReobserve) && old(host.trace) <= host.trace
      ensures value == old(value).(uncertain := Some(false), state := Stopping)
      ensures memory == old(memory) && fault == old(fault)
    {
      hide Led, LedOut;
      ghost var s, p := host.Shared(), Proc();
      value := value.(uncertain := Some(false), state := Stopping);
      pc := if power == On then StopCall else StopReobserve;
      host.Did(this, s, p, false);
    }

    method CallStop(host: Host) returns (ok: bool)
      requires host.Runs(this) && pc == StopCall
      modifies this, host
      ensures host.Runs(this) && pc == (if ok then StopReobserve else StopCall) && old(host.trace) <= host.trace
      ensures memory == old(memory) && value == old(value) && fault == old(fault)
      ensures ok ==> Saw(host, old(host.trace), NotOn)
    {
      hide Led, LedOut, Found, Broke, Looked;
      host.Interfere(this);
      ghost var asked := host.trace;
      ok := *;
      if ok {
        ghost var s, p := host.Shared(), Proc();
        if host.cloud.power == On { host.cloud := host.cloud.(power := GoingDown); }
        pc := StopReobserve;
        host.Did(this, s, p, false);
        SawNow(host, asked, NotOn);
      }
      GoesOn(host.first, old(host.trace), asked, host.trace, pid);
    }

    /** _stop_cloud raises: a call failed, or the instance is not this run's. */
    method GivesUp(host: Host, ghost failed: bool)
      requires host.Runs(this) && (fault ==> watcher) && (pc == StopObserve || pc == StopCall || pc == StopReobserve)
      requires !failed ==>
        && pc != StopCall
        && (value, StopHandler) == if pc == StopObserve then Decide(value, run, host.cloud) else DecideAgain(value, run, host.cloud)
      modifies this, host`trace
      ensures host.Runs(this) && fault == old(fault) && value == old(value) && old(host.trace) <= host.trace
      ensures if fault then pc == WatchIdle && memory == value else pc == StopHandler && memory == old(memory)
      ensures failed ==> Fell(host, old(host.trace))
    {
      hide Led, LedOut, Broke;
      ghost var s, p := host.Shared(), Proc();
      if fault { pc, memory := WatchIdle, value; } else { pc := StopHandler; }
      host.Did(this, s, p, failed);
    }

    /** It returns, with the receipt to be published. */
    method Concludes(host: Host, v: Receipt)
      requires host.Runs(this) && (pc == StopObserve || pc == StopReobserve)
      requires (v, PublishWrite) == if pc == StopObserve then Decide(value, run, host.cloud) else DecideAgain(value, run, host.cloud)
      modifies this, host`trace
      ensures host.Runs(this) && fault == old(fault) && value == v && memory == old(memory)
      ensures pc == (if fault then PublishLock else PublishWrite) && old(host.trace) <= host.trace
    {
      hide Led, LedOut;
      ghost var s, p := host.Shared(), Proc();
      value, pc := v, if fault then PublishLock else PublishWrite;
      host.Did(this, s, p, false);
    }

    /** _publish_cleanup raises only if something failed, or if the recorded run must
        not be released. */
    method PublishCleanup(host: Host) returns (ok: bool)
      requires host.Runs(this) && pc == PublishWrite && Decided()
      modifies this, host
      ensures ok && value.state == Stopped ==> Released(host)
      ensures ok && value.state != Stopped ==> Over(host, value) && Recorded(host)
      ensures !ok ==> Over(host, if fault then value else old(memory))
      ensures !ok ==> Fell(host, old(host.trace)) || (Recorded(host) && Saw(host, old(host.trace), IsBlocked(run)))
      ensures fault == old(fault) && value == old(value) && old(host.trace) <= host.trace
    {
      hide Led, LedOut, Found, Broke, Looked, Released;
      host.Interfere(this);
      ghost var asked := host.trace;
      var written: bool := *;
      ok := written;
      if !written {
        Raises(host, host.Shared(), true);
      } else if value.state == Stopped {
        ghost var s, p := host.Shared(), Proc();
        host.receipts := host.receipts[run := value];
        pc := PublishObserve;
        host.Did(this, s, p, false);
        GoesOn(host.first, old(host.trace), asked, host.trace, pid);
        asked := host.trace;
        ok := Release(host);
      } else {
        PublishUnsettled(host);
      }
      GoesOn(host.first, old(host.trace), asked, host.trace, pid);
    }

    /** There is nothing to release yet. */
    method PublishUnsettled(host: Host)
      requires host.Runs(this) && pc == PublishWrite && value.state != Stopped
      modifies this, host
      ensures Over(host, value) && Recorded(host)
      ensures fault == old(fault) && value == old(value) && old(host.trace) <= host.trace
    {
      hide Led, LedOut;
      ghost var s, p := host.Shared(), Proc();
      host.receipts := host.receipts[run := value];
      if watcher {
        pc, memory := WatchIdle, value;
        host.Did(this, s, p, false);
      } else {
        host.Ended(this, s, p, false);
      }
    }

    method Release(host: Host) returns (ok: bool)
      requires host.Runs(this) && pc == PublishObserve && value.state == Stopped
      modifies this, host
      ensures ok ==> Released(host)
      ensures !ok ==> Over(host, if fault then value else old(memory))
      ensures !ok ==> Fell(host, old(host.trace)) || (Recorded(host) && Saw(host, old(host.trace), IsBlocked(run)))
      ensures fault == old(fault) && value == old(value) && old(host.trace) <= host.trace
    {
      hide Led, LedOut, Found, Broke, Looked;
      var looked, seen := host.Observe(this);
      ghost var asked := host.trace;
      ghost var s, p := host.Shared(), Proc();
      Releasing(host.first, host.trace, s, pid, p);
      if !looked {
        Raises(host, s, true);
        ok := false;
      } else if seen.power != Off || (seen.owner != Nobody && seen.owner != Ours(run)) {
        SawNow(host, old(host.trace), IsBlocked(run));
        Raises(host, s, false);
        ok := false;
      } else {
        pc := if seen.owner == Ours(run) then ReleaseTag else ReleaseAdmission;
        host.Did(this, s, p, false);
        GoesOn(host.first, old(host.trace), asked, host.trace, pid);
        asked := host.trace;
        ok := LetGo(host);
      }
      GoesOn(host.first, old(host.trace), asked, host.trace, pid);
    }

    /** First the tag, then the admission file. */
    method LetGo(host: Host) returns (ok: bool)
      requires host.Runs(this) && (pc == ReleaseTag || pc == ReleaseAdmission) && value.state == Stopped
      modifies this, host
      ensures ok ==> Released(host)
      ensures !ok ==> Over(host, if fault then value else old(memory))
      ensures !ok ==> Fell(host, old(host.trace)) || (Recorded(host) && Saw(host, old(host.trace), IsBlocked(run)))
      ensures fault == old(fault) && value == old(value) && old(host.trace) <= host.trace
    {
      hide Led, LedOut, Found, Broke, Looked;
      ok := true;
      if pc == ReleaseTag { ok := Untag(host); }
      ghost var untagged := host.trace;
      if ok { ok := LeaveAdmission(host); } else { Raises(host, host.Shared(), true); }
      GoesOn(host.first, old(host.trace), untagged, host.trace, pid);
    }

    method Untag(host: Host) returns (ok: bool)
      requires host.Runs(this) && pc == ReleaseTag
      modifies this, host
      ensures host.Runs(this) && pc == (if ok then ReleaseAdmission else ReleaseTag) && old(host.trace) <= host.trace
      ensures memory == old(memory) && value == old(value) && fault == old(fault)
    {
      hide Led, LedOut;
      host.Interfere(this);
      ghost var asked := host.trace;
      ok := *;
      if ok {
        ghost var s, p := host.Shared(), Proc();
        if host.cloud.owner == Ours(run) { host.cloud := host.cloud.(owner := Nobody); }
        pc := ReleaseAdmission;
        host.Did(this, s, p, false);
      }
      Chains(old(host.trace), asked, host.trace);
    }

    /** _release_admission */
    method LeaveAdmission(host: Host) returns (ok: bool)
      requires host.Runs(this) && pc == ReleaseAdmission && value.state == Stopped
      modifies this, host
      ensures ok ==> Released(host)
      ensures !ok ==> Over(host, if fault then value else old(memory))
      ensures !ok ==> Fell(host, old(host.trace)) || (Recorded(host) && Saw(host, old(host.trace), IsBlocked(run)))
      ensures fault == old(fault) && value == old(value) && old(host.trace) <= host.trace
    {
      hide Led, LedOut, Found, Broke, Looked;
      host.Interfere(this);
      ghost var asked := host.trace;
      ok := *;
      if !AdmissionFree(host.Shared()) { ok := false; }
      ghost var s, p := host.Shared(), Proc();
      Releasing(host.first, host.trace, s, pid, p);
      if !ok {
        Raises(host, s, true);
      } else if host.admission == Absent {
        host.Ended(this, s, p, false);
        AtEnd(host.first, host.trace, host.Shared(), pid, run);
      } else if host.admission != Of(run) {
        SawNow(host, old(host.trace), IsBlocked(run));
        Raises(host, s, false);
        ok := false;
      } else {
        pc := Unlink;
        host.Did(this, s, p, false);
        GoesOn(host.first, old(host.trace), asked, host.trace, pid);
        asked := host.trace;
        ok := UnlinkAdmission(host);
      }
      GoesOn(host.first, old(host.trace), asked, host.trace, pid);
    }

    method UnlinkAdmission(host: Host) returns (ok: bool)
      requires host.Runs(this) && pc == Unlink && value.state == Stopped
      modifies this, host
      ensures ok ==> Released(host)
      ensures !ok ==> Over(host, if fault then value else old(memory)) && Fell(host, old(host.trace))
      ensures fault == old(fault) && value == old(value) && old(host.trace) <= host.trace
    {
      hide Led, LedOut, Broke;
      host.Interfere(this);
      ghost var asked := host.trace;
      ok := *;
      ghost var s, p := host.Shared(), Proc();
      if ok {
        Releasing(host.first, host.trace, s, pid, p);
        host.admission := Absent;
        host.Ended(this, s, p, false);
        AtEnd(host.first, host.trace, host.Shared(), pid, run);
      } else {
        Raises(host, s, true);
      }
      GoesOn(host.first, old(host.trace), asked, host.trace, pid);
    }

    // ----------------------------------------------------------------- watch

    /** The heartbeat reads and writes the receipt; if that fails, the supervisor
        takes the receipt it retains for one that may have been started. */
    method Heartbeat(host: Host) returns (stored: bool)
      requires host.Runs(this) && pc == WatchIdle && watcher
      modifies this, host
      ensures host.Runs(this) && fault == !stored && pc == if stored then WatchDecide else StopObserve
      ensures old(host.trace) <= host.trace && old(host.now) <= host.now
      ensures stored ==> Saw(host, old(host.trace), IsStored(run, memory)) && memory.deadline == old(memory).deadline
      ensures !stored ==> Fell(host, old(host.trace)) && memory == old(memory)
      ensures !stored ==>
        value.requested && (if memory.requested then value == memory else value == memory.(requested := true, uncertain := Some(true)))
    {
      hide Led, LedOut, Found, Broke, Looked;
      host.Interfere(this);
      ghost var asked := host.trace;
      stored := *;
      if !ReceiptFree(host.Shared(), run) || run !in host.receipts { stored := false; }
      ghost var s, p := host.Shared(), Proc();
      SameDeadline(host.first, host.trace, s, pid, p);
      if stored {
        memory, fault, pc := host.receipts[run], false, WatchDecide;
      } else {
        fault, value, pc := true, memory, StopObserve;
        if !value.requested { value := value.(requested := true, uncertain := Some(true)); }
      }
      host.Did(this, s, p, !stored);
      if stored { SawNow(host, asked, IsStored(run, memory)); }
      GoesOn(host.first, old(host.trace), asked, host.trace, pid);
    }

    /** Whether it is time to stop: a minute before the deadline at the latest, and
        if the stopping has begun. */
    method Due(host: Host) returns (due: bool)
      requires host.Runs(this) && pc == WatchDecide && watcher
      modifies this, host
      ensures host.Runs(this) && pc == (if due then StopLock else WatchIdle) && fault == old(fault) && memory == old(memory)
      ensures old(host.trace) <= host.trace
      ensures old(host.now) >= memory.deadline - STOP_MARGIN || Ending(memory) ==> due
      ensures due ==> Saw(host, old(host.trace), IsLate(run)) || Ending(memory)
    {
      hide Led, LedOut, Found, Broke, Looked;
      host.Interfere(this);
      ghost var asked := host.trace;
      ghost var s, p := host.Shared(), Proc();
      SameDeadline(host.first, host.trace, s, pid, p);
      due := host.now >= memory.deadline - STOP_MARGIN
          || memory.state == Stopping || memory.state == Settling || memory.state == Stopped;
      if due && !Ending(memory) { SawNow(host, old(host.trace), IsLate(run)); }
      pc := if due then StopLock else WatchIdle;
      host.Did(this, s, p, false);
      GoesOn(host.first, old(host.trace), asked, host.trace, pid);
    }

    method LockToPublish(host: Host) returns (ok: bool)
      requires host.Runs(this) && pc == PublishLock
      modifies this, host
      ensures host.Runs(this) && pc == (if ok then PublishWrite else PublishLock) && old(host.trace) <= host.trace
      ensures memory == old(memory) && value == old(value) && fault == old(fault)
    {
      hide Led, LedOut;
      host.Interfere(this);
      ghost var asked := host.trace;
      ok := *;
      if !ReceiptFree(host.Shared(), run) { ok := false; }
      if ok {
        ghost var s, p := host.Shared(), Proc();
        pc := PublishWrite;
        host.Did(this, s, p, false);
      }
      Chains(old(host.trace), asked, host.trace);
    }

    /** What going on to stop has led to: the instance was no longer on at a moment,
        unless something failed or the instance is not this run's. */
    ghost predicate BroughtDown(host: Host, before: seq<Action>)
      reads this, host
    {
      Saw(host, before, NotOn) || Fell(host, before) || Saw(host, before, NotOurs(run))
    }

    /** One round of watch. It goes on to stop whenever it is late, or the receipt it
        reads says that the stopping has begun; and only then, or if storage fails. */
    method Round(host: Host) returns (done: bool, ghost stops: bool)
      requires host.Runs(this) && watcher && pc == WatchIdle
      modifies this, host
      ensures if done then Released(host) else host.Runs(this) && pc == WatchIdle
      ensures old(host.trace) <= host.trace
      ensures old(host.now) >= old(memory).deadline - STOP_MARGIN ==> stops
      ensures !stops ==> !done && Saw(host, old(host.trace), NotEnding(run))
      ensures stops ==> BroughtDown(host, old(host.trace))
      ensures stops ==>
        || Fell(host, old(host.trace))
        || Saw(host, old(host.trace), IsLate(run)) || Saw(host, old(host.trace), IsEnding(run))
    {
      hide Led, LedOut, GoNext, FailAt, Found, Broke, Looked;
      var stored := Heartbeat(host);
      ghost var beaten := host.trace;
      WasStored(host, old(host.trace), memory);
      var ok: bool;
      if stored {
        var due := Due(host);
        stops := due;
        GoesOn(host.first, old(host.trace), beaten, host.trace, pid);
        ghost var decided := host.trace;
        if !due { return false, false; }
        ok := StopsInTime(host);
        GoesOn(host.first, old(host.trace), decided, host.trace, pid);
      } else {
        stops := true;
        ok := StopWithoutStorage(host);
        GoesOn(host.first, old(host.trace), beaten, host.trace, pid);
      }
      done := ok && value.state == Stopped;
    }

    lemma WasStored(host: Host, before: seq<Action>, v: Receipt)
      ensures Saw(host, before, IsStored(run, v)) ==> Saw(host, before, if Ending(v) then IsEnding(run) else NotEnding(run))
    {
      hide Exec;
    }

    /** stop, as the supervisor calls it. */
    method StopsInTime(host: Host) returns (ok: bool)
      requires host.Runs(this) && watcher && pc == StopLock && !fault
      modifies this, host
      ensures ok && value.state == Stopped ==> Released(host)
      ensures !(ok && value.state == Stopped) ==> host.Runs(this) && pc == WatchIdle
      ensures old(host.trace) <= host.trace && BroughtDown(host, old(host.trace))
    {
      hide Led, LedOut, GoNext, FailAt, Found, Broke, Looked, Concluded, NothingToStop, Released;
      ok := Stop(host);
      ReasonsOf(host, old(host.trace));
    }

    /** A stop that declines has seen an instance that is not this run's; one that is
        blocked, or is not, has seen it stopped. */
    lemma ReasonsOf(host: Host, before: seq<Action>)
      ensures (exists v :: Declines(host, before, v)) ==> Saw(host, before, NotOurs(run))
    {
      hide Exec;
      if v :| Declines(host, before, v) {
        var c, d :| Looked(host.first, before, host.trace, c, d) && NothingToStop(run, v, c, d);
        var moment, later :| before <= moment <= later <= host.trace
          && Exec(host.first, moment).cloud == c && Exec(host.first, later).cloud == d;
        Chains(before, moment, later);
        Chains(moment, later, host.trace);
        assert Holds(Exec(host.first, moment), NotOurs(run)) || Holds(Exec(host.first, later), NotOurs(run));
      }
    }

    /** A broken store does not keep the instance from being stopped. */
    method StopWithoutStorage(host: Host) returns (ok: bool)
      requires host.Runs(this) && watcher && pc == StopObserve && fault
      modifies this, host
      ensures ok && value.state == Stopped ==> Released(host)
      ensures !(ok && value.state == Stopped) ==> host.Runs(this) && pc == WatchIdle && memory == value
      ensures old(host.trace) <= host.trace && BroughtDown(host, old(host.trace))
      ensures ok ==> Saw(host, old(host.trace), NotOn) && Decides(host, old(host.trace), old(value))
      ensures ok && value.state != Stopped ==> Recorded(host)
    {
      hide Led, LedOut, GoNext, FailAt, Found, Broke, Looked, Concluded, NothingToStop;
      ok := StopCloud(host);
      ReasonsOf(host, old(host.trace));
      if !ok { return false; }
      ghost var decided := host.trace;
      ok := LockToPublish(host);
      GoesOn(host.first, old(host.trace), decided, host.trace, pid);
      ghost var locked := host.trace;
      if ok {
        ok := PublishCleanup(host);
      } else {
        AtStopLock(host.Shared(), pid, Proc());
        Raises(host, host.Shared(), true);
      }
      GoesOn(host.first, old(host.trace), locked, host.trace, pid);
    }

    /** watch, for as many rounds as it is given: it ends by itself only when the run
        is stopped for good and released. Once it is a minute to the deadline the
        first round already stops the instance. */
    method Watch(host: Host, rounds: nat) returns (done: bool)
      requires host.Runs(this) && watcher && pc == WatchIdle
      modifies this, host
      ensures if done then Released(host) else host.Runs(this) && pc == WatchIdle
      ensures old(host.trace) <= host.trace
      ensures rounds > 0 && old(host.now) >= old(memory).deadline - STOP_MARGIN ==> BroughtDown(host, old(host.trace))
    {
      hide Led, LedOut, Released, Found, Broke, Looked;
      done := false;
      var i := 0;
      while i < rounds && !done
        invariant if done then Released(host) else host.Runs(this) && pc == WatchIdle
        invariant old(host.trace) <= host.trace && (i == 0 ==> host.trace == old(host.trace))
        invariant i == 0 ==> !done && memory == old(memory) && host.now == old(host.now)
        invariant i > 0 && old(host.now) >= old(memory).deadline - STOP_MARGIN ==> BroughtDown(host, old(host.trace))
      {
        ghost var before, stops := host.trace, false;
        done, stops := Round(host);
        GoesOn(host.first, old(host.trace), before, host.trace, pid);
        i := i + 1;
      }
    }
  }

  lemma AtStopLock(s: State, pid: Pid, p: Proc)
    requires p.pc == StopLock || p.pc == PublishLock
    ensures FailAt(Put(s, pid, p), p) == RunController.Raise(Put(s, pid, p), p)
  {
  }

  /** A run about to be released is recorded as stopped. */
  lemma Releasing(first: State, trace: seq<Action>, s: State, pid: Pid, p: Proc)
    requires Led(first, trace, s, pid, p)
    requires p.pc == PublishObserve || p.pc == ReleaseAdmission || p.pc == Unlink
    ensures p.run in s.receipts && s.receipts[p.run] == p.value && p.value.state == Stopped
    ensures p.pc != PublishObserve ==> s.cloud.owner != Ours(p.run)
  {
    ReachableBase(first, trace);
    StandsRight(Exec(first, trace), s, pid, p);
    hide Exec, LocksExclude, Initial;
  }

  lemma AtEnd(first: State, trace: seq<Action>, s: State, pid: Pid, r: Run)
    requires LedOut(first, trace, s, pid) && r in s.receipts && s.receipts[r].state == Stopped
    ensures Clean(first, trace) ==> Settled(s, r)
  {
    hide Exec, Clean, Base, Settled;
    if Clean(first, trace) { ReachableSafe(first, trace); }
  }

  lemma StandsRight(t: State, s: State, pid: Pid, p: Proc)
    requires Base(t) && t == Put(s, pid, p)
    ensures ProcBase(t, p) && FilesBase(t)
  {
    hide ProcBase, FilesBase;
    assert pid in t.procs && t.procs[pid] == p;
  }

  /** Up to the start call the run has none; nor has a receipt still armed. A start
      works on the receipt that is stored, and its tag is its own. */
  lemma StartStands(first: State, trace: seq<Action>, s: State, pid: Pid, p: Proc)
    requires Led(first, trace, s, pid, p) && IsStart(p.pc) && p.pc != StartLock
    ensures p.run in s.receipts
    ensures p.pc == StartCheck && p.run in s.issued ==> p.value.state != Armed
    ensures p.pc == StartObserve || p.pc == StartReobserve || p.pc == StartWriteRefused || p.pc == StartClock ==>
      p.run !in s.issued
    ensures p.pc == StartCheck || p.pc == StartClock ==> s.receipts[p.run] == p.value
    ensures p.pc == StartObserve ==> !s.cloud.owner.Ours?
    ensures p.pc == StartReobserve || p.pc == StartConfirm ==> s.cloud.owner == Ours(p.run)
  {
    ReachableBase(first, trace);
    StandsRight(Exec(first, trace), s, pid, p);
    hide Exec, LocksExclude, Initial;
  }

  /** The receipt a supervisor retains has the deadline of the one that is stored. */
  lemma SameDeadline(first: State, trace: seq<Action>, s: State, pid: Pid, p: Proc)
    requires Led(first, trace, s, pid, p) && p.watcher
    ensures p.run in s.receipts && s.receipts[p.run].deadline == p.memory.deadline
  {
    ReachableDates(first, trace);
    assert pid in Exec(first, trace).procs;
    hide Exec, Base, Initial;
  }

  lemma Recording(first: State, trace: seq<Action>, s: State, pid: Pid, p: Proc)
    requires Led(first, trace, s, pid, p) && p.pc == StartRecord
    ensures Owns(s, p.run) && p.value.requested && s.issued[p.run] <= 1
  {
    ReachableBase(first, trace);
    StandsRight(Exec(first, trace), s, pid, p);
    hide Exec, LocksExclude, Initial;
  }
}
