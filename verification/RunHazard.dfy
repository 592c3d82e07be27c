/** Which tags are safe. A start that tags an instance which is not stopped, in
    time and under a supervisor, as another party has started the instance since
    the start looked: with one passing storage fault of that supervisor the run
    can lose its protection. Every other step keeps it. */
module RunHazard {
  import opened Options
  import opened RunController
  import opened RunOwnership
  import opened RunSafety

  /** A start about to tag, in time, an instance that is not stopped, and a
      supervisor of its run, wherever that stands. */
  predicate TagsRunning(s: State, starter: Pid, watcher: Pid) {
    starter in s.procs && watcher in s.procs
    && var p, w := s.procs[starter], s.procs[watcher];
    && p.pc == StartClaim && s.now < p.value.deadline - STOP_MARGIN
    && w.watcher && w.run == p.run
    && s.cloud.power != Off
  }

  /** Nobody but these two holds a lock of run `r`, or the admission lock. */
  ghost predicate Alone(s: State, r: Run, starter: Pid, watcher: Pid) {
    forall pid | pid in s.procs && pid != starter && pid != watcher ::
      !HoldsAdmission(s.procs[pid]) && (s.procs[pid].run == r ==> !HoldsReceipt(s.procs[pid]))
  }

  /** Where both stand, on an instance that run `r` owns with its admission file. */
  ghost predicate Stage(s: State, a: Pid, b: Pid, p: Proc, w: Proc, power: Power, stored: Receipt) {
    && a != b && p.run == w.run && Alone(s, p.run, a, b)
    && a in s.procs && s.procs[a] == p && b in s.procs && s.procs[b] == w
    && s.cloud.power == power && Owns(s, p.run) && p.run in s.receipts && s.receipts[p.run] == stored
    && s.now < stored.deadline - STOP_MARGIN
  }

  /** One step of the start, if it leaves the other things as they are. */
  lemma StartMoves(s: State, a: Pid, b: Pid, p: Proc, w: Proc, power: Power, v: Receipt, q: Proc, v': Receipt)
    requires Stage(s, a, b, p, w, power, v) && q.run == p.run && v'.deadline == v.deadline
    requires var n := GoNext(s, p);
      n.To? && n.proc == q && n.shared.procs == s.procs && n.shared.now == s.now
      && n.shared.cloud.power == power && Owns(n.shared, p.run)
      && p.run in n.shared.receipts && n.shared.receipts[p.run] == v'
    ensures Stage(Apply(s, Go(a)), a, b, q, w, power, v')
    ensures Apply(s, Go(a)).cloud == GoNext(s, p).shared.cloud
  {
    hide GoNext, HoldsReceipt, HoldsAdmission;
  }

  /** One step of the supervisor, taken or failed, while it keeps tag and admission. */
  lemma WatchMoves(
      s: State, a: Pid, b: Pid, p: Proc, w: Proc, power: Power, v: Receipt, act: Action, n: Next, w': Proc,
      power': Power, v': Receipt)
    requires Stage(s, a, b, p, w, power, v) && w'.run == w.run && v'.deadline == v.deadline
    requires (act == Go(b) && n == GoNext(s, w)) || (act == Fail(b) && n == FailAt(s, w))
    requires n.To? && n.proc == w' && n.shared.procs == s.procs && n.shared.now == s.now
    requires n.shared.cloud.power == power' && Owns(n.shared, p.run)
    requires p.run in n.shared.receipts && n.shared.receipts[p.run] == v'
    ensures Stage(Apply(s, act), a, b, p, w', power', v')
    ensures Apply(s, act).cloud == n.shared.cloud
  {
    hide GoNext, FailAt, HoldsReceipt, HoldsAdmission;
  }

  lemma Then(s: State, done: seq<Action>, a: Action) returns (acts: seq<Action>, t: State)
    requires Clean(s, done) && CleanStep(Exec(s, done), a)
    ensures acts == done + [a] && t == Exec(s, acts) == Apply(Exec(s, done), a)
    ensures Clean(s, acts)
  {
    acts, t := done + [a], Exec(s, done + [a]);
    assert acts[..|done|] == done;
  }

  /** A supervisor that holds no lock can go back to rest. */
  lemma Rests(s: State, done: seq<Action>, a: Pid, b: Pid, p: Proc, w: Proc, power: Power, v: Receipt)
      returns (acts: seq<Action>, q: Proc)
    requires Clean(s, done) && Stage(Exec(s, done), a, b, p, w, power, v)
    requires w.watcher && !IsStart(w.pc) && !HoldsReceipt(w) && !HoldsAdmission(w)
    ensures Clean(s, acts) && Stage(Exec(s, acts), a, b, p, q, power, v) && q.watcher && q.pc == WatchIdle
  {
    hide Apply, Exec, Clean, Stage, Owns;
    acts, q := done, w;
    if q.pc == WatchDecide { acts, q := Decides(s, acts, a, b, p, q, power, v); }
    if q.pc != WatchIdle { acts, q := GivesUp(s, acts, a, b, p, q, power, v); }
  }

  lemma Decides(s: State, done: seq<Action>, a: Pid, b: Pid, p: Proc, w: Proc, power: Power, v: Receipt)
      returns (acts: seq<Action>, q: Proc)
    requires Clean(s, done) && Stage(Exec(s, done), a, b, p, w, power, v) && w.watcher && w.pc == WatchDecide
    ensures Clean(s, acts) && Stage(Exec(s, acts), a, b, p, q, power, v) && q.watcher
    ensures q.pc == WatchIdle || q.pc == StopLock
  {
    hide Apply, Exec, Clean;
    var t := Exec(s, done);
    q := GoNext(t, w).proc;
    WatchMoves(t, a, b, p, w, power, v, Go(b), GoNext(t, w), q, power, v);
    acts, t := Then(s, done, Go(b));
  }

  lemma GivesUp(s: State, done: seq<Action>, a: Pid, b: Pid, p: Proc, w: Proc, power: Power, v: Receipt)
      returns (acts: seq<Action>, q: Proc)
    requires Clean(s, done) && Stage(Exec(s, done), a, b, p, w, power, v) && w.watcher
    requires !IsStart(w.pc) && !HoldsReceipt(w) && !HoldsAdmission(w) && w.pc != WatchIdle && w.pc != WatchDecide
    ensures Clean(s, acts) && Stage(Exec(s, acts), a, b, p, q, power, v) && q.watcher && q.pc == WatchIdle
  {
    hide Apply, Exec, Clean;
    var t := Exec(s, done);
    q := FailAt(t, w).proc;
    WatchMoves(t, a, b, p, w, power, v, Fail(b), FailAt(t, w), q, power, v);
    acts, t := Then(s, done, Fail(b));
  }

  /** The supervisor's heartbeat fails, and it finds its tag on such an instance. */
  lemma Faults(s: State, done: seq<Action>, a: Pid, b: Pid, p: Proc, w: Proc, power: Power, v: Receipt)
      returns (acts: seq<Action>, q: Proc)
    requires Clean(s, done) && Stage(Exec(s, done), a, b, p, w, power, v) && power != Off
    requires w.pc == WatchIdle && w.watcher
    ensures Clean(s, acts) && Stage(Exec(s, acts), a, b, p, q, power, v) && q.watcher && q.fault
    ensures q.pc == if power == On then StopCall else StopReobserve
    ensures !q.value.Uncertain()
  {
    hide Apply, Exec, Clean;
    var w1 := w.(pc := StopObserve, fault := true, value := Faulted(w.memory));
    q := w1.(pc := if power == On then StopCall else StopReobserve,
             value := w1.value.(uncertain := Some(false), state := Stopping));
    var t := Exec(s, done);
    WatchMoves(t, a, b, p, w, power, v, Fail(b), FailAt(t, w), w1, power, v);
    acts, t := Then(s, done, Fail(b));
    WatchMoves(t, a, b, p, w1, power, v, Go(b), GoNext(t, w1), q, power, v);
    acts, t := Then(s, acts, Go(b));
  }

  /** It stops the instance, unless that is going down already, */
  lemma Stops(s: State, done: seq<Action>, a: Pid, b: Pid, p: Proc, w: Proc, power: Power, v: Receipt)
      returns (acts: seq<Action>, q: Proc)
    requires Clean(s, done) && Stage(Exec(s, done), a, b, p, w, power, v) && power != Off
    requires w.pc == if power == On then StopCall else StopReobserve
    ensures Clean(s, acts)
    ensures Stage(Exec(s, acts), a, b, p, q, GoingDown, v) && q == w.(pc := StopReobserve)
  {
    hide Apply, Exec, Clean;
    q := w.(pc := StopReobserve);
    acts := done;
    if power == On {
      var t := Exec(s, done);
      WatchMoves(t, a, b, p, w, On, v, Go(b), GoNext(t, w), q, GoingDown, v);
      acts, t := Then(s, done, Go(b));
    }
  }

  /** and takes what it sees then for its own start come and gone. */
  lemma Settles(s: State, done: seq<Action>, a: Pid, b: Pid, p: Proc, w: Proc, v: Receipt)
      returns (acts: seq<Action>, q: Proc)
    requires Clean(s, done) && Stage(Exec(s, done), a, b, p, w, GoingDown, v) && w.pc == StopReobserve && w.watcher && w.fault
    requires !w.value.Uncertain()
    ensures Clean(s, acts)
    ensures Stage(Exec(s, acts), a, b, p, q, Off, v)
    ensures q.pc == PublishLock && q.watcher && q.value.state == Stopped
  {
    hide Apply, Exec, Clean;
    q := w.(pc := PublishLock, value := w.value.(state := Stopped));
    var t := Exec(s, done);
    PowersOff(t, a, b, p, w, v);
    acts, t := Then(s, done, PowerOff);
    WatchMoves(t, a, b, p, w, Off, v, Go(b), GoNext(t, w), q, Off, v);
    acts, t := Then(s, acts, Go(b));
  }

  lemma PowersOff(s: State, a: Pid, b: Pid, p: Proc, w: Proc, v: Receipt)
    requires Stage(s, a, b, p, w, GoingDown, v)
    ensures Stage(Apply(s, PowerOff), a, b, p, w, Off, v)
  {
  }

  /** The start sees its tag on a stopped instance and records its intent. */
  lemma Commits(s: State, done: seq<Action>, a: Pid, b: Pid, p: Proc, w: Proc)
      returns (acts: seq<Action>, q: Proc)
    requires Clean(s, done) && Stage(Exec(s, done), a, b, p, w, Off, p.value) && p.pc == StartReobserve
    ensures Clean(s, acts)
    ensures q.run == p.run && q.pc == StartClock && Stage(Exec(s, acts), a, b, q, w, Off, q.value)
    ensures q.value.deadline == p.value.deadline
  {
    hide Apply, Exec, Clean;
    var v := p.value;
    var p1 := p.(pc := StartWriteIntent, value := v.(requested := true, state := StartIntent, uncertain := Some(true)));
    q := p1.(pc := StartClock);
    var t := Exec(s, done);
    StartMoves(t, a, b, p, w, Off, v, p1, v);
    acts, t := Then(s, done, Go(a));
    StartMoves(t, a, b, p1, w, Off, v, q, q.value);
    acts, t := Then(s, acts, Go(a));
  }

  /** And then issues its call. */
  lemma Issues(s: State, done: seq<Action>, a: Pid, b: Pid, p: Proc, w: Proc)
      returns (acts: seq<Action>, q: Proc)
    requires Clean(s, done) && Stage(Exec(s, done), a, b, p, w, Off, p.value) && p.pc == StartClock
    ensures Clean(s, acts)
    ensures q.run == p.run && q.pc == StartConfirm && Stage(Exec(s, acts), a, b, q, w, Off, q.value)
    ensures q.value.deadline == p.value.deadline
    ensures p.run in Exec(s, acts).cloud.starts
  {
    hide Apply, Exec, Clean;
    var t := Exec(s, done);
    var p1 := p.(pc := StartCall, clock := t.now);
    q := p1.(pc := StartConfirm);
    StartMoves(t, a, b, p, w, Off, p.value, p1, p.value);
    acts, t := Then(s, done, Go(a));
    StartMoves(t, a, b, p1, w, Off, p.value, q, p.value);
    acts, t := Then(s, acts, Go(a));
  }

  /** The start has gone; its call is still pending. */
  ghost predicate Left(s: State, b: Pid, w: Proc, owner: Owner, admission: Admission, stored: Receipt) {
    && b in s.procs && s.procs[b] == w && w.run in s.receipts && s.receipts[w.run] == stored
    && s.cloud.power == Off && s.cloud.owner == owner && s.admission == admission && w.run in s.cloud.starts
    && forall pid | pid in s.procs && pid != b ::
         !HoldsAdmission(s.procs[pid]) && (s.procs[pid].run == w.run ==> !HoldsReceipt(s.procs[pid]))
  }

  lemma Leaves(s: State, done: seq<Action>, a: Pid, b: Pid, p: Proc, w: Proc) returns (acts: seq<Action>)
    requires Clean(s, done) && Stage(Exec(s, done), a, b, p, w, Off, p.value) && p.pc == StartConfirm
    requires p.run in Exec(s, done).cloud.starts
    ensures Clean(s, acts)
    ensures exists v :: Left(Exec(s, acts), b, w, Ours(w.run), Of(w.run), v)
  {
    hide Apply, Exec, Clean;
    var q := p.(pc := StartRecord, value := p.value.(state := StartIntent, uncertain := Some(true)));
    var t := Exec(s, done);
    StartMoves(t, a, b, p, w, Off, p.value, q, p.value);
    acts, t := Then(s, done, Go(a));
    EndsRecording(t, a, b, q, w, p.value);
    acts, t := Then(s, acts, Go(a));
  }

  lemma EndsRecording(s: State, a: Pid, b: Pid, p: Proc, w: Proc, v: Receipt)
    requires Stage(s, a, b, p, w, Off, v) && p.pc == StartRecord && p.run in s.cloud.starts
    ensures Left(Apply(s, Go(a)), b, w, Ours(w.run), Of(w.run), p.value)
  {
    hide HoldsReceipt, HoldsAdmission;
  }

  /** One step of the supervisor that is left alone. */
  lemma LoneMoves(
      s: State, b: Pid, w: Proc, owner: Owner, admission: Admission, v: Receipt, q: Proc, owner': Owner,
      admission': Admission, v': Receipt)
    requires Left(s, b, w, owner, admission, v) && q.run == w.run
    requires var n := GoNext(s, w);
      n.To? && n.proc == q && n.shared.procs == s.procs && n.shared.admission == admission'
      && n.shared.cloud == s.cloud.(owner := owner')
      && w.run in n.shared.receipts && n.shared.receipts[w.run] == v'
    ensures Left(Apply(s, Go(b)), b, q, owner', admission', v')
  {
    hide GoNext, HoldsReceipt, HoldsAdmission;
  }

  lemma Publishes(s: State, done: seq<Action>, b: Pid, w: Proc, v: Receipt) returns (acts: seq<Action>, q: Proc)
    requires Clean(s, done) && Left(Exec(s, done), b, w, Ours(w.run), Of(w.run), v)
    requires w.pc == PublishLock && w.value.state == Stopped
    ensures Clean(s, acts)
    ensures q == w.(pc := ReleaseTag) && Left(Exec(s, acts), b, q, Ours(w.run), Of(w.run), w.value)
  {
    hide Apply, Exec, Left, Clean, CleanStep;
    var w1, w2 := w.(pc := PublishWrite), w.(pc := PublishObserve);
    q := w.(pc := ReleaseTag);
    var t := Exec(s, done);
    Waits(t, b, w, v);
    acts, t := Then(s, done, Go(b));
    Writes(t, b, w1, v);
    acts, t := Then(s, acts, Go(b));
    Looks(t, b, w2, w.value);
    acts, t := Then(s, acts, Go(b));
  }

  lemma Waits(t: State, b: Pid, w: Proc, v: Receipt)
    requires Left(t, b, w, Ours(w.run), Of(w.run), v) && w.pc == PublishLock
    ensures CleanStep(t, Go(b))
    ensures Left(Apply(t, Go(b)), b, w.(pc := PublishWrite), Ours(w.run), Of(w.run), v)
  {
    hide Apply;
    LoneMoves(t, b, w, Ours(w.run), Of(w.run), v, w.(pc := PublishWrite), Ours(w.run), Of(w.run), v);
  }

  lemma Writes(t: State, b: Pid, w: Proc, v: Receipt)
    requires Left(t, b, w, Ours(w.run), Of(w.run), v) && w.pc == PublishWrite && w.value.state == Stopped
    ensures CleanStep(t, Go(b))
    ensures Left(Apply(t, Go(b)), b, w.(pc := PublishObserve), Ours(w.run), Of(w.run), w.value)
  {
    hide Apply;
    LoneMoves(t, b, w, Ours(w.run), Of(w.run), v, w.(pc := PublishObserve), Ours(w.run), Of(w.run), w.value);
  }

  lemma Looks(t: State, b: Pid, w: Proc, v: Receipt)
    requires Left(t, b, w, Ours(w.run), Of(w.run), v) && w.pc == PublishObserve
    ensures CleanStep(t, Go(b))
    ensures Left(Apply(t, Go(b)), b, w.(pc := ReleaseTag), Ours(w.run), Of(w.run), v)
  {
    hide Apply;
    LoneMoves(t, b, w, Ours(w.run), Of(w.run), v, w.(pc := ReleaseTag), Ours(w.run), Of(w.run), v);
  }

  lemma Releases(s: State, done: seq<Action>, b: Pid, w: Proc, v: Receipt) returns (acts: seq<Action>)
    requires Clean(s, done) && Left(Exec(s, done), b, w, Ours(w.run), Of(w.run), v) && w.pc == ReleaseTag
    ensures Clean(s, acts)
    ensures var t := Exec(s, acts); w.run in t.cloud.starts && t.cloud.owner == Nobody && t.admission == Absent
  {
    hide Apply, Exec, Clean;
    var r := w.run;
    var w1, w2 := w.(pc := ReleaseAdmission), w.(pc := Unlink);
    var t := Exec(s, done);
    LoneMoves(t, b, w, Ours(r), Of(r), v, w1, Nobody, Of(r), v);
    acts, t := Then(s, done, Go(b));
    LoneMoves(t, b, w1, Nobody, Of(r), v, w2, Nobody, Of(r), v);
    acts, t := Then(s, acts, Go(b));
    Unlinks(t, b, w2, v);
    acts, t := Then(s, acts, Go(b));
  }

  lemma Unlinks(s: State, b: Pid, w: Proc, v: Receipt)
    requires Left(s, b, w, Nobody, Of(w.run), v) && w.pc == Unlink
    ensures Apply(s, Go(b)).cloud == s.cloud && Apply(s, Go(b)).admission == Absent
  {
  }

  lemma TagsFirst(s: State, a: Pid, b: Pid)
    requires Base(s) && TagsRunning(s, a, b)
    ensures var p, w := s.procs[a], s.procs[b];
      && Stage(Apply(s, Go(a)), a, b, p.(pc := StartReobserve), w, s.cloud.power, p.value)
      && !IsStart(w.pc) && !HoldsReceipt(w) && !HoldsAdmission(w)
  {
    var p, w := s.procs[a], s.procs[b];
    assert ProcBase(s, p) && ProcBase(s, w);
    assert HoldsReceipt(p) && HoldsAdmission(p);
    hide ProcBase, FilesBase, HoldsReceipt, HoldsAdmission, IsStart;
    assert Alone(s, p.run, a, b);
    ClaimIs(s, a);
  }

  /** After every such step the run can end up without tag and admission file
      while its own start call may still take effect. */
  lemma TagOnRunningIsHazardous(s: State, starter: Pid, watcher: Pid) returns (acts: seq<Action>)
    requires Base(s) && TagsRunning(s, starter, watcher)
    ensures Clean(Apply(s, Go(starter)), acts)
    ensures var t := Exec(Apply(s, Go(starter)), acts);
      s.procs[starter].run in t.cloud.starts && t.cloud.owner == Nobody && t.admission == Absent
  {
    hide Exec, Apply, Clean, Alone, Owns, Base, Left, HoldsReceipt, HoldsAdmission, IsStart;
    TagsFirst(s, starter, watcher);
    var tagged := Apply(s, Go(starter));
    ExecNone(tagged);
    acts := [];
    var p, w, v := s.procs[starter].(pc := StartReobserve), s.procs[watcher], s.procs[starter].value;
    var power := s.cloud.power;
    acts, w := Rests(tagged, acts, starter, watcher, p, w, power, v);
    acts, w := Faults(tagged, acts, starter, watcher, p, w, power, v);
    acts, w := Stops(tagged, acts, starter, watcher, p, w, power, v);
    acts, w := Settles(tagged, acts, starter, watcher, p, w, v);
    acts, p := Commits(tagged, acts, starter, watcher, p, w);
    acts, p := Issues(tagged, acts, starter, watcher, p, w);
    acts := Leaves(tagged, acts, starter, watcher, p, w);
    v :| Left(Exec(tagged, acts), watcher, w, Ours(w.run), Of(w.run), v);
    acts, w := Publishes(tagged, acts, watcher, w, v);
    acts := Releases(tagged, acts, watcher, w, w.value);
  }

  /** Every start that may still take effect has its tag and its admission file. */
  predicate Protected(s: State) {
    forall r | r in s.cloud.starts :: Owns(s, r)
  }

  lemma UncleanIsTag(s: State, a: Action)
    requires Base(s)
    ensures !CleanStep(s, a) <==> a.Go? && exists watcher :: TagsRunning(s, a.pid, watcher)
  {
    hide Base;
    if !CleanStep(s, a) {
      var r := s.procs[a.pid].run;
      var watcher :| watcher in s.procs && s.procs[watcher].run == r && s.procs[watcher].watcher;
      assert TagsRunning(s, a.pid, watcher);
    }
  }

  lemma {:induction false} SafeIsProtected(s: State, more: seq<Action>)
    requires Safe(s) && Clean(s, more)
    ensures Protected(Exec(s, more))
  {
    SafeForGood(s, more);
    hide Exec, LocksExclude, ProcBase;
  }

  lemma UncleanCanLose(s: State, a: Action) returns (more: seq<Action>)
    requires Base(s) && !CleanStep(s, a)
    ensures Clean(Apply(s, a), more) && !Protected(Exec(Apply(s, a), more))
  {
    hide Exec, Apply, Clean, Base, Protected;
    UncleanIsTag(s, a);
    var watcher :| TagsRunning(s, a.pid, watcher);
    more := TagOnRunningIsHazardous(s, a.pid, watcher);
    UnprotectedThere(Exec(Apply(s, a), more), s.procs[a.pid].run);
  }

  /** The exact condition: no clean continuation of a step ever loses the
      protection of a start if and only if the step does not tag, in time and
      under a supervisor, an instance that is not stopped. */
  lemma ProtectedIffClean(s: State, acts: seq<Action>, a: Action)
    requires Initial(s) && Clean(s, acts)
    ensures var t := Apply(Exec(s, acts), a);
      CleanStep(Exec(s, acts), a) <==> forall more | Clean(t, more) :: Protected(Exec(t, more))
  {
    hide Exec, Apply, Clean, CleanStep, Base, Dated, FilesSafe, ProcSafe, Protected;
    var before, t := Exec(s, acts), Apply(Exec(s, acts), a);
    ReachableSafe(s, acts);
    if CleanStep(before, a) {
      ApplyKeepsSafe(before, a);
      forall more | Clean(t, more) ensures Protected(Exec(t, more)) { SafeIsProtected(t, more); }
    } else {
      var more := UncleanCanLose(before, a);
    }
  }

  lemma UnprotectedThere(t: State, r: Run)
    requires r in t.cloud.starts && t.cloud.owner == Nobody
    ensures !Protected(t)
  {
  }

  const FRESH := Receipt(Armed, false, None, 1000)

  /** A start at `pc` and an idle supervisor of one armed run. */
  function Racing(pc: Pc, value: Receipt, admission: Admission): State {
    State(0, Cloud(Off, Nobody, {}), map[0 := FRESH], admission,
          map[1 := Proc(0, true, false, WatchIdle, FRESH, FRESH, 0),
              0 := Proc(0, false, false, pc, value, BLANK, 0)], multiset{})
  }

  predicate Steps(s: State, a: Action, t: State) {
    Apply(s, a) == t && CleanStep(s, a)
  }

  lemma Enters()
    ensures Steps(Racing(StartLock, BLANK, Absent), Go(0), Racing(StartAdmit, FRESH, Absent))
  {
  }

  lemma Locks()
    ensures Steps(Racing(StartAdmit, FRESH, Absent), Go(0), Racing(StartCheck, FRESH, Absent))
  {
  }

  lemma Admits()
    ensures Steps(Racing(StartCheck, FRESH, Absent), Go(0), Racing(StartObserve, FRESH, Absent))
    ensures Steps(Racing(StartObserve, FRESH, Absent), Go(0), Racing(StartAdmission, FRESH, Absent))
  {
  }

  lemma Creates()
    ensures Steps(Racing(StartAdmission, FRESH, Absent), Go(0), Racing(StartClaim, FRESH, Of(0)))
  {
  }

  /** An armed run with its supervisor and a start. */
  lemma Races() returns (s: State, acts: seq<Action>)
    ensures Initial(s) && Clean(s, acts) && Exec(s, acts) == Racing(StartLock, BLANK, Absent)
  {
    hide Exec, Clean;
    s := State(0, Cloud(Off, Nobody, {}), map[], Absent, map[], multiset{});
    ExecNone(s);
    var t := s;
    acts, t := Then(s, [], Arm(0, 1000));
    acts, t := Then(s, acts, Spawn(1, 0, WatchCommand));
    acts, t := Then(s, acts, Spawn(0, 0, StartCommand));
  }

  /** And such states are reached: a start that another party races. */
  lemma HazardIsReached() returns (s: State, acts: seq<Action>)
    ensures Initial(s) && Clean(s, acts) && TagsRunning(Exec(s, acts), 0, 1)
  {
    hide Exec, Clean, Racing, Apply, CleanStep, TagsRunning, Initial;
    s, acts := Races();
    Enters();
    Locks();
    Admits();
    Creates();
    Raced();
    var t := Exec(s, acts);
    acts, t := Then(s, acts, Go(0));
    acts, t := Then(s, acts, Go(0));
    acts, t := Then(s, acts, Go(0));
    acts, t := Then(s, acts, Go(0));
    acts, t := Then(s, acts, Go(0));
    acts, t := Then(s, acts, ForeignStart);
  }

  lemma Raced()
    ensures CleanStep(Racing(StartClaim, FRESH, Of(0)), ForeignStart)
    ensures TagsRunning(Apply(Racing(StartClaim, FRESH, Of(0)), ForeignStart), 0, 1)
  {
  }

  lemma ExecNone(s: State)
    ensures Exec(s, []) == s && Clean(s, [])
  {
  }
}
