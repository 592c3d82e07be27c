/** The evidence of controlled cycles: starts, reboots and stops of two machines.
    Only neighbouring cycles are compared, yet together they are one timeline. */
module ControlCycles {
  import opened Options

  datatype Platform = Linux | Win32
  datatype Operation = Start | Reboot | StopStart
  const CONTROL_MARGIN := 60.0

  type Mode = nat
  type Digest = nat

  /** What _same_controller_run compares. */
  datatype Identity = Identity(instance: nat, run: nat, account: nat, created: real, deadline: real)

  /** A controller receipt as captured. */
  datatype Snapshot = Snapshot(id: Identity, pid: nat, heartbeat: real, captured: real)

  datatype StopReceipt = StopReceipt(id: Identity, stoppedAt: real)

  /** An independent look at the cloud. */
  datatype Observation = Observation(
    instance: nat, run: nat, running: bool, owner: Option<nat>, account: nat, observedAt: real)

  /** What a start shows beside: the receipt once started, the instance stopped
      before, and the run that was stopped before it. */
  datatype Before = First | After(stopped: StopReceipt, stoppedCapture: real, observed: Observation)

  datatype Proof =
    | Started(started: Snapshot, initial: Observation, before: Before)
    | Rebooted(anchor: Action)

  datatype Action = Action(
    platform: Platform, modes: set<Mode>, sequence: int, operation: Operation, actionAt: real,
    armed: Snapshot, ready: Snapshot, running: Observation, proof: Proof)

  datatype Cycle = Cycle(
    action: Action, digest: Digest, stopped: StopReceipt, stoppedCapture: real, independent: Observation)

  datatype Phase = Phase(
    platform: Platform, instance: nat, mode: Mode, sequence: int, run: nat, startedAt: real, finishedAt: real, action: Digest)

  // ------------------------------------------------------------- one action

  predicate Stopped(o: Observation, id: Identity, run: nat) {
    o.instance == id.instance && o.run == run && !o.running && o.owner == None && o.account == id.account
  }

  /** A controller snapshot of an armed or active run. */
  predicate Captured(s: Snapshot) {
    120.0 <= s.id.deadline - s.id.created <= 7200.0 && s.id.created <= s.captured
  }

  predicate Alive(s: Snapshot) {
    Captured(s) && s.pid > 0 && s.id.created <= s.heartbeat <= s.captured
  }

  /** _control_start */
  predicate ValidStart(a: Action)
    requires a.proof.Started?
  {
    var id, p := a.armed.id, a.proof;
    && Alive(p.started) && p.started.id == id && p.started.pid == a.ready.pid && a.actionAt <= p.started.captured
    && Stopped(p.initial, id, id.run)
    && id.created <= p.initial.observedAt <= a.actionAt <= p.started.captured <= a.running.observedAt
    && (a.operation == StopStart || a.sequence > 1 ==>
          && p.before.After?
          && p.before.stopped.id.instance == id.instance && p.before.stopped.id.account == id.account
          && p.before.stopped.id.run != id.run
          && Stopped(p.before.observed, id, p.before.stopped.id.run)
          && p.before.stoppedCapture <= p.before.observed.observedAt <= id.created)
  }

  /** validate_control_action, and _control_reboot of its start action. */
  predicate ValidAction(a: Action) {
    var id := a.armed.id;
    && a.sequence > 0 && (a.operation == Reboot <==> a.proof.Rebooted?)
    && Captured(a.armed) && Alive(a.ready) && a.ready.id == id
    && a.armed.captured <= a.ready.captured <= a.actionAt < id.deadline - CONTROL_MARGIN
    && 0.0 <= a.actionAt - a.ready.heartbeat <= 10.0
    && a.running.instance == id.instance && a.running.run == id.run && a.running.running
    && a.running.owner == Some(id.run) && a.running.account == id.account
    && a.actionAt <= a.running.observedAt < id.deadline
    && match a.proof
       case Started(_, _, _) => ValidStart(a)
       case Rebooted(anchor) =>
         && anchor.operation != Reboot && ValidAction(anchor) && anchor.platform == a.platform
         && anchor.armed.id == id && anchor.sequence < a.sequence
         && anchor.running.observedAt < a.actionAt && a.modes <= anchor.modes
  }

  function PreviousRun(a: Action): Option<nat> {
    if a.proof.Started? && (a.operation == StopStart || a.sequence > 1) && a.proof.before.After?
    then Some(a.proof.before.stopped.id.run) else None
  }

  /** _settled_control_cycle */
  predicate Settled(c: Cycle) {
    var a := c.action;
    && ValidAction(a) && a.modes != {}
    && c.stopped.id == a.armed.id
    && Stopped(c.independent, a.armed.id, a.armed.id.run)
    && a.running.observedAt <= c.stopped.stoppedAt <= c.stoppedCapture <= c.independent.observedAt
  }

  // ----------------------------------------------------------- the timeline

  /** The rows of one platform by rising sequence. */
  function Insert(s: seq<Cycle>, c: Cycle): (r: seq<Cycle>)
    ensures multiset(r) == multiset(s) + multiset{c}
  {
    if s == [] || s[|s|-1].action.sequence <= c.action.sequence then
      assert multiset(s + [c]) == multiset(s) + multiset{c};
      s + [c]
    else
      assert s == s[..|s|-1] + [s[|s|-1]];
      Insert(s[..|s|-1], c) + [s[|s|-1]]
  }

  function Ordered(cycles: seq<Cycle>, p: Platform): (r: seq<Cycle>)
    ensures forall c :: c in r <==> c in cycles && c.action.platform == p
  {
    if cycles == [] then []
    else
      var t, c := cycles[..|cycles|-1], cycles[|cycles|-1];
      assert forall x :: x in cycles <==> x in t || x == c;
      var r := Ordered(t, p);
      if c.action.platform != p then r
      else
        var q := Insert(r, c);
        assert forall x :: x in q <==> x in multiset(q);
        q
  }

  /** No two different stop receipts of these cycles have one digest. */
  ghost predicate NoCollision(cycles: seq<Cycle>, digest: StopReceipt -> Digest) {
    forall a, b | a in cycles && b in cycles :: digest(a.stopped) == digest(b.stopped) ==> a.stopped == b.stopped
  }

  /** One row after another in _ordered_control_cycles. */
  predicate Follows(before: Cycle, after: Cycle, stop: StopReceipt -> Digest, look: Observation -> Digest) {
    before.action.actionAt < after.action.actionAt
    && if after.action.operation == Reboot then
         before.action.armed.id.run == after.action.armed.id.run && stop(before.stopped) == stop(after.stopped)
       else
         && PreviousRun(after.action) == Some(before.action.armed.id.run)
         && after.action.proof.Started? && after.action.proof.before.After?
         && stop(after.action.proof.before.stopped) == stop(before.stopped)
         && look(after.action.proof.before.observed) == look(before.independent)
         && before.independent.observedAt <= after.action.armed.id.created
  }

  predicate Chain(rows: seq<Cycle>, stop: StopReceipt -> Digest, look: Observation -> Digest) {
    && (forall i | 0 <= i < |rows| :: rows[i].action.sequence == i + 1)
    && (rows != [] ==> rows[0].action.operation == Start)
    && (forall i | 0 < i < |rows| :: Follows(rows[i - 1], rows[i], stop, look))
  }

  /** _ordered_control_cycles, of cycles each of which settled. */
  ghost predicate Accepted(cycles: seq<Cycle>, stop: StopReceipt -> Digest, look: Observation -> Digest) {
    && (forall c | c in cycles :: Settled(c))
    && (forall p :: Chain(Ordered(cycles, p), stop, look))
  }

  lemma ActionTimes(a: Action)
    requires ValidAction(a)
    ensures a.armed.id.created <= a.actionAt <= a.running.observedAt < a.armed.id.deadline
  {
  }

  lemma {:induction false} ActionsRise(rows: seq<Cycle>, stop: StopReceipt -> Digest, look: Observation -> Digest, i: nat, j: nat)
    requires Chain(rows, stop, look) && i < j < |rows|
    ensures rows[i].action.actionAt < rows[j].action.actionAt
    decreases j
  {
    assert Follows(rows[j - 1], rows[j], stop, look);
    if i < j - 1 { ActionsRise(rows, stop, look, i, j - 1); }
  }

  /** Cycles with only reboots between them are of one run, stopped once. */
  lemma {:induction false} RebootsKeepRun(rows: seq<Cycle>, stop: StopReceipt -> Digest, look: Observation -> Digest, i: nat, j: nat)
    requires NoCollision(rows, stop) && Chain(rows, stop, look) && i <= j < |rows|
    requires forall k | i < k <= j :: rows[k].action.operation == Reboot
    ensures rows[i].stopped == rows[j].stopped
    decreases j
  {
    if i < j {
      RebootsKeepRun(rows, stop, look, i, j - 1);
      assert Follows(rows[j - 1], rows[j], stop, look) && rows[j - 1] in rows && rows[j] in rows;
    }
  }

  /** A run that starts was created after everything before it had stopped. */
  lemma {:induction false} StartsAfterAll(rows: seq<Cycle>, stop: StopReceipt -> Digest, look: Observation -> Digest, i: nat, k: nat)
    requires NoCollision(rows, stop) && Chain(rows, stop, look) && (forall c | c in rows :: Settled(c))
    requires i < k < |rows| && rows[k].action.operation != Reboot
    ensures rows[i].stopped.stoppedAt <= rows[k].action.armed.id.created
    decreases k
  {
    assert Follows(rows[k - 1], rows[k], stop, look) && rows[k - 1] in rows && rows[i] in rows;
    var last := rows[k - 1];
    assert last.stopped.stoppedAt <= rows[k].action.armed.id.created;
    if i < k - 1 {
      var s := LastStart(rows, i, k - 1);
      if s > i {
        StartsAfterAll(rows, stop, look, i, s);
        RebootsKeepRun(rows, stop, look, s, k - 1);
        assert rows[s] in rows;
        ActionTimes(rows[s].action);
      } else {
        RebootsKeepRun(rows, stop, look, i, k - 1);
      }
    }
  }

  /** The last start in (i, j], or i if there are only reboots. */
  lemma LastStart(rows: seq<Cycle>, i: nat, j: nat) returns (s: nat)
    requires i <= j < |rows|
    ensures i <= s <= j && (s > i ==> rows[s].action.operation != Reboot)
    ensures forall k | s < k <= j :: rows[k].action.operation == Reboot
    decreases j
  {
    s := j;
    if s > i && rows[j].action.operation == Reboot { s := LastStart(rows, i, j - 1); }
  }

  lemma PlaceOf(rows: seq<Cycle>, stop: StopReceipt -> Digest, look: Observation -> Digest, c: Cycle) returns (i: nat)
    requires Chain(rows, stop, look) && c in rows
    ensures i < |rows| && rows[i] == c && c.action.sequence == i + 1
  {
    i :| 0 <= i < |rows| && rows[i] == c;
  }

  predicate Numbered(cycles: seq<Cycle>, p: Platform, n: int) {
    exists c | c in cycles :: c.action.platform == p && c.action.sequence == n
  }

  /** Per platform the cycles are numbered from 1 without gap or repetition, the
      first is a start, and their actions follow in the order of the numbers. */
  lemma OneTimeline(cycles: seq<Cycle>, stop: StopReceipt -> Digest, look: Observation -> Digest, a: Cycle, b: Cycle)
    requires Accepted(cycles, stop, look) && a in cycles && b in cycles && a.action.platform == b.action.platform
    ensures a.action.sequence < b.action.sequence <==> a.action.actionAt < b.action.actionAt
    ensures a.action.sequence == b.action.sequence <==> a == b
    ensures 1 <= a.action.sequence && (a.action.sequence == 1 ==> a.action.operation == Start)
    ensures forall n | 1 <= n <= a.action.sequence :: Numbered(cycles, a.action.platform, n)
  {
    var rows := Ordered(cycles, a.action.platform);
    var i := PlaceOf(rows, stop, look, a);
    var j := PlaceOf(rows, stop, look, b);
    if i < j { ActionsRise(rows, stop, look, i, j); }
    if j < i { ActionsRise(rows, stop, look, j, i); }
    forall n | 1 <= n <= a.action.sequence ensures Numbered(cycles, a.action.platform, n) {
      assert rows[n - 1] in rows && rows[n - 1].action.sequence == n;
    }
  }

  /** Cycles separated by a later start do not overlap: the earlier was stopped
      before the run of the later was even created. */
  lemma SeparatedCycles(
      cycles: seq<Cycle>, stop: StopReceipt -> Digest, look: Observation -> Digest, a: Cycle, start: Cycle, b: Cycle)
    requires NoCollision(cycles, stop) && Accepted(cycles, stop, look) && a in cycles && start in cycles && b in cycles
    requires a.action.platform == start.action.platform == b.action.platform && start.action.operation != Reboot
    requires a.action.sequence < start.action.sequence <= b.action.sequence
    ensures a.stopped.stoppedAt <= b.action.armed.id.created
  {
    var rows := Ordered(cycles, a.action.platform);
    var i := PlaceOf(rows, stop, look, a);
    var k := PlaceOf(rows, stop, look, start);
    var j := PlaceOf(rows, stop, look, b);
    var s := LastStart(rows, k, j);
    StartsAfterAll(rows, stop, look, i, s);
    RebootsKeepRun(rows, stop, look, s, j);
    assert rows[s] in rows && rows[j] in rows;
  }

  /** Two cycles of different runs have a start between them. */
  lemma DifferentRunsAreSeparated(
      cycles: seq<Cycle>, stop: StopReceipt -> Digest, look: Observation -> Digest, a: Cycle, b: Cycle) returns (start: Cycle)
    requires NoCollision(cycles, stop) && Accepted(cycles, stop, look) && a in cycles && b in cycles
    requires a.action.platform == b.action.platform && a.action.sequence < b.action.sequence
    requires a.action.armed.id.run != b.action.armed.id.run
    ensures start in cycles && start.action.platform == a.action.platform && start.action.operation != Reboot
    ensures a.action.sequence < start.action.sequence <= b.action.sequence
  {
    var rows := Ordered(cycles, a.action.platform);
    var i := PlaceOf(rows, stop, look, a);
    var j := PlaceOf(rows, stop, look, b);
    var s := LastStart(rows, i, j);
    if s == i {
      RebootsKeepRun(rows, stop, look, i, j);
    }
    start := rows[s];
    assert rows[s] in rows;
  }

  // ----------------------------------------------------------------- phases

  predicate Bound(phase: Phase, c: Cycle) {
    var a := c.action;
    phase.action == c.digest && phase.platform == a.platform && phase.instance == a.armed.id.instance
    && phase.mode in a.modes && phase.sequence == a.sequence && phase.run == a.armed.id.run
    && a.running.observedAt <= phase.startedAt <= phase.finishedAt <= c.stopped.stoppedAt
  }

  predicate Used(digest: Digest, phases: seq<Phase>) {
    exists p | p in phases :: p.action == digest
  }

  predicate Placed(p: Phase, cycles: seq<Cycle>) {
    exists c | c in cycles :: Bound(p, c)
  }

  /** validate_control_cycles */
  ghost predicate Correlated(cycles: seq<Cycle>, phases: seq<Phase>, stop: StopReceipt -> Digest, look: Observation -> Digest) {
    && cycles != [] && Accepted(cycles, stop, look)
    && (forall i, j | 0 <= i < j < |cycles| :: cycles[i].digest != cycles[j].digest)
    && (forall c | c in cycles :: Used(c.digest, phases))
    && (forall p | p in phases :: Placed(p, cycles))
  }

  lemma FinishesBefore(
      cycles: seq<Cycle>, stop: StopReceipt -> Digest, look: Observation -> Digest, a: Cycle, b: Cycle, p: Phase, q: Phase)
    requires NoCollision(cycles, stop) && Accepted(cycles, stop, look) && a in cycles && b in cycles && Bound(p, a) && Bound(q, b)
    requires p.platform == q.platform && p.run != q.run && p.sequence < q.sequence
    ensures p.finishedAt <= q.startedAt
  {
    var start := DifferentRunsAreSeparated(cycles, stop, look, a, b);
    SeparatedCycles(cycles, stop, look, a, start, b);
    ActionTimes(b.action);
  }

  lemma CycleOf(cycles: seq<Cycle>, phases: seq<Phase>, stop: StopReceipt -> Digest, look: Observation -> Digest, p: Phase)
      returns (c: Cycle)
    requires Correlated(cycles, phases, stop, look) && p in phases
    ensures Accepted(cycles, stop, look) && c in cycles && Bound(p, c)
  {
    assert Accepted(cycles, stop, look) && Placed(p, cycles);
    hide Correlated, Accepted, Used, Bound;
    c :| c in cycles && Bound(p, c);
  }

  /** Phases on one machine that belong to different controller runs never
      overlap, and they follow in the order of their cycles. */
  lemma PhasesDoNotOverlap(
      cycles: seq<Cycle>, phases: seq<Phase>, stop: StopReceipt -> Digest, look: Observation -> Digest, p: Phase, q: Phase)
    requires NoCollision(cycles, stop) && Correlated(cycles, phases, stop, look) && p in phases && q in phases
    requires p.platform == q.platform && p.run != q.run
    ensures p.sequence != q.sequence
    ensures if p.sequence < q.sequence then p.finishedAt <= q.startedAt else q.finishedAt <= p.startedAt
  {
    hide Accepted, Correlated, ValidAction, NoCollision;
    var a := CycleOf(cycles, phases, stop, look, p);
    var b := CycleOf(cycles, phases, stop, look, q);
    OneTimeline(cycles, stop, look, a, b);
    if p.sequence < q.sequence { FinishesBefore(cycles, stop, look, a, b, p, q); }
    if q.sequence < p.sequence { FinishesBefore(cycles, stop, look, b, a, q, p); }
  }

  // --------------------------------------------- what an accepted cycle shows

  /** The instance of an accepted cycle was seen running, with its run's tag and in
      time, and afterwards, by somebody independent, stopped and without a tag. The
      supervisor had reported at most ten seconds before the action, which left a
      minute to the deadline, and before a start the instance was seen stopped and
      without a tag. */
  lemma AcceptedIsStopped(cycles: seq<Cycle>, stop: StopReceipt -> Digest, look: Observation -> Digest, c: Cycle)
    requires Accepted(cycles, stop, look) && c in cycles
    ensures var a, id := c.action, c.action.armed.id;
      && !c.independent.running && c.independent.owner == None
      && a.running.running && a.running.owner == Some(id.run)
      && c.independent.instance == a.running.instance == id.instance
      && c.independent.account == a.running.account == id.account
      && c.independent.run == a.running.run == c.stopped.id.run == id.run
      && id.created <= a.ready.captured <= a.actionAt <= a.running.observedAt
      && a.running.observedAt <= c.stopped.stoppedAt <= c.stoppedCapture <= c.independent.observedAt
      && a.running.observedAt < id.deadline <= id.created + 7200.0 && a.actionAt < id.deadline - 60.0
      && a.actionAt - 10.0 <= a.ready.heartbeat <= a.actionAt
      && (a.proof.Started? ==>
            && !a.proof.initial.running && a.proof.initial.owner == None && a.proof.initial.instance == id.instance
            && id.created <= a.proof.initial.observedAt <= a.actionAt <= a.proof.started.captured <= a.running.observedAt
            && a.proof.started.id == id && a.proof.started.pid == a.ready.pid
            && id.created <= a.proof.started.heartbeat <= a.proof.started.captured)
      && 120.0 <= id.deadline - id.created && id.created <= a.armed.captured <= a.ready.captured
      && a.ready.id == id && a.ready.pid > 0 && id.created <= a.ready.heartbeat <= a.ready.captured
  {
    assert ValidAction(c.action);
    hide Ordered;
  }

  /** Every accepted cycle goes back to the start of its own run, with reboots alone
      in between, and shares its stop. */
  lemma CycleHasStart(cycles: seq<Cycle>, stop: StopReceipt -> Digest, look: Observation -> Digest, c: Cycle) returns (start: Cycle)
    requires NoCollision(cycles, stop) && Accepted(cycles, stop, look) && c in cycles
    ensures start in cycles && start.action.platform == c.action.platform && start.action.operation != Reboot
    ensures start.action.sequence <= c.action.sequence && start.stopped == c.stopped
    ensures start.action.armed.id == c.action.armed.id
    ensures forall x | x in cycles && x.action.platform == c.action.platform
      && start.action.sequence < x.action.sequence <= c.action.sequence :: x.action.operation == Reboot
  {
    var rows := Ordered(cycles, c.action.platform);
    var j := PlaceOf(rows, stop, look, c);
    var i := LastStart(rows, 0, j);
    RebootsKeepRun(rows, stop, look, i, j);
    start := rows[i];
    assert rows[i] in rows && rows[j] in rows && rows[0].action.operation == Start;
    assert Settled(start) && Settled(c);
    hide Ordered, Follows, ValidAction, NoCollision;
    forall x | x in cycles && x.action.platform == c.action.platform && i + 1 < x.action.sequence <= j + 1
      ensures x.action.operation == Reboot
    {
      assert x in rows;
      var k := PlaceOf(rows, stop, look, x);
    }
  }

  /** A run that starts after others shows the stop of the one before it: that cycle is
      there, of another run of the same instance, and was seen stopped before. */
  lemma StartShowsStop(cycles: seq<Cycle>, stop: StopReceipt -> Digest, look: Observation -> Digest, c: Cycle) returns (before: Cycle)
    requires NoCollision(cycles, stop) && Accepted(cycles, stop, look) && c in cycles
    requires c.action.operation != Reboot && c.action.sequence > 1
    ensures before in cycles && before.action.platform == c.action.platform
    ensures before.action.sequence == c.action.sequence - 1
    ensures before.action.armed.id.run != c.action.armed.id.run
    ensures before.stopped.stoppedAt <= before.independent.observedAt <= c.action.armed.id.created
    ensures PreviousRun(c.action) == Some(before.action.armed.id.run)
    // What the start shows of it: receipt and look by their digests, of the same
    // instance, which was then stopped and without a tag.
    ensures c.action.proof.Started? && c.action.proof.before.After?
    ensures var shown := c.action.proof.before;
      && stop(shown.stopped) == stop(before.stopped) && look(shown.observed) == look(before.independent)
      && shown.stopped.id.instance == c.action.armed.id.instance && shown.stopped.id.account == c.action.armed.id.account
      && shown.observed.run == before.action.armed.id.run && !shown.observed.running && shown.observed.owner == None
      && shown.stoppedCapture <= shown.observed.observedAt <= c.action.armed.id.created
  {
    var rows := Ordered(cycles, c.action.platform);
    var j := PlaceOf(rows, stop, look, c);
    before := rows[j - 1];
    assert rows[j - 1] in rows && Follows(rows[j - 1], rows[j], stop, look);
    assert Settled(before) && Settled(c);
    assert ValidAction(c.action);
    hide Ordered, NoCollision;
  }

  /** A reboot rests on a start of the very run it reboots, seen running before it, in
      modes the start was for. */
  lemma RebootRestsOnStart(cycles: seq<Cycle>, stop: StopReceipt -> Digest, look: Observation -> Digest, c: Cycle)
    requires Accepted(cycles, stop, look) && c in cycles && c.action.operation == Reboot
    ensures c.action.proof.Rebooted?
    ensures var start, a := c.action.proof.anchor, c.action;
      && start.operation != Reboot && start.proof.Started? && start.platform == a.platform && start.armed.id == a.armed.id
      && 1 <= start.sequence < a.sequence && a.modes <= start.modes
      && start.running.running && start.running.owner == Some(a.armed.id.run)
      && start.actionAt <= start.running.observedAt < a.actionAt
  {
    assert Settled(c) && ValidAction(c.action);
    assert c.action.proof.Rebooted? && ValidAction(c.action.proof.anchor);
    hide Ordered, Captured, Alive, Stopped;
  }

  /** Cycles and phases belong together: every phase names one cycle, in whose time and
      in one of whose modes it ran, and every cycle has such a phase. */
  lemma PhasesFillCycles(cycles: seq<Cycle>, phases: seq<Phase>, stop: StopReceipt -> Digest, look: Observation -> Digest)
    requires Correlated(cycles, phases, stop, look)
    ensures cycles != [] && phases != []
    ensures forall p, c | p in phases && c in cycles :: p.action == c.digest <==> Bound(p, c)
    ensures forall p | p in phases :: exists c :: c in cycles && Bound(p, c) && forall d | d in cycles && Bound(p, d) :: d == c
    ensures forall c | c in cycles :: exists p :: p in phases && Bound(p, c) && p.mode in c.action.modes
  {
    forall p, c | p in phases && c in cycles ensures p.action == c.digest <==> Bound(p, c) {
      var d := CycleOf(cycles, phases, stop, look, p);
      OneOfDigest(cycles, c, d);
    }
    hide Accepted;
    forall p | p in phases
      ensures exists c :: c in cycles && Bound(p, c) && forall d | d in cycles && Bound(p, d) :: d == c
    {
      var c := CycleOf(cycles, phases, stop, look, p);
      forall d | d in cycles && Bound(p, d) ensures d == c { OneOfDigest(cycles, c, d); }
    }
    forall c | c in cycles ensures exists p :: p in phases && Bound(p, c) && p.mode in c.action.modes {
      assert Used(c.digest, phases);
    }
    assert cycles[0] in cycles && Used(cycles[0].digest, phases);
  }

  lemma OneOfDigest(cycles: seq<Cycle>, c: Cycle, d: Cycle)
    requires forall i, j | 0 <= i < j < |cycles| :: cycles[i].digest != cycles[j].digest
    requires c in cycles && d in cycles
    ensures c.digest == d.digest ==> c == d
  {
  }

  // --------------------------------------------------------- it can be accepted

  function ExampleCycle(sequence: nat, run: nat, created: real, operation: Operation, before: Before): Cycle {
    var id := Identity(0, run, 0, created, created + 1000.0);
    var ready, running := Snapshot(id, 1, created + 2.0, created + 2.0), Observation(0, run, true, Some(run), 0, created + 5.0);
    var initial := Observation(0, run, false, None, 0, created + 1.0);
    Cycle(
      Action(Linux, {0}, sequence, operation, created + 3.0, Snapshot(id, 1, created, created + 1.0), ready, running,
             Started(Snapshot(id, 1, created + 4.0, created + 4.0), initial, before)),
      sequence, StopReceipt(id, created + 20.0), created + 21.0, Observation(0, run, false, None, 0, created + 22.0))
  }

  const EXAMPLE_FIRST := ExampleCycle(1, 0, 0.0, Start, First)
  const EXAMPLE_SECOND := ExampleCycle(
    2, 1, 30.0, StopStart, After(EXAMPLE_FIRST.stopped, EXAMPLE_FIRST.stoppedCapture, EXAMPLE_FIRST.independent))

  // A reboot in the second run, which is stopped once.
  const EXAMPLE_THIRD :=
    var c, id := EXAMPLE_SECOND, EXAMPLE_SECOND.action.armed.id;
    Cycle(
      Action(Linux, {0}, 3, Reboot, 38.0, c.action.armed, Snapshot(id, 1, 36.0, 37.0),
             Observation(0, 1, true, Some(1), 0, 40.0), Rebooted(c.action)),
      3, c.stopped, c.stoppedCapture, c.independent)

  function ExamplePhase(c: Cycle): Phase {
    Phase(Linux, 0, 0, c.action.sequence, c.action.armed.id.run, c.action.running.observedAt, c.stopped.stoppedAt, c.digest)
  }

  lemma ExampleRows()
    ensures Ordered([EXAMPLE_FIRST, EXAMPLE_SECOND, EXAMPLE_THIRD], Linux) == [EXAMPLE_FIRST, EXAMPLE_SECOND, EXAMPLE_THIRD]
    ensures Ordered([EXAMPLE_FIRST, EXAMPLE_SECOND, EXAMPLE_THIRD], Win32) == []
  {
    var c, d, e := EXAMPLE_FIRST, EXAMPLE_SECOND, EXAMPLE_THIRD;
    assert c.action.platform == d.action.platform == e.action.platform == Linux;
    assert c.action.sequence < d.action.sequence < e.action.sequence;
    hide ExampleCycle, EXAMPLE_FIRST, EXAMPLE_SECOND, EXAMPLE_THIRD;
    ThreeRows(c, d, e);
  }

  lemma ThreeRows(c: Cycle, d: Cycle, e: Cycle)
    requires c.action.platform == d.action.platform == e.action.platform == Linux
    requires c.action.sequence < d.action.sequence < e.action.sequence
    ensures Ordered([c, d, e], Linux) == [c, d, e] && Ordered([c, d, e], Win32) == []
  {
    hide Ordered, Insert;
    assert [] + [c] == [c] && [c] + [d] == [c, d] && [c, d] + [e] == [c, d, e];
    NoRows();
    OneMoreRow([], c);
    OneMoreRow([c], d);
    OneMoreRow([c, d], e);
  }

  lemma NoRows()
    ensures Ordered([], Linux) == [] && Ordered([], Win32) == []
  {
  }

  lemma OneMoreRow(rows: seq<Cycle>, c: Cycle)
    requires Ordered(rows, Linux) == rows && Ordered(rows, Win32) == [] && c.action.platform == Linux
    requires rows != [] ==> rows[|rows|-1].action.sequence < c.action.sequence
    ensures Ordered(rows + [c], Linux) == rows + [c] && Ordered(rows + [c], Win32) == []
  {
    assert (rows + [c])[..|rows|] == rows;
  }

  /** Two runs, one started after the other was stopped and rebooted once, with a phase
      of each action, are accepted. */
  lemma SomeCyclesAreAccepted(stop: StopReceipt -> Digest, look: Observation -> Digest)
    ensures Correlated(
      [EXAMPLE_FIRST, EXAMPLE_SECOND, EXAMPLE_THIRD],
      [ExamplePhase(EXAMPLE_FIRST), ExamplePhase(EXAMPLE_SECOND), ExamplePhase(EXAMPLE_THIRD)], stop, look)
  {
    var c, d, e := EXAMPLE_FIRST, EXAMPLE_SECOND, EXAMPLE_THIRD;
    ExampleRows();
    ExampleSettles();
    ExampleFollows(stop, look);
    ExampleBinds();
    hide *;
    ThreeAreCorrelated(c, d, e, ExamplePhase(c), ExamplePhase(d), ExamplePhase(e), stop, look);
  }

  lemma ThreeAreCorrelated(
      c: Cycle, d: Cycle, e: Cycle, p: Phase, q: Phase, r: Phase, stop: StopReceipt -> Digest, look: Observation -> Digest)
    requires Ordered([c, d, e], Linux) == [c, d, e] && Ordered([c, d, e], Win32) == []
    requires Settled(c) && Settled(d) && Settled(e) && Follows(c, d, stop, look) && Follows(d, e, stop, look)
    requires c.action.sequence == 1 && d.action.sequence == 2 && e.action.sequence == 3 && c.action.operation == Start
    requires Bound(p, c) && Bound(q, d) && Bound(r, e) && c.digest != d.digest && d.digest != e.digest && e.digest != c.digest
    ensures Correlated([c, d, e], [p, q, r], stop, look)
  {
    var cycles, phases := [c, d, e], [p, q, r];
    assert p.action == c.digest && q.action == d.digest && r.action == e.digest;
    hide *;
    ThreeAreAccepted(c, d, e, stop, look);
    ThreeAreUsed(c, d, e, p, q, r);
    Together(cycles, phases, stop, look);
  }

  lemma Together(cycles: seq<Cycle>, phases: seq<Phase>, stop: StopReceipt -> Digest, look: Observation -> Digest)
    requires cycles != [] && Accepted(cycles, stop, look)
    requires forall i, j | 0 <= i < j < |cycles| :: cycles[i].digest != cycles[j].digest
    requires forall c | c in cycles :: Used(c.digest, phases)
    requires forall p | p in phases :: Placed(p, cycles)
    ensures Correlated(cycles, phases, stop, look)
  {
    hide Accepted, Used, Placed;
  }

  lemma ThreeAreAccepted(c: Cycle, d: Cycle, e: Cycle, stop: StopReceipt -> Digest, look: Observation -> Digest)
    requires Ordered([c, d, e], Linux) == [c, d, e] && Ordered([c, d, e], Win32) == []
    requires Settled(c) && Settled(d) && Settled(e) && Follows(c, d, stop, look) && Follows(d, e, stop, look)
    requires c.action.sequence == 1 && d.action.sequence == 2 && e.action.sequence == 3 && c.action.operation == Start
    ensures Accepted([c, d, e], stop, look)
  {
    hide Ordered, Settled, Follows;
    forall x ensures Chain(Ordered([c, d, e], x), stop, look) { assert x == Linux || x == Win32; }
  }

  lemma ThreeAreUsed(c: Cycle, d: Cycle, e: Cycle, p: Phase, q: Phase, r: Phase)
    requires Bound(p, c) && Bound(q, d) && Bound(r, e) && p.action == c.digest && q.action == d.digest && r.action == e.digest
    ensures forall x | x in [c, d, e] :: Used(x.digest, [p, q, r])
    ensures forall x | x in [p, q, r] :: Placed(x, [c, d, e])
  {
    hide Bound;
    var cycles, phases := [c, d, e], [p, q, r];
    assert phases[0] in phases && phases[1] in phases && phases[2] in phases;
    assert cycles[0] in cycles && cycles[1] in cycles && cycles[2] in cycles;
  }

  lemma ExampleBinds()
    ensures Bound(ExamplePhase(EXAMPLE_FIRST), EXAMPLE_FIRST) && Bound(ExamplePhase(EXAMPLE_SECOND), EXAMPLE_SECOND)
    ensures Bound(ExamplePhase(EXAMPLE_THIRD), EXAMPLE_THIRD)
    ensures EXAMPLE_FIRST.digest != EXAMPLE_SECOND.digest && EXAMPLE_SECOND.digest != EXAMPLE_THIRD.digest
    ensures EXAMPLE_THIRD.digest != EXAMPLE_FIRST.digest
    ensures EXAMPLE_FIRST.action.operation == Start && EXAMPLE_FIRST.action.sequence == 1
    ensures EXAMPLE_SECOND.action.sequence == 2 && EXAMPLE_THIRD.action.sequence == 3
  {
  }

  lemma ExampleSettles()
    ensures Settled(EXAMPLE_FIRST) && Settled(EXAMPLE_SECOND) && Settled(EXAMPLE_THIRD)
  {
  }

  lemma ExampleFollows(stop: StopReceipt -> Digest, look: Observation -> Digest)
    ensures Follows(EXAMPLE_FIRST, EXAMPLE_SECOND, stop, look) && Follows(EXAMPLE_SECOND, EXAMPLE_THIRD, stop, look)
  {
  }
}
