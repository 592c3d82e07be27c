/** The callbacks of one handle, as the source writes them, while the other
    handles of the database file go on in between. */
module CheckedFileLocks {
  import opened ByteLocks
  import opened LockProtocol
  import opened LockSafety

  /** Stepping the other handles does not depend on this one's fields. */
  lemma OthersIgnoreMe(others: map<Id, Handle>, t: Table, id: Id, h: Handle, a: Action)
    requires id !in others && a.id != id
    ensures var w := Apply(World(others, t), a);
      id !in w.handles && Apply(World(others[id := h], t), a) == World(w.handles[id := h], w.table)
  {
    hide BeginLock, BeginUnlock, BeginReserved, After, CallAt, Outcome, Effect;
    var w := Apply(World(others, t), a);
    if a.id in others && a.id in t {
      var w' := Apply(World(others[id := h], t), a);
      if a.Close? {
        assert others[id := h] - {a.id} == (others - {a.id})[id := h];
      } else {
        assert w'.handles == w.handles[id := h];
      }
    } else {
      assert a.Open? ==> others[id := h][a.id := FRESH.(readonly := a.readonly)]
                         == others[a.id := FRESH.(readonly := a.readonly)][id := h];
    }
  }

  /** The run `trace` led to these other handles, this handle and this table. */
  ghost predicate Led(trace: seq<Action>, others: map<Id, Handle>, t: Table, id: Id, h: Handle) {
    id !in others && Exec(EMPTY, trace) == World(others[id := h], t)
  }

  /** After the run `trace` the handle is in this state. */
  ghost predicate Stands(trace: seq<Action>, id: Id, h: Handle) {
    var w := Exec(EMPTY, trace);
    id in w.handles && w.handles[id] == h
  }

  lemma LedStands(trace: seq<Action>, others: map<Id, Handle>, t: Table, id: Id, h: Handle)
    requires Led(trace, others, t, id, h)
    ensures Stands(trace, id, h) && Exec(EMPTY, trace).table == t
  {
  }

  lemma MyCall(trace: seq<Action>, others: map<Id, Handle>, t: Table, id: Id, h: Handle, check: bool)
    requires Led(trace, others, t, id, h) && h.pc != Idle
    ensures id in t
    ensures var call := CallAt(h.pc);
      Led(trace + [Fire(id, check)], others, Effect(t, id, call, check), id, After(h, Outcome(t, id, call, check)))
  {
    ReachableInv(trace);
    ExecStep(trace, Fire(id, check));
    hide After, CallAt, Outcome, Effect, Sound, Compatible, Exec;
    var h' := After(h, Outcome(t, id, CallAt(h.pc), check));
    assert others[id := h][id := h'] == others[id := h'];
  }

  lemma MyBegin(trace: seq<Action>, others: map<Id, Handle>, t: Table, id: Id, h: Handle, a: Action)
    requires Led(trace, others, t, id, h) && h.pc == Idle && a.id == id
    ensures a.CallLock? ==> Led(trace + [a], others, t, id, BeginLock(h, a.requested, a.check))
    ensures a.CallUnlock? ==> Led(trace + [a], others, t, id, BeginUnlock(h, a.requested))
    ensures a.CallReserved? ==> Led(trace + [a], others, t, id, BeginReserved(h, a.check))
  {
    ReachableInv(trace);
    ExecStep(trace, a);
    hide BeginLock, BeginUnlock, BeginReserved, Sound, Compatible, Exec;
    if !a.Open? && !a.Fire? && !a.Close? {
      var h' := Apply(Exec(EMPTY, trace), a).handles[id];
      assert others[id := h][id := h'] == others[id := h'];
    }
  }

  lemma IdleFlags(trace: seq<Action>, others: map<Id, Handle>, t: Table, id: Id, h: Handle)
    requires Led(trace, others, t, id, h) && h.pc == Idle
    ensures LOCK_NONE <= h.lock <= LOCK_EXCLUSIVE && (h.pending <==> h.lock >= LOCK_PENDING)
    ensures (h.lock <= LOCK_SHARED ==> !h.reserved) && (h.lock == LOCK_EXCLUSIVE || h.lock == LOCK_NONE ==> !h.shared)
    ensures id in t && (h.lock == LOCK_NONE ==> t[id] == multiset{})
  {
    ReachableInv(trace);
    FlagsMirrorTable(trace, id);
  }

  lemma WriterIsAlone(trace: seq<Action>, others: map<Id, Handle>, t: Table, id: Id, h: Handle)
    requires Led(trace, others, t, id, h) && HoldsExclusive(h)
    ensures forall o | o in t && o != id :: forall e | e in t[o] :: !Overlap(e.range, SHARED_RANGE)
  {
    forall o | o in t && o != id ensures forall e | e in t[o] :: !Overlap(e.range, SHARED_RANGE) {
      ExclusiveExcludes(trace, id, o);
    }
  }

  lemma MyLockCall(trace: seq<Action>, others: map<Id, Handle>, t: Table, id: Id, h: Handle, want: Held, check: bool)
    requires Led(trace, others, t, id, h) && h.pc != Idle && CallAt(h.pc) == LockCall(want)
    ensures id in t
    ensures var rc := if !check then IoErrLock else if Refused(t, want) then Busy else Ok;
      && Led(trace + [Fire(id, check)], others, if rc == Ok then t[id := t[id] + multiset{want}] else t, id, After(h, rc))
      && (h.pc.RestoreShared? || h.pc == Downgrade ==> rc != Busy)
  {
    MyCall(trace, others, t, id, h, check);
    if h.pc.RestoreShared? || h.pc == Downgrade {
      assert trace + [] == trace;
      RelockNeverRefused(trace, [], id, check);
    }
    hide After, Exec, Refused;
  }

  lemma MyUnlockCall(trace: seq<Action>, others: map<Id, Handle>, t: Table, id: Id, h: Handle, range: Range)
    requires Led(trace, others, t, id, h) && h.pc != Idle && CallAt(h.pc) == UnlockCall(range)
    ensures id in t && CanUnlock(t, id, range)
    ensures Led(trace + [Fire(id, true)], others, Unlock(t, id, range), id, After(h, Ok))
  {
    MyCall(trace, others, t, id, h, true);
    CallsAreSound(trace, id);
    hide After, Exec;
  }

  ghost predicate Leaves(acts: seq<Action>, id: Id) {
    forall a | a in acts :: a.id != id
  }

  // ------------------------------------------------------- why a call refuses

  /** Another handle holds bytes that stand against this lock. */
  ghost predicate Obstructed(moment: seq<Action>, id: Id, want: Held) {
    var t := Exec(EMPTY, moment).table;
    exists o, e :: o != id && o in t && e in t[o] && Clash(e, want)
  }

  /** That was so at a moment of the call. */
  ghost predicate WasObstructed(before: seq<Action>, after: seq<Action>, id: Id, want: Held) {
    exists moment :: before <= moment <= after && Obstructed(moment, id, want)
  }

  predicate Unchecked(a: Action, id: Id) {
    a.id == id && (a.CallLock? || a.CallReserved? || a.Fire?) && !a.check
  }

  /** A check of this handle failed during the call. */
  ghost predicate CheckFailed(before: seq<Action>, after: seq<Action>, id: Id) {
    exists i :: |before| <= i < |after| && Unchecked(after[i], id)
  }

  /** What was so in a part of a call was so in the call. */
  lemma PartOfCall(before: seq<Action>, first: seq<Action>, last: seq<Action>, after: seq<Action>, id: Id)
    requires before <= first <= last <= after
    ensures before <= after
    ensures forall want :: WasObstructed(first, last, id, want) ==> WasObstructed(before, after, id, want)
    ensures CheckFailed(first, last, id) ==> CheckFailed(before, after, id)
  {
    hide Obstructed, Unchecked;
    Chains(before, first, last);
    Chains(before, last, after);
    forall want | WasObstructed(first, last, id, want) ensures WasObstructed(before, after, id, want) {
      var moment :| first <= moment <= last && Obstructed(moment, id, want);
      Chains(before, first, moment);
      Chains(moment, last, after);
    }
    if CheckFailed(first, last, id) {
      var i :| |first| <= i < |last| && Unchecked(last[i], id);
      assert after[i] == last[i];
    }
  }

  lemma Chains<T>(a: seq<T>, b: seq<T>, c: seq<T>)
    requires a <= b <= c
    ensures a <= c
  {
    assert a == b[..|a|] == c[..|a|];
  }

  /** A refusal comes from another handle, for no call asks for bytes its own holds. */
  lemma RefusedByOther(moment: seq<Action>, id: Id, h: Handle, want: Held)
    requires Stands(moment, id, h) && h.pc != Idle && CallAt(h.pc) == LockCall(want)
    ensures Refused(Exec(EMPTY, moment).table, want) ==> Obstructed(moment, id, want)
  {
    hide Exec, CallAt, Overlap;
    CallsAreSound(moment, id);
    var t := Exec(EMPTY, moment).table;
    if Refused(t, want) {
      var o, e :| o in t && e in t[o] && Clash(e, want);
      assert o != id by { assert Clash(e, want) ==> Overlap(e.range, want.range); }
    }
  }

  predicate IsLevel(requested: int) {
    requested == LOCK_SHARED || requested == LOCK_RESERVED || requested == LOCK_EXCLUSIVE
  }

  /** The byte locks that can refuse a level, with the level the handle is left at. */
  function Needs(requested: int, left: int): set<Held> {
    if requested == LOCK_SHARED then {Held(PENDING_RANGE, false), Held(SHARED_RANGE, false)}
    else if requested == LOCK_RESERVED then {Held(RESERVED_RANGE, true)}
    else if left == LOCK_PENDING then {Held(SHARED_RANGE, true)}
    else {Held(PENDING_RANGE, true)}
  }

  /** The shared database file: its lock table, and the other handles. The trace
      is the run of the protocol that led here. */
  class Database {
    var table: Table
    var others: map<Id, Handle>
    ghost var trace: seq<Action>

    constructor ()
      ensures World(others, table) == Exec(EMPTY, trace)
    {
      table, others, trace := map[], map[], [];
    }

    /** The file's fields and the table are where the run led. */
    ghost predicate Valid(f: CheckedFile)
      reads this, f
    {
      Led(trace, others, table, f.id, f.State())
    }

    /** Any number of steps of any other handles. */
    method Interfere(f: CheckedFile)
      requires Valid(f)
      modifies this
      ensures Valid(f)
      ensures exists acts :: Leaves(acts, f.id) && trace == old(trace) + acts
    {
      var n: nat := *;
      ghost var acts: seq<Action> := [];
      assert trace == trace + acts;
      while n > 0
        invariant Valid(f)
        invariant Leaves(acts, f.id) && trace == old(trace) + acts
      {
        var a: Action := *;
        if a.id != f.id {
          var w := Apply(World(others, table), a);
          OthersIgnoreMe(others, table, f.id, f.State(), a);
          others, table := w.handles, w.table;
          ExecStep(trace, a);
          trace := trace + [a];
          assert old(trace) + (acts + [a]) == old(trace) + acts + [a];
          acts := acts + [a];
        }
        n := n - 1;
      }
    }

    /** The call the file stood at has its answer; the file has yet to act on it. */
    ghost predicate Answered(f: CheckedFile, rc: Rc)
      reads this, f
    {
      f.pc != Idle && Led(trace, others, table, f.id, After(f.State(), rc))
    }

    /** ci_lock: the check may fail at any call, and the table may have changed.
        `moment` is when the table was asked. */
    method CiLockAt(f: CheckedFile, range: Range, exclusive: bool) returns (rc: Rc, ghost moment: seq<Action>)
      requires Valid(f) && f.pc != Idle && CallAt(f.pc) == LockCall(Held(range, exclusive))
      modifies this
      ensures Answered(f, rc) && old(trace) <= moment < trace && Stands(moment, f.id, f.State())
      ensures rc == Ok || rc == Busy || rc == IoErrLock
      ensures rc != IoErrLock ==> (rc == Busy <==> Refused(Exec(EMPTY, moment).table, Held(range, exclusive)))
      ensures f.pc.RestoreShared? || f.pc == Downgrade ==> rc != Busy
      ensures rc == IoErrLock ==> CheckFailed(old(trace), trace, f.id)
    {
      hide Led, CallAt, After, Refused, Exec;
      Interfere(f);
      var check: bool := *;
      var want := Held(range, exclusive);
      LedStands(trace, others, table, f.id, f.State());
      MyLockCall(trace, others, table, f.id, f.State(), want, check);
      rc := if !check then IoErrLock else if Refused(table, want) then Busy else Ok;
      if rc == Ok { table := table[f.id := table[f.id] + multiset{want}]; }
      moment := trace;
      trace := trace + [Fire(f.id, check)];
      if rc == IoErrLock { assert Unchecked(trace[|moment|], f.id); }
    }

    method CiLock(f: CheckedFile, range: Range, exclusive: bool) returns (rc: Rc)
      requires Valid(f) && f.pc != Idle && CallAt(f.pc) == LockCall(Held(range, exclusive))
      modifies this
      ensures Answered(f, rc) && old(trace) < trace
      ensures rc == Ok || rc == Busy || rc == IoErrLock
      ensures rc == Busy ==> WasObstructed(old(trace), trace, f.id, Held(range, exclusive))
      ensures rc == IoErrLock ==> CheckFailed(old(trace), trace, f.id)
      ensures f.pc.RestoreShared? || f.pc == Downgrade ==> rc != Busy
    {
      hide Led, CallAt, After, Refused, Exec, Stands, Obstructed, CheckFailed;
      ghost var moment;
      rc, moment := CiLockAt(f, range, exclusive);
      RefusedByOther(moment, f.id, f.State(), Held(range, exclusive));
    }

    /** ci_unlock is not checked: it fails only on a range not held. */
    method CiUnlock(f: CheckedFile, range: Range) returns (rc: Rc)
      requires Valid(f) && f.pc != Idle && CallAt(f.pc) == UnlockCall(range)
      modifies this
      ensures Answered(f, rc) && old(trace) < trace
      ensures rc == Ok
    {
      hide Led, CallAt, After, CanUnlock, Unlock;
      Interfere(f);
      MyUnlockCall(trace, others, table, f.id, f.State(), range);
      rc := if CanUnlock(table, f.id, range) then Ok else IoErrUnlock;
      table := Unlock(table, f.id, range);
      trace := trace + [Fire(f.id, true)];
    }
  }

  lemma ExecStep(trace: seq<Action>, a: Action)
    ensures Exec(EMPTY, trace + [a]) == Apply(Exec(EMPTY, trace), a)
  {
    assert (trace + [a])[..|trace + [a]| - 1] == trace;
  }

  lemma FailedAtOnce(trace: seq<Action>, a: Action)
    requires a.CallLock? || a.CallReserved?
    ensures !a.check ==> CheckFailed(trace, trace + [a], a.id)
  {
    if !a.check { assert Unchecked((trace + [a])[|trace|], a.id); }
  }

  lemma Extends<T>(a: seq<T>, b: seq<T>, c: seq<T>)
    requires a < b <= c
    ensures a < c
  {
    assert a == b[..|a|] == c[..|a|];
  }

  class CheckedFile {
    const id: Id
    const readonly: bool
    var lock: int
    var shared: bool
    var reserved: bool
    var pending: bool
    // Where the current call stands, and what the last one returned.
    ghost var pc: Pc
    ghost var ret: Rc
    ghost var out: bool

    ghost function State(): Handle
      reads this
    {
      Handle(readonly, lock, shared, reserved, pending, pc, ret, out)
    }

    /** Nothing of the call is left but to return `rc`. */
    ghost predicate Between(db: Database)
      reads this, db
    {
      db.Valid(this) && pc == Idle
    }

    /** The answer is Ok, or Busy as somebody stood against one of these byte
        locks, or an error as a check failed. */
    ghost predicate Justified(before: seq<Action>, after: seq<Action>, rc: Rc, needs: set<Held>) {
      match rc
      case Ok => true
      case Busy => exists want :: want in needs && WasObstructed(before, after, id, want)
      case IoErrLock => CheckFailed(before, after, id)
      case _ => false
    }

    /** NONE to SHARED: hold PENDING for reading just while taking the SHARED range. */
    method LockShared(db: Database) returns (rc: Rc)
      requires db.Valid(this) && pc == AcquirePending
      modifies this, db
      ensures Between(db) && old(db.trace) <= db.trace
      ensures lock == if rc == Ok then LOCK_SHARED else old(lock)
      ensures shared == if rc == Ok then true else old(shared)
      ensures reserved == old(reserved) && pending == old(pending)
      ensures Justified(old(db.trace), db.trace, rc, {Held(PENDING_RANGE, false), Held(SHARED_RANGE, false)})
    {
      hide Led, UnlockRest, UnlockFlags, Overlap, WasObstructed, CheckFailed;
      rc := db.CiLock(this, PENDING_RANGE, false);
      ghost var asked := db.trace;
      if rc == Ok {
        pc := AcquireShared;
        rc := ReadBehindPending(db);
      } else {
        pc, ret := Idle, rc;
      }
      PartOfCall(old(db.trace), asked, db.trace, db.trace, id);
      PartOfCall(old(db.trace), old(db.trace), asked, db.trace, id);
    }

    method ReadBehindPending(db: Database) returns (rc: Rc)
      requires db.Valid(this) && pc == AcquireShared
      modifies this, db
      ensures Between(db) && old(db.trace) <= db.trace
      ensures lock == if rc == Ok then LOCK_SHARED else old(lock)
      ensures shared == if rc == Ok then true else old(shared)
      ensures reserved == old(reserved) && pending == old(pending)
      ensures Justified(old(db.trace), db.trace, rc, {Held(SHARED_RANGE, false)})
    {
      hide Led, UnlockRest, UnlockFlags, Overlap, WasObstructed, CheckFailed;
      rc := db.CiLock(this, SHARED_RANGE, false);
      ghost var asked := db.trace;
      pc := ReleasePending(rc);
      var release := db.CiUnlock(this, PENDING_RANGE);
      PartOfCall(old(db.trace), old(db.trace), asked, db.trace, id);
      if rc == Ok { shared, lock := true, LOCK_SHARED; }
      rc := if release == Ok then rc else release;
      pc, ret := Idle, rc;
    }

    method LockReserved(db: Database) returns (rc: Rc)
      requires db.Valid(this) && pc == AcquireReserved
      modifies this, db
      ensures Between(db) && old(db.trace) <= db.trace
      ensures lock == if rc == Ok then LOCK_RESERVED else old(lock)
      ensures reserved == if rc == Ok then true else old(reserved)
      ensures shared == old(shared) && pending == old(pending)
      ensures Justified(old(db.trace), db.trace, rc, {Held(RESERVED_RANGE, true)})
    {
      hide Led, UnlockRest, UnlockFlags, Overlap, WasObstructed, CheckFailed;
      rc := db.CiLock(this, RESERVED_RANGE, true);
      if rc == Ok { reserved, lock := true, LOCK_RESERVED; }
      pc, ret := Idle, rc;
    }

    /** Up to EXCLUSIVE: PENDING stays once taken. */
    method LockExclusive(db: Database) returns (rc: Rc)
      requires db.Valid(this) && lock < LOCK_EXCLUSIVE
      requires if pending then State() == AfterPending(State()) && lock == LOCK_PENDING else pc == AcquirePendingExclusive
      modifies this, db
      ensures Between(db) && old(db.trace) <= db.trace
      ensures rc == Ok ==> lock == LOCK_EXCLUSIVE && pending && !shared
      ensures rc != Ok ==> lock == if pending then LOCK_PENDING else old(lock)
      ensures rc != Ok && !pending ==> shared == old(shared)
      ensures rc == Busy && pending ==> shared
      ensures reserved == old(reserved) && (old(pending) ==> pending)
      ensures Justified(old(db.trace), db.trace, rc, {Held(if pending then SHARED_RANGE else PENDING_RANGE, true)})
    {
      hide Led, UnlockRest, UnlockFlags, Overlap, WasObstructed, CheckFailed;
      rc := Ok;
      if !pending {
        rc := db.CiLock(this, PENDING_RANGE, true);
        if rc == Ok {
          pending, lock := true, LOCK_PENDING;
          pc := if shared then DropShared else AcquireSharedExclusive;
        } else {
          pc, ret := Idle, rc;
        }
      }
      ghost var asked := db.trace;
      if rc == Ok { rc := TradeReadForWrite(db); }
      PartOfCall(old(db.trace), asked, db.trace, db.trace, id);
    }

    /** Under PENDING the read lock is given up for the write lock. */
    method TradeReadForWrite(db: Database) returns (rc: Rc)
      requires db.Valid(this) && pending && State() == AfterPending(State()) && lock == LOCK_PENDING
      modifies this, db
      ensures Between(db) && old(db.trace) <= db.trace
      ensures lock == if rc == Ok then LOCK_EXCLUSIVE else LOCK_PENDING
      ensures (rc == Busy ==> shared) && (rc == Ok ==> !shared)
      ensures pending && reserved == old(reserved)
      ensures Justified(old(db.trace), db.trace, rc, {Held(SHARED_RANGE, true)})
    {
      hide Led, UnlockRest, UnlockFlags, Overlap, WasObstructed, CheckFailed;
      rc := Ok;
      if shared {
        rc := db.CiUnlock(this, SHARED_RANGE);
        if rc == Ok { shared, pc := false, AcquireSharedExclusive; }
      }
      ghost var dropped := db.trace;
      if rc == Ok { rc := WriteBehindPending(db); }
      PartOfCall(old(db.trace), dropped, db.trace, db.trace, id);
    }

    /** A refused upgrade takes the read lock back. */
    method WriteBehindPending(db: Database) returns (rc: Rc)
      requires db.Valid(this) && pc == AcquireSharedExclusive && lock == LOCK_PENDING && pending && !shared
      modifies this, db
      ensures Between(db) && old(db.trace) <= db.trace
      ensures lock == if rc == Ok then LOCK_EXCLUSIVE else LOCK_PENDING
      ensures (rc == Busy ==> shared) && (rc == Ok ==> !shared)
      ensures pending && reserved == old(reserved)
      ensures Justified(old(db.trace), db.trace, rc, {Held(SHARED_RANGE, true)})
    {
      hide Led, UnlockRest, UnlockFlags, Overlap, WasObstructed, CheckFailed;
      rc := db.CiLock(this, SHARED_RANGE, true);
      ghost var asked := db.trace;
      if rc == Ok {
        lock := LOCK_EXCLUSIVE;
      } else {
        pc := RestoreShared(rc);
        var restore := db.CiLock(this, SHARED_RANGE, false);
        PartOfCall(old(db.trace), asked, db.trace, db.trace, id);
        PartOfCall(old(db.trace), old(db.trace), asked, db.trace, id);
        if restore != Ok { rc := IoErrLock; } else { shared := true; }
      }
      pc, ret := Idle, rc;
    }

    ghost method Call(db: Database, a: Action, begun: Handle)
      requires db.Valid(this) && pc == Idle && a.id == id && (a.CallLock? || a.CallUnlock? || a.CallReserved?)
      requires begun == match a
        case CallLock(_, requested, check) => BeginLock(State(), requested, check)
        case CallUnlock(_, requested) => BeginUnlock(State(), requested)
        case CallReserved(_, check) => BeginReserved(State(), check)
        case _ => State()
      modifies db`trace
      ensures Led(db.trace, db.others, db.table, id, begun)
      ensures db.trace == old(db.trace) + [a]
    {
      MyBegin(db.trace, db.others, db.table, id, State(), a);
      db.trace := db.trace + [a];
    }

    /** What keeps a request from being asked at all. */
    predicate Unfit(requested: int, level: int) {
      !IsLevel(requested) || (requested > LOCK_SHARED && (readonly || level == LOCK_NONE))
    }

    method FLock(db: Database, requested: int) returns (rc: Rc)
      requires Between(db)
      modifies this, db
      ensures Between(db) && old(db.trace) < db.trace
      ensures rc == Ok ==> lock == if requested > old(lock) then requested else old(lock)
      ensures rc != Ok ==> lock == old(lock)
                            || (requested == LOCK_EXCLUSIVE && LOCK_NONE < old(lock) && lock == LOCK_PENDING)
      ensures rc == Ok && requested == LOCK_SHARED > old(lock) ==> shared
      ensures rc == Busy && old(shared) ==> shared
      ensures requested <= old(lock) || Unfit(requested, old(lock)) ==>
        shared == old(shared) && reserved == old(reserved) && pending == old(pending)
      ensures rc == Ok && requested == LOCK_EXCLUSIVE ==> forall o | o in db.table && o != id ::
        forall e | e in db.table[o] :: !Overlap(e.range, SHARED_RANGE)
      // A request that does not fit is refused; one that does is granted unless a check
      // fails, or another handle stands against the byte lock it needs.
      ensures requested > old(lock) && Unfit(requested, old(lock)) ==>
        rc == IoErrLock || (rc == ReadOnly && IsLevel(requested) && readonly)
      ensures rc == IoErrLock ==>
        || CheckFailed(old(db.trace), db.trace, id)
        || (requested > old(lock) && Unfit(requested, old(lock)) && !(IsLevel(requested) && readonly))
      ensures requested <= old(lock) || !Unfit(requested, old(lock)) ==>
        rc == Ok || rc == IoErrLock || rc == Busy
      ensures rc == Busy ==> requested > old(lock) && !Unfit(requested, old(lock))
      ensures rc == Busy ==> exists want ::
        want in Needs(requested, lock) && WasObstructed(old(db.trace), db.trace, id, want)
    {
      hide Led, After, Overlap, WasObstructed, CheckFailed, Obstructed, Exec;
      var check: bool := *;
      IdleFlags(db.trace, db.others, db.table, id, State());
      Call(db, CallLock(id, requested, check), BeginLock(State(), requested, check));
      ghost var called := db.trace;
      FailedAtOnce(old(db.trace), CallLock(id, requested, check));
      if !check {
        rc, ret := IoErrLock, IoErrLock;
      } else if requested <= lock {
        rc, ret := Ok, Ok;
      } else if !IsLevel(requested) {
        rc, ret := IoErrLock, IoErrLock;
      } else if readonly && requested > LOCK_SHARED {
        rc, ret := ReadOnly, ReadOnly;
      } else if lock == LOCK_NONE && requested != LOCK_SHARED {
        rc, ret := IoErrLock, IoErrLock;
      } else {
        rc := Acquire(db, requested);
        PartOfCall(old(db.trace), called, db.trace, db.trace, id);
      }
      Extends(old(db.trace), called, db.trace);
      if lock == LOCK_EXCLUSIVE { WriterIsAlone(db.trace, db.others, db.table, id, State()); }
    }

    /** A request that fits, from the level the handle has. */
    method Acquire(db: Database, requested: int) returns (rc: Rc)
      requires pc == Idle && requested > lock && !Unfit(requested, lock)
      requires Led(db.trace, db.others, db.table, id, BeginLock(State(), requested, true))
      requires LOCK_NONE <= lock && (pending <==> lock >= LOCK_PENDING) && (lock == LOCK_NONE ==> !shared)
      modifies this, db
      ensures Between(db) && old(db.trace) <= db.trace
      ensures rc == Ok ==> lock == requested && (requested == LOCK_SHARED ==> shared)
      ensures rc != Ok ==> lock == old(lock)
                            || (requested == LOCK_EXCLUSIVE && LOCK_NONE < old(lock) && lock == LOCK_PENDING)
      ensures rc == Busy && old(shared) ==> shared
      ensures Justified(old(db.trace), db.trace, rc, Needs(requested, lock))
    {
      hide Led, After, Overlap, WasObstructed, CheckFailed;
      if lock == LOCK_NONE {
        pc := AcquirePending;
        rc := LockShared(db);
      } else if requested == LOCK_RESERVED {
        pc := AcquireReserved;
        rc := LockReserved(db);
      } else {
        pc := if !pending then AcquirePendingExclusive else if shared then DropShared else AcquireSharedExclusive;
        rc := LockExclusive(db);
      }
    }

    method FUnlock(db: Database, requested: int) returns (rc: Rc)
      requires Between(db)
      modifies this, db
      ensures Between(db) && old(db.trace) < db.trace
      ensures requested != LOCK_NONE && requested != LOCK_SHARED ==>
        rc == IoErrUnlock && lock == old(lock) && shared == old(shared)
      ensures LOCK_NONE <= requested <= LOCK_SHARED ==> lock == if old(lock) <= requested then old(lock) else requested
      // Going down to NONE always succeeds and leaves no byte locked.
      ensures requested == LOCK_NONE ==> rc == Ok && id in db.table && db.table[id] == multiset{}
      // Going down to SHARED keeps the read lock, unless the check fails while it is taken back.
      ensures requested == LOCK_SHARED < old(lock) ==>
        (shared <==> if old(lock) == LOCK_EXCLUSIVE then rc == Ok else old(shared)) && !reserved && !pending
      ensures requested == LOCK_SHARED && rc != Ok ==>
        rc == IoErrLock && old(lock) == LOCK_EXCLUSIVE && CheckFailed(old(db.trace), db.trace, id)
      // A call that has nothing to give up leaves everything.
      ensures old(lock) <= requested ==> shared == old(shared) && reserved == old(reserved) && pending == old(pending)
    {
      hide Led, After, Overlap, UnlockRest, CheckFailed, WasObstructed;
      rc := Ok;
      IdleFlags(db.trace, db.others, db.table, id, State());
      Call(db, CallUnlock(id, requested), BeginUnlock(State(), requested));
      ghost var called := db.trace;
      if requested != LOCK_NONE && requested != LOCK_SHARED {
        rc, ret := IoErrUnlock, IoErrUnlock;
      } else if lock <= requested {
        ret := rc;
      } else if lock == LOCK_EXCLUSIVE {
        rc := UnlockFromExclusive(db, requested);
      } else {
        rc := ReleaseRest(db, requested, rc);
      }
      Extends(old(db.trace), called, db.trace);
      PartOfCall(old(db.trace), called, db.trace, db.trace, id);
      IdleFlags(db.trace, db.others, db.table, id, State());
    }

    method UnlockFromExclusive(db: Database, requested: int) returns (rc: Rc)
      requires LOCK_NONE <= requested <= LOCK_SHARED && lock == LOCK_EXCLUSIVE && !shared
      requires Led(db.trace, db.others, db.table, id, State().(pc := UnlockExclusive(requested)))
      modifies this, db
      ensures Between(db) && old(db.trace) <= db.trace
      ensures lock == requested && !reserved && !pending
      ensures requested == LOCK_NONE ==> rc == Ok
      ensures requested == LOCK_SHARED ==> rc != Busy && (shared <==> rc == Ok)
      ensures rc != Ok ==> rc == IoErrLock && CheckFailed(old(db.trace), db.trace, id)
    {
      hide Led, Overlap, UnlockRest, CheckFailed, WasObstructed;
      pc := UnlockExclusive(requested);
      var gone := db.CiUnlock(this, SHARED_RANGE);
      ghost var given := db.trace;
      rc := gone;
      if gone == Ok && requested == LOCK_SHARED {
        pc := Downgrade;
        rc := db.CiLock(this, SHARED_RANGE, false);
        if rc == Ok { shared := true; }
      }
      ghost var taken := db.trace;
      if gone == Ok { rc := ReleaseRest(db, requested, rc); }
      PartOfCall(old(db.trace), given, taken, db.trace, id);
    }

    method ReleaseRest(db: Database, requested: int, first: Rc) returns (rc: Rc)
      requires LOCK_NONE <= requested <= LOCK_SHARED
      requires Led(db.trace, db.others, db.table, id, UnlockRest(State(), requested, first))
      modifies this, db
      ensures Between(db) && old(db.trace) <= db.trace && rc == first
      ensures lock == requested && !reserved && !pending
      ensures shared <==> old(shared) && requested == LOCK_SHARED
    {
      hide Led, Overlap;
      rc := first;
      if shared && requested == LOCK_NONE {
        pc := UnlockShared(rc);
        var other := db.CiUnlock(this, SHARED_RANGE);
        rc := if rc == Ok then other else rc;
        shared := false;
      }
      rc := ReleaseFlags(db, requested, rc);
    }

    method ReleaseFlags(db: Database, requested: int, first: Rc) returns (rc: Rc)
      requires LOCK_NONE <= requested <= LOCK_SHARED
      requires Led(db.trace, db.others, db.table, id, UnlockFlags(State(), requested, first))
      modifies this, db
      ensures Between(db) && old(db.trace) <= db.trace && rc == first
      ensures lock == requested && !reserved && !pending && shared == old(shared)
    {
      hide Led, Overlap;
      rc := first;
      if reserved {
        pc := UnlockReserved(requested, rc);
        var other := db.CiUnlock(this, RESERVED_RANGE);
        rc := if rc == Ok then other else rc;
        reserved := false;
      }
      rc := ReleasePendingByte(db, requested, rc);
    }

    method ReleasePendingByte(db: Database, requested: int, first: Rc) returns (rc: Rc)
      requires LOCK_NONE <= requested <= LOCK_SHARED && !reserved
      requires Led(db.trace, db.others, db.table, id, UnlockFlags(State(), requested, first))
      modifies this, db
      ensures Between(db) && old(db.trace) <= db.trace && rc == first
      ensures lock == requested && !reserved && !pending && shared == old(shared)
    {
      hide Led, Overlap;
      rc := first;
      if pending {
        pc := UnlockPending(requested, rc);
        var other := db.CiUnlock(this, PENDING_RANGE);
        rc := if rc == Ok then other else rc;
        pending := false;
      }
      lock, pc, ret := requested, Idle, rc;
    }
  
    /** Does anyone stand at RESERVED or above? */
    method FReserved(db: Database) returns (rc: Rc, answer: bool)
      requires Between(db)
      modifies this, db
      ensures Between(db) && old(db.trace) < db.trace
      ensures lock == old(lock) && shared == old(shared) && reserved == old(reserved) && pending == old(pending)
      ensures rc == Ok || (rc == IoErrCheckReserved && CheckFailed(old(db.trace), db.trace, id))
      ensures old(lock) >= LOCK_RESERVED && rc == Ok ==> answer
      // Otherwise the answer was right at one moment of the call.
      ensures old(lock) < LOCK_RESERVED && rc == Ok ==>
        exists moment :: old(db.trace) <= moment <= db.trace && (answer <==> ReservedByOther(moment, id))
    {
      hide Led, After, Overlap, Refused, Exec, CheckFailed, WasObstructed, ReservedByOther;
      answer := false;
      var check: bool := *;
      IdleFlags(db.trace, db.others, db.table, id, State());
      Call(db, CallReserved(id, check), BeginReserved(State(), check));
      ghost var called := db.trace;
      FailedAtOnce(old(db.trace), CallReserved(id, check));
      if !check {
        rc, ret, out := IoErrCheckReserved, IoErrCheckReserved, false;
      } else if lock >= LOCK_RESERVED {
        rc, answer, ret, out := Ok, true, Ok, true;
      } else {
        pc, out := ProbeReserved, false;
        rc, answer := Probe(db);
      }
      Extends(old(db.trace), called, db.trace);
      PartOfCall(old(db.trace), called, db.trace, db.trace, id);
      PartOfCall(old(db.trace), old(db.trace), called, db.trace, id);
    }

    method Probe(db: Database) returns (rc: Rc, answer: bool)
      requires db.Valid(this) && pc == ProbeReserved && !out
      modifies this, db
      ensures Between(db) && old(db.trace) <= db.trace
      ensures lock == old(lock) && shared == old(shared) && reserved == old(reserved) && pending == old(pending)
      ensures rc == Ok || (rc == IoErrCheckReserved && CheckFailed(old(db.trace), db.trace, id))
      ensures rc == Ok ==>
        exists moment :: old(db.trace) <= moment <= db.trace && (answer <==> ReservedByOther(moment, id))
    {
      hide Led, Overlap, UnlockRest, UnlockFlags, Refused, Exec, ReservedByOther, CheckFailed;
      ghost var moment;
      rc, moment := db.CiLockAt(this, RESERVED_RANGE, true);
      answer := rc == Busy;
      ProbeSeesReserved(moment, id);
      ghost var probed := db.trace;
      if rc == Busy {
        out, rc := true, Ok;
      } else if rc != Ok {
        rc := IoErrCheckReserved;
      } else {
        pc := ReleaseProbe;
        rc := db.CiUnlock(this, RESERVED_RANGE);
        Extends(moment, probed, db.trace);
      }
      pc, ret := Idle, rc;
    }

    /** A fresh handle on the file, as vOpen makes one. */
    constructor (db: Database, id: Id, readonly: bool)
      requires World(db.others, db.table) == Exec(EMPTY, db.trace) && id !in db.others && id !in db.table
      modifies db
      ensures Between(db) && old(db.trace) < db.trace && this.id == id && lock == LOCK_NONE
    {
      this.id, this.readonly := id, readonly;
      lock, shared, reserved, pending := LOCK_NONE, false, false, false;
      pc, ret, out := Idle, Ok, false;
      new;
      ExecStep(db.trace, Open(id, readonly));
      db.table := db.table[id := multiset{}];
      db.trace := db.trace + [Open(id, readonly)];
    }

    /** fClose: the other handles may go on meanwhile, and then this one is gone. */
    method FClose(db: Database) returns (rc: Rc)
      requires Between(db)
      modifies this, db
      ensures rc == Ok && old(db.trace) < db.trace
      ensures World(db.others, db.table) == Exec(EMPTY, db.trace) && id !in db.others && id !in db.table
    {
      rc := FUnlock(db, LOCK_NONE);
      ghost var unlocked := db.trace;
      db.Interfere(this);
      hide Apply, After;
      CloseMine(db.trace, db.others, db.table, id, State());
      db.table := db.table - {id};
      db.trace := db.trace + [Close(id)];
      Extends(old(db.trace), unlocked, db.trace);
    }
  }

  lemma CloseMine(trace: seq<Action>, others: map<Id, Handle>, t: Table, id: Id, h: Handle)
    requires Led(trace, others, t, id, h)
    ensures Exec(EMPTY, trace + [Close(id)]) == World(others, t - {id})
  {
    hide Exec, Inv;
    MyTable(trace, others, t, id, h);
    ExecStep(trace, Close(id));
    assert others[id := h] - {id} == others;
  }

  lemma MyTable(trace: seq<Action>, others: map<Id, Handle>, t: Table, id: Id, h: Handle)
    requires Led(trace, others, t, id, h)
    ensures id in t
  {
    ReachableInv(trace);
  }

  ghost predicate ReservedByOther(trace: seq<Action>, id: Id) {
    exists o :: o != id && o in Exec(EMPTY, trace).handles && Owned(Exec(EMPTY, trace).handles[o]).reserved
  }

  /** The probe of fReserved is refused exactly while another handle holds RESERVED. */
  lemma ProbeSeesReserved(trace: seq<Action>, id: Id)
    requires var w := Exec(EMPTY, trace); id in w.handles && w.handles[id].pc == ProbeReserved
    ensures Refused(Exec(EMPTY, trace).table, Held(RESERVED_RANGE, true)) <==> ReservedByOther(trace, id)
  {
    var w, want := Exec(EMPTY, trace), Held(RESERVED_RANGE, true);
    ReachableInv(trace);
    forall o, e | o in w.table && e in w.table[o] && Clash(e, want)
      ensures o != id && Owned(w.handles[o]).reserved
    {
      LocksOnReserved(w.handles[o], w.table[o], e);
    }
    if ReservedByOther(trace, id) {
      var o :| o != id && o in w.handles && Owned(w.handles[o]).reserved;
      LocksOnReserved(w.handles[o], w.table[o], want);
      assert want in w.table[o] && Clash(want, want);
    }
  }

  lemma LocksOnReserved(h: Handle, locks: multiset<Held>, e: Held)
    requires Sound(h, locks)
    ensures e in locks && Overlap(e.range, RESERVED_RANGE) ==> Owned(h).reserved && h.pc != ProbeReserved
    ensures Owned(h).reserved ==> Held(RESERVED_RANGE, true) in locks
  {
    assert locks[e] == Owned(h).Count(e);
    assert locks[Held(RESERVED_RANGE, true)] == Owned(h).Count(Held(RESERVED_RANGE, true));
  }
}
