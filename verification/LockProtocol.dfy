/** The five SQLite lock levels built from three byte ranges, by any number of
    handles that interleave at every operating-system lock call. */
module LockProtocol {
  import opened ByteLocks

  // The byte layout and the levels.
  const PENDING_BYTE: nat := 0x40000000
  const RESERVED_BYTE: nat := PENDING_BYTE + 1
  const SHARED_FIRST: nat := PENDING_BYTE + 2
  const SHARED_SIZE: nat := 510
  const PENDING_RANGE := Range(PENDING_BYTE, 1)
  const RESERVED_RANGE := Range(RESERVED_BYTE, 1)
  const SHARED_RANGE := Range(SHARED_FIRST, SHARED_SIZE)

  const LOCK_NONE := 0
  const LOCK_SHARED := 1
  const LOCK_RESERVED := 2
  const LOCK_PENDING := 3
  const LOCK_EXCLUSIVE := 4

  datatype Rc = Ok | Busy | IoErrLock | IoErrUnlock | IoErrCheckReserved | ReadOnly

  /** Where a handle stands: between calls, or just before one of the
      lock or unlock calls of the source. */
  datatype Pc =
    | Idle
    | AcquirePending              // NONE to SHARED: shared PENDING
    | AcquireShared               // NONE to SHARED: shared SHARED
    | ReleasePending(shared: Rc)  // NONE to SHARED: give PENDING back
    | AcquireReserved
    | AcquirePendingExclusive
    | DropShared
    | AcquireSharedExclusive
    | RestoreShared(refused: Rc)
    | UnlockExclusive(target: int)
    | Downgrade
    | UnlockShared(first: Rc)
    | UnlockReserved(goal: int, firstRc: Rc)
    | UnlockPending(goal: int, firstRc: Rc)
    | ProbeReserved
    | ReleaseProbe

  /** One CheckedFile: its fields, the result of the last finished call, and
      the answer the last fReserved stored. */
  datatype Handle = Handle(
    readonly: bool, lock: int, shared: bool, reserved: bool, pending: bool,
    pc: Pc, ret: Rc, out: bool)

  datatype World = World(handles: map<Id, Handle>, table: Table)

  datatype Call = LockCall(want: Held) | UnlockCall(range: Range)

  function CallAt(pc: Pc): Call
    requires pc != Idle
  {
    match pc
    case AcquirePending => LockCall(Held(PENDING_RANGE, false))
    case AcquireShared => LockCall(Held(SHARED_RANGE, false))
    case ReleasePending(_) => UnlockCall(PENDING_RANGE)
    case AcquireReserved => LockCall(Held(RESERVED_RANGE, true))
    case AcquirePendingExclusive => LockCall(Held(PENDING_RANGE, true))
    case DropShared => UnlockCall(SHARED_RANGE)
    case AcquireSharedExclusive => LockCall(Held(SHARED_RANGE, true))
    case RestoreShared(_) => LockCall(Held(SHARED_RANGE, false))
    case UnlockExclusive(_) => UnlockCall(SHARED_RANGE)
    case Downgrade => LockCall(Held(SHARED_RANGE, false))
    case UnlockShared(_) => UnlockCall(SHARED_RANGE)
    case UnlockReserved(_, _) => UnlockCall(RESERVED_RANGE)
    case UnlockPending(_, _) => UnlockCall(PENDING_RANGE)
    case ProbeReserved => LockCall(Held(RESERVED_RANGE, true))
    case ReleaseProbe => UnlockCall(RESERVED_RANGE)
  }

  // ---------------------------------------------------------------- the calls

  function Return(h: Handle, rc: Rc): Handle {
    h.(pc := Idle, ret := rc)
  }

  /** fLock up to its first byte-lock call. */
  function BeginLock(h: Handle, requested: int, check: bool): Handle {
    if !check then Return(h, IoErrLock)
    else if requested <= h.lock then Return(h, Ok)
    else if requested != LOCK_SHARED && requested != LOCK_RESERVED && requested != LOCK_EXCLUSIVE then
      Return(h, IoErrLock)
    else if h.readonly && requested > LOCK_SHARED then Return(h, ReadOnly)
    else if h.lock == LOCK_NONE then
      if requested != LOCK_SHARED then Return(h, IoErrLock) else h.(pc := AcquirePending)
    else if requested == LOCK_RESERVED then h.(pc := AcquireReserved)
    else if !h.pending then h.(pc := AcquirePendingExclusive)
    else AfterPending(h)
  }

  function AfterPending(h: Handle): Handle {
    h.(pc := if h.shared then DropShared else AcquireSharedExclusive)
  }

  /** fUnlock up to its first byte-lock call. */
  function BeginUnlock(h: Handle, requested: int): Handle {
    if requested != LOCK_NONE && requested != LOCK_SHARED then Return(h, IoErrUnlock)
    else if h.lock <= requested then Return(h, Ok)
    else if h.lock == LOCK_EXCLUSIVE then h.(pc := UnlockExclusive(requested))
    else UnlockRest(h, requested, Ok)
  }

  function UnlockRest(h: Handle, requested: int, rc: Rc): Handle {
    if h.shared && requested == LOCK_NONE then h.(pc := UnlockShared(rc))
    else UnlockFlags(h, requested, rc)
  }

  function UnlockFlags(h: Handle, requested: int, rc: Rc): Handle {
    if h.reserved then h.(pc := UnlockReserved(requested, rc))
    else if h.pending then h.(pc := UnlockPending(requested, rc))
    else Return(h.(lock := requested), rc)
  }

  /** fReserved up to its first byte-lock call. */
  function BeginReserved(h: Handle, check: bool): Handle {
    if !check then Return(h.(out := false), IoErrCheckReserved)
    else if h.lock >= LOCK_RESERVED then Return(h.(out := true), Ok)
    else h.(out := false, pc := ProbeReserved)
  }

  function First(a: Rc, b: Rc): Rc {
    if a == Ok then b else a
  }

  /** What the call does with the result of the byte-lock call it stood at,
      up to the next one. */
  function After(h: Handle, rc: Rc): Handle
    requires h.pc != Idle
  {
    match h.pc
    case AcquirePending => if rc != Ok then Return(h, rc) else h.(pc := AcquireShared)
    case AcquireShared => h.(pc := ReleasePending(rc))
    case ReleasePending(got) =>
      var h1 := if got == Ok then h.(shared := true, lock := LOCK_SHARED) else h;
      Return(h1, if rc == Ok then got else rc)
    case AcquireReserved =>
      Return(if rc == Ok then h.(reserved := true, lock := LOCK_RESERVED) else h, rc)
    case AcquirePendingExclusive =>
      if rc != Ok then Return(h, rc) else AfterPending(h.(pending := true, lock := LOCK_PENDING))
    case DropShared =>
      if rc != Ok then Return(h, rc) else h.(shared := false, pc := AcquireSharedExclusive)
    case AcquireSharedExclusive =>
      if rc == Ok then Return(h.(lock := LOCK_EXCLUSIVE), Ok) else h.(pc := RestoreShared(rc))
    case RestoreShared(refused) =>
      if rc != Ok then Return(h, IoErrLock) else Return(h.(shared := true), refused)
    case UnlockExclusive(target) =>
      if rc != Ok then Return(h, rc)
      else if target == LOCK_SHARED then h.(pc := Downgrade)
      else UnlockRest(h, target, Ok)
    case Downgrade =>
      UnlockRest(if rc == Ok then h.(shared := true) else h, LOCK_SHARED, rc)
    case UnlockShared(first) => UnlockFlags(h.(shared := false), LOCK_NONE, First(first, rc))
    case UnlockReserved(goal, first) => UnlockFlags(h.(reserved := false), goal, First(first, rc))
    case UnlockPending(goal, first) => UnlockFlags(h.(pending := false), goal, First(first, rc))
    case ProbeReserved =>
      if rc == Busy then Return(h.(out := true), Ok)
      else if rc != Ok then Return(h, IoErrCheckReserved)
      else h.(pc := ReleaseProbe)
    case ReleaseProbe => Return(h, rc)
  }

  // ------------------------------------------------------------- the machine

  datatype Action =
    | Open(id: Id, readonly: bool)
    | CallLock(id: Id, requested: int, check: bool)
    | CallUnlock(id: Id, requested: int)
    | CallReserved(id: Id, check: bool)
    | Fire(id: Id, check: bool)     // the byte-lock call the handle stands at
    | Close(id: Id)                 // closing a handle, or its process dying, at any point

  /** ci_lock and ci_unlock: `check` is ci_check, consulted only to lock. */
  function Outcome(t: Table, id: Id, call: Call, check: bool): Rc
    requires id in t
  {
    match call
    case LockCall(want) => if !check then IoErrLock else if Refused(t, want) then Busy else Ok
    case UnlockCall(range) => if CanUnlock(t, id, range) then Ok else IoErrUnlock
  }

  function Effect(t: Table, id: Id, call: Call, check: bool): Table
    requires id in t
  {
    match call
    case LockCall(want) => if check then Lock(t, id, want) else t
    case UnlockCall(range) => Unlock(t, id, range)
  }

  const FRESH := Handle(false, LOCK_NONE, false, false, false, Idle, Ok, false)

  /** One step. An action that is not enabled changes nothing. */
  function Apply(w: World, a: Action): World {
    if a.Open? then
      if a.id in w.handles || a.id in w.table then w
      else World(w.handles[a.id := FRESH.(readonly := a.readonly)], w.table[a.id := multiset{}])
    else if a.id !in w.handles || a.id !in w.table then w
    else
      var h := w.handles[a.id];
      match a
      case CallLock(id, requested, check) =>
        if h.pc == Idle then w.(handles := w.handles[id := BeginLock(h, requested, check)]) else w
      case CallUnlock(id, requested) =>
        if h.pc == Idle then w.(handles := w.handles[id := BeginUnlock(h, requested)]) else w
      case CallReserved(id, check) =>
        if h.pc == Idle then w.(handles := w.handles[id := BeginReserved(h, check)]) else w
      case Fire(id, check) =>
        if h.pc == Idle then w
        else
          var call := CallAt(h.pc);
          World(w.handles[id := After(h, Outcome(w.table, id, call, check))],
                Effect(w.table, id, call, check))
      case Close(id) => World(w.handles - {id}, w.table - {id})
  }

  function Exec(w: World, acts: seq<Action>): World
    decreases |acts|
  {
    if acts == [] then w else Apply(Exec(w, acts[..|acts|-1]), acts[|acts|-1])
  }

  const EMPTY := World(map[], map[])

  // ----------------------------------------------------------- the invariant

  /** The byte locks of one handle: one bit for each lock the protocol takes. */
  datatype Locks = Locks(read: bool, write: bool, reserved: bool, pending: bool, admit: bool) {
    function Count(e: Held): nat {
      if e.range == SHARED_RANGE then if (if e.exclusive then write else read) then 1 else 0
      else if e.range == PENDING_RANGE then if (if e.exclusive then pending else admit) then 1 else 0
      else if e.range == RESERVED_RANGE && e.exclusive && reserved then 1 else 0
    }

    function With(e: Held, on: bool): Locks {
      if e == Held(SHARED_RANGE, false) then this.(read := on)
      else if e == Held(SHARED_RANGE, true) then this.(write := on)
      else if e == Held(RESERVED_RANGE, true) then this.(reserved := on)
      else if e == Held(PENDING_RANGE, true) then this.(pending := on)
      else if e == Held(PENDING_RANGE, false) then this.(admit := on)
      else this
    }
  }

  /** The byte locks a handle owns, read off its fields and its position. */
  function Owned(h: Handle): Locks {
    Locks(
      h.shared || (h.pc.ReleasePending? && h.pc.shared == Ok),
      HoldsExclusive(h),
      h.reserved || h.pc == ReleaseProbe,
      h.pending,
      h.pc == AcquireShared || h.pc.ReleasePending?)
  }

  ghost predicate Mirrors(locks: multiset<Held>, l: Locks) {
    forall e :: locks[e] == l.Count(e)
  }

  predicate HoldsExclusive(h: Handle) {
    h.lock == LOCK_EXCLUSIVE && (h.pc == Idle || h.pc.UnlockExclusive?)
  }

  /** How level, flags and position of one handle fit together. */
  predicate WellFormed(h: Handle) {
    && LOCK_NONE <= h.lock <= LOCK_EXCLUSIVE
    && match h.pc
       case Idle =>
         && (h.lock == LOCK_NONE ==> !h.shared)
         && (h.lock <= LOCK_SHARED ==> !h.reserved)
         && (h.lock == LOCK_RESERVED ==> h.reserved)
         && (h.pending <==> h.lock >= LOCK_PENDING)
         && (h.lock == LOCK_EXCLUSIVE ==> !h.shared)
       case AcquirePending => NoFlags(h) && h.lock == LOCK_NONE
       case AcquireShared => NoFlags(h) && h.lock == LOCK_NONE
       case ReleasePending(_) => NoFlags(h) && h.lock == LOCK_NONE
       case AcquireReserved => h.lock == LOCK_SHARED && !h.reserved && !h.pending
       case AcquirePendingExclusive =>
         LOCK_SHARED <= h.lock <= LOCK_RESERVED && !h.pending && (h.reserved <==> h.lock == LOCK_RESERVED)
       case DropShared => h.lock == LOCK_PENDING && h.pending && h.shared
       case AcquireSharedExclusive => h.lock == LOCK_PENDING && h.pending && !h.shared
       case RestoreShared(refused) => h.lock == LOCK_PENDING && h.pending && !h.shared && refused != Ok
       case UnlockExclusive(target) =>
         h.lock == LOCK_EXCLUSIVE && h.pending && !h.shared && LOCK_NONE <= target <= LOCK_SHARED
       case Downgrade => h.lock == LOCK_EXCLUSIVE && h.pending && !h.shared
       case UnlockShared(_) => LOCK_NONE < h.lock < LOCK_EXCLUSIVE && h.shared && (h.pending <==> h.lock == LOCK_PENDING)
       case UnlockReserved(goal, _) =>
         LOCK_NONE <= goal <= LOCK_SHARED && goal < h.lock && h.reserved && (goal == LOCK_NONE ==> !h.shared)
         && (h.pending <==> h.lock >= LOCK_PENDING)
       case UnlockPending(goal, _) =>
         LOCK_NONE <= goal <= LOCK_SHARED && h.lock >= LOCK_PENDING && h.pending && !h.reserved
         && (goal == LOCK_NONE ==> !h.shared)
       case ProbeReserved => Unreserved(h)
       case ReleaseProbe => Unreserved(h)
  }

  predicate NoFlags(h: Handle) {
    !h.shared && !h.reserved && !h.pending
  }

  predicate Unreserved(h: Handle) {
    h.lock <= LOCK_SHARED && !h.reserved && !h.pending && (h.lock == LOCK_NONE ==> !h.shared)
  }

  ghost predicate Sound(h: Handle, locks: multiset<Held>) {
    WellFormed(h) && Mirrors(locks, Owned(h))
  }

  ghost predicate Inv(w: World) {
    && w.handles.Keys == w.table.Keys
    && Compatible(w.table)
    && forall id | id in w.handles :: Sound(w.handles[id], w.table[id])
  }

  lemma BeginLockKeepsOwned(h: Handle, requested: int, check: bool)
    requires WellFormed(h) && h.pc == Idle
    ensures var h' := BeginLock(h, requested, check); WellFormed(h') && Owned(h') == Owned(h)
  {
  }

  lemma UnlockFlagsKeepsOwned(h: Handle, goal: int, rc: Rc)
    requires LOCK_NONE <= goal <= LOCK_SHARED && goal < h.lock <= LOCK_EXCLUSIVE
    requires goal == LOCK_NONE ==> !h.shared
    requires (h.pending ==> h.lock >= LOCK_PENDING) && (h.reserved && h.lock >= LOCK_PENDING ==> h.pending)
    ensures var h' := UnlockFlags(h, goal, rc);
      WellFormed(h') && Owned(h') == Locks(h.shared, false, h.reserved, h.pending, false)
  {
  }

  lemma UnlockRestKeepsOwned(h: Handle, goal: int, rc: Rc)
    requires LOCK_NONE <= goal <= LOCK_SHARED && goal < h.lock <= LOCK_EXCLUSIVE
    requires (h.pending <==> h.lock >= LOCK_PENDING) && (h.shared ==> h.lock != LOCK_EXCLUSIVE || goal != LOCK_NONE)
    ensures var h' := UnlockRest(h, goal, rc);
      WellFormed(h') && Owned(h') == Locks(h.shared, false, h.reserved, h.pending, false)
  {
    if !(h.shared && goal == LOCK_NONE) { UnlockFlagsKeepsOwned(h, goal, rc); }
  }

  lemma BeginUnlockKeepsOwned(h: Handle, requested: int)
    requires WellFormed(h) && h.pc == Idle
    ensures var h' := BeginUnlock(h, requested); WellFormed(h') && Owned(h') == Owned(h)
  {
    if LOCK_NONE <= requested <= LOCK_SHARED && requested < h.lock && h.lock != LOCK_EXCLUSIVE {
      UnlockRestKeepsOwned(h, requested, Ok);
    }
  }

  lemma BeginReservedKeepsOwned(h: Handle, check: bool)
    requires WellFormed(h) && h.pc == Idle
    ensures var h' := BeginReserved(h, check); WellFormed(h') && Owned(h') == Owned(h)
  {
  }

  /** The byte lock a call asks for or gives up. */
  function Subject(pc: Pc): Held
    requires pc != Idle
  {
    match CallAt(pc)
    case LockCall(want) => want
    case UnlockCall(range) =>
      Held(range, !(pc.DropShared? || pc.UnlockShared? || pc.ReleasePending?))
  }

  /** A call locks a byte range of which the handle holds nothing yet, and
      unlocks one it holds, in the mode it holds it. */
  lemma CallsFitOwned(h: Handle)
    requires WellFormed(h) && h.pc != Idle
    ensures var e := Subject(h.pc);
      if CallAt(h.pc).LockCall? then forall x: Held | Overlap(x.range, e.range) :: Owned(h).Count(x) == 0
      else Owned(h).Count(e) == 1 && Owned(h).Count(Held(e.range, !e.exclusive)) == 0
  {
  }

  lemma LockCallChangesOneLock(h: Handle, rc: Rc)
    requires WellFormed(h) && h.pc != Idle && CallAt(h.pc).LockCall?
    ensures WellFormed(After(h, rc))
    ensures Owned(After(h, rc)) == if rc == Ok then Owned(h).With(Subject(h.pc), true) else Owned(h)
  {
    if h.pc.Downgrade? {
      UnlockRestKeepsOwned(if rc == Ok then h.(shared := true) else h, LOCK_SHARED, rc);
    }
  }

  lemma UnlockTailChangesOneLock(h: Handle)
    requires WellFormed(h) && (h.pc.UnlockShared? || h.pc.UnlockReserved? || h.pc.UnlockPending?)
    ensures WellFormed(After(h, Ok))
    ensures Owned(After(h, Ok)) == Owned(h).With(Subject(h.pc), false)
  {
    if h.pc.UnlockShared? {
      UnlockFlagsKeepsOwned(h.(shared := false), LOCK_NONE, First(h.pc.first, Ok));
    } else if h.pc.UnlockReserved? {
      UnlockFlagsKeepsOwned(h.(reserved := false), h.pc.goal, First(h.pc.firstRc, Ok));
    } else {
      UnlockFlagsKeepsOwned(h.(pending := false), h.pc.goal, First(h.pc.firstRc, Ok));
    }
  }

  lemma UnlockCallChangesOneLock(h: Handle)
    requires WellFormed(h) && h.pc != Idle && CallAt(h.pc).UnlockCall?
    ensures WellFormed(After(h, Ok))
    ensures Owned(After(h, Ok)) == Owned(h).With(Subject(h.pc), false)
  {
    if h.pc.UnlockShared? || h.pc.UnlockReserved? || h.pc.UnlockPending? {
      UnlockTailChangesOneLock(h);
    } else if h.pc == UnlockExclusive(LOCK_NONE) {
      UnlockRestKeepsOwned(h, LOCK_NONE, Ok);
    }
  }

  predicate Used(e: Held) {
    e.range == SHARED_RANGE || e.range == PENDING_RANGE || e == Held(RESERVED_RANGE, true)
  }

  lemma MirrorsAdd(locks: multiset<Held>, l: Locks, e: Held)
    requires Mirrors(locks, l) && Used(e) && l.Count(e) == 0
    ensures Mirrors(locks + multiset{e}, l.With(e, true))
  {
  }

  lemma MirrorsRemove(locks: multiset<Held>, l: Locks, e: Held)
    requires Mirrors(locks, l) && Used(e) && l.Count(e) == 1
    ensures Mirrors(locks - multiset{e}, l.With(e, false))
  {
  }

  lemma FireKeepsOwned(t: Table, id: Id, h: Handle, check: bool)
    requires id in t && Sound(h, t[id]) && h.pc != Idle
    ensures var call := CallAt(h.pc);
      var rc := Outcome(t, id, call, check);
      (call.UnlockCall? ==> rc == Ok) && Sound(After(h, rc), Effect(t, id, call, check)[id])
  {
    var call, e := CallAt(h.pc), Subject(h.pc);
    var rc := Outcome(t, id, call, check);
    CallsFitOwned(h);
    if call.LockCall? {
      LockCallChangesOneLock(h, rc);
      MirrorsAdd(t[id], Owned(h), e);
    } else {
      UnlockCallChangesOneLock(h);
      assert t[id][e] == 1 && (Held(e.range, true) in t[id] <==> e.exclusive);
      MirrorsRemove(t[id], Owned(h), e);
    }
  }
}
