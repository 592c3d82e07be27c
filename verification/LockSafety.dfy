/** What the lock protocol keeps in every run, for any number of handles. */
module LockSafety {
  import opened ByteLocks
  import opened LockProtocol

  lemma PutKeepsInv(w: World, id: Id, h: Handle, t: Table)
    requires Inv(w) && id in w.handles && t.Keys == w.table.Keys
    requires forall x | x in t && x != id :: t[x] == w.table[x]
    requires Compatible(t) && Sound(h, t[id])
    ensures Inv(World(w.handles[id := h], t))
  {
    hide Sound, Compatible;
  }

  lemma ApplyKeepsInv(w: World, a: Action)
    requires Inv(w)
    ensures Inv(Apply(w, a))
  {
    hide Sound, BeginLock, BeginUnlock, BeginReserved, Compatible, After, CallAt;
    if a.Open? || a.Close? {
      OpenCloseKeepsInv(w, a);
    } else if a.id in w.handles {
      var h := w.handles[a.id];
      if a.Fire? && h.pc != Idle {
        FireKeepsInv(w, a.id, a.check);
      } else if !a.Fire? && h.pc == Idle {
        BeginKeepsSound(h, w.table[a.id], a);
        PutKeepsInv(w, a.id, Apply(w, a).handles[a.id], w.table);
      }
    }
  }

  lemma OpenCloseKeepsInv(w: World, a: Action)
    requires Inv(w) && (a.Open? || a.Close?)
    ensures Inv(Apply(w, a))
  {
    if a.Open? { OpenKeepsInv(w, a.id, a.readonly); } else { CloseKeepsInv(w, a.id); }
  }

  lemma OpenKeepsInv(w: World, id: Id, readonly: bool)
    requires Inv(w)
    ensures Inv(Apply(w, Open(id, readonly)))
  {
    hide WellFormed, Compatible, Owned;
    OpenIsWellFormed(readonly);
    NewKeepsCompatible(w.table, id);
    hide Sound;
  }

  lemma CloseKeepsInv(w: World, id: Id)
    requires Inv(w)
    ensures Inv(Apply(w, Close(id)))
  {
    hide Sound, Compatible;
    CloseKeepsCompatible(w.table, id);
  }

  lemma OpenIsWellFormed(readonly: bool)
    ensures Sound(FRESH.(readonly := readonly), multiset{})
  {
  }

  lemma BeginKeepsSound(h: Handle, locks: multiset<Held>, a: Action)
    requires Sound(h, locks) && h.pc == Idle
    ensures a.CallLock? ==> Sound(BeginLock(h, a.requested, a.check), locks)
    ensures a.CallUnlock? ==> Sound(BeginUnlock(h, a.requested), locks)
    ensures a.CallReserved? ==> Sound(BeginReserved(h, a.check), locks)
  {
    match a {
      case CallLock(_, requested, check) => BeginLockKeepsOwned(h, requested, check);
      case CallUnlock(_, requested) => BeginUnlockKeepsOwned(h, requested);
      case CallReserved(_, check) => BeginReservedKeepsOwned(h, check);
      case _ =>
    }
    hide BeginLock, BeginUnlock, BeginReserved, WellFormed, Owned;
  }

  lemma EffectIsLocal(t: Table, id: Id, call: Call, check: bool)
    requires id in t
    ensures Effect(t, id, call, check).Keys == t.Keys
    ensures forall x | x in t && x != id :: Effect(t, id, call, check)[x] == t[x]
  {
  }

  lemma FireKeepsInv(w: World, id: Id, check: bool)
    requires Inv(w) && id in w.handles && w.handles[id].pc != Idle
    ensures Inv(Apply(w, Fire(id, check)))
  {
    hide Sound, After, CallAt, Compatible, Lock, Unlock;
    var call := CallAt(w.handles[id].pc);
    FireKeepsOwned(w.table, id, w.handles[id], check);
    if call.LockCall? { LockKeepsCompatible(w.table, id, call.want); }
    else { UnlockKeepsCompatible(w.table, id, call.range); }
    EffectIsLocal(w.table, id, call, check);
    var w' := Apply(w, Fire(id, check));
    PutKeepsInv(w, id, w'.handles[id], w'.table);
  }

  lemma {:induction false} ExecKeepsInv(w: World, acts: seq<Action>)
    requires Inv(w)
    ensures Inv(Exec(w, acts))
    decreases |acts|
  {
    if acts != [] {
      ExecKeepsInv(w, acts[..|acts|-1]);
      ApplyKeepsInv(Exec(w, acts[..|acts|-1]), acts[|acts|-1]);
    }
  }

  lemma ReachableInv(acts: seq<Action>)
    ensures Inv(Exec(EMPTY, acts))
  {
    ExecKeepsInv(EMPTY, acts);
  }

  lemma {:induction false} ExecSplit(w: World, a: seq<Action>, b: seq<Action>)
    ensures Exec(w, a + b) == Exec(Exec(w, a), b)
    decreases |b|
  {
    if b == [] {
      assert a + b == a;
    } else {
      ExecSplit(w, a, b[..|b|-1]);
      assert (a + b)[..|a + b|-1] == a + b[..|b|-1];
    }
  }

  // ------------------------------------------------------- mutual exclusion

  predicate Touches(w: World, id: Id, range: Range)
    requires id in w.table
  {
    exists e | e in w.table[id] :: Overlap(e.range, range)
  }

  /** While one handle is EXCLUSIVE no other holds any byte of the SHARED range. */
  lemma ExclusiveExcludes(acts: seq<Action>, a: Id, b: Id)
    requires var w := Exec(EMPTY, acts);
      a != b && a in w.handles && b in w.table && HoldsExclusive(w.handles[a])
    ensures !Touches(Exec(EMPTY, acts), b, SHARED_RANGE)
  {
    var w := Exec(EMPTY, acts);
    ReachableInv(acts);
    var x := Held(SHARED_RANGE, true);
    assert w.table[a][x] == 1;
    forall e | e in w.table[b] ensures !Overlap(e.range, SHARED_RANGE) {
      assert !Clash(e, x);
    }
  }

  /** At most one handle stands at PENDING or above, at every point of every call. */
  lemma OnePending(acts: seq<Action>, a: Id, b: Id)
    requires var w := Exec(EMPTY, acts);
      a in w.handles && b in w.handles
      && w.handles[a].lock >= LOCK_PENDING && w.handles[b].lock >= LOCK_PENDING
    ensures a == b
  {
    var w := Exec(EMPTY, acts);
    ReachableInv(acts);
    PendingFromLevel(w.handles[a]);
    PendingFromLevel(w.handles[b]);
    PendingIsUnique(w, a, b);
  }

  lemma PendingFromLevel(h: Handle)
    requires WellFormed(h)
    ensures h.pending <==> h.lock >= LOCK_PENDING
  {
  }

  lemma PendingIsUnique(w: World, a: Id, b: Id)
    requires Inv(w) && a in w.handles && b in w.handles && w.handles[a].pending && w.handles[b].pending
    ensures a == b
  {
    hide WellFormed;
    var x := Held(PENDING_RANGE, true);
    assert Owned(w.handles[a]).Count(x) == 1 && Owned(w.handles[b]).Count(x) == 1;
    assert x in w.table[a] && x in w.table[b] && Clash(x, x);
  }

  ghost predicate HoldsReserved(w: World, id: Id) {
    id in w.table && Held(RESERVED_RANGE, true) in w.table[id]
  }

  /** At most one handle holds the RESERVED byte, a probing fReserved included; and
      who holds it is who has taken it, at RESERVED or above or for the probe. */
  lemma OneReserved(acts: seq<Action>, a: Id, b: Id)
    requires var w := Exec(EMPTY, acts); HoldsReserved(w, a) && HoldsReserved(w, b)
    ensures a == b
    ensures var w := Exec(EMPTY, acts); forall o | o in w.handles :: HoldsReserved(w, o) <==> Owned(w.handles[o]).reserved
  {
    var w := Exec(EMPTY, acts);
    ReachableInv(acts);
    hide Exec, WellFormed, Owned;
    var x := Held(RESERVED_RANGE, true);
    assert x in w.table[a] && x in w.table[b] && Clash(x, x);
    forall o | o in w.handles ensures HoldsReserved(w, o) <==> Owned(w.handles[o]).reserved {
      assert w.table[o][x] == Owned(w.handles[o]).Count(x);
    }
  }

  /** The byte locks of a handle between calls. */
  function Bytes(read: bool, write: bool, reserved: bool, pending: bool): multiset<Held> {
    (if read then multiset{Held(SHARED_RANGE, false)} else multiset{})
    + (if write then multiset{Held(SHARED_RANGE, true)} else multiset{})
    + (if reserved then multiset{Held(RESERVED_RANGE, true)} else multiset{})
    + (if pending then multiset{Held(PENDING_RANGE, true)} else multiset{})
  }

  /** Between calls the flags and the level say exactly which byte locks the
      handle holds, each held once; at NONE it holds nothing. */
  lemma FlagsMirrorTable(acts: seq<Action>, id: Id)
    requires var w := Exec(EMPTY, acts); id in w.handles && w.handles[id].pc == Idle
    ensures var w := Exec(EMPTY, acts);
      var h := w.handles[id];
      id in w.table
      && w.table[id] == Bytes(h.shared, h.lock == LOCK_EXCLUSIVE, h.reserved, h.pending)
      && (h.lock == LOCK_NONE ==> w.table[id] == multiset{})
  {
    ReachableInv(acts);
    hide Compatible, WellFormed;
    IdleLocks(Exec(EMPTY, acts).handles[id], Exec(EMPTY, acts).table[id]);
  }

  lemma IdleLocks(h: Handle, locks: multiset<Held>)
    requires Sound(h, locks) && h.pc == Idle
    ensures locks == Bytes(h.shared, h.lock == LOCK_EXCLUSIVE, h.reserved, h.pending)
    ensures h.lock == LOCK_NONE ==> locks == multiset{}
  {
    var l := Owned(h);
    assert l == Locks(h.shared, h.lock == LOCK_EXCLUSIVE, h.reserved, h.pending, false);
    assert h.lock == LOCK_NONE ==> l == Locks(false, false, false, false, false);
    hide WellFormed, Owned;
    var bytes := Bytes(h.shared, h.lock == LOCK_EXCLUSIVE, h.reserved, h.pending);
    forall e ensures locks[e] == bytes[e] {
      BytesCount(h.shared, h.lock == LOCK_EXCLUSIVE, h.reserved, h.pending, e);
    }
    hide Bytes;
    assert locks == bytes;
    assert h.lock == LOCK_NONE ==> bytes == multiset{} by { NoBytes(); }
  }

  lemma BytesCount(read: bool, write: bool, reserved: bool, pending: bool, e: Held)
    ensures Bytes(read, write, reserved, pending)[e] == Locks(read, write, reserved, pending, false).Count(e)
  {
  }

  lemma NoBytes()
    ensures Bytes(false, false, false, false) == multiset{}
  {
  }

  /** No call ever asks for bytes its own handle already holds, so nothing
      stacks, and every unlock is of a range the handle holds, so none fails. */
  lemma CallsAreSound(acts: seq<Action>, id: Id)
    requires var w := Exec(EMPTY, acts); id in w.handles && w.handles[id].pc != Idle
    ensures var w := Exec(EMPTY, acts);
      id in w.table
      && match CallAt(w.handles[id].pc)
         case LockCall(want) => !Touches(w, id, want.range)
         case UnlockCall(range) => CanUnlock(w.table, id, range)
  {
    var w := Exec(EMPTY, acts);
    ReachableInv(acts);
    CallsFitOwned(w.handles[id]);
    var e := Subject(w.handles[id].pc);
    assert w.table[id][e] == Owned(w.handles[id]).Count(e);
  }

  // ------------------------------------------- readers drain behind PENDING

  const READ := Held(SHARED_RANGE, false)

  ghost predicate Reads(w: World, id: Id) {
    id in w.table && READ in w.table[id]
  }

  /** What the steps of other handles leave alone while `p` holds PENDING. */
  ghost predicate Drains(w: World, w': World, p: Id) {
    && p in w.handles && p in w.table && p in w'.handles && p in w'.table
    && w'.handles[p] == w.handles[p] && w'.table[p] == w.table[p]
    && forall id :: Reads(w', id) ==> Reads(w, id)
  }

  /** Whoever asks to read holds PENDING, one way or the other, while it asks. */
  lemma ReadCallHoldsPending(h: Handle, locks: multiset<Held>)
    requires Sound(h, locks) && h.pc != Idle && CallAt(h.pc) == LockCall(READ)
    ensures Held(PENDING_RANGE, h.pc != AcquireShared) in locks
  {
    assert Owned(h).Count(Held(PENDING_RANGE, h.pc != AcquireShared)) == 1;
  }

  /** A step of one handle leaves the fields and the locks of the others alone. */
  lemma StepIsLocal(w: World, a: Action, id: Id)
    requires Inv(w) && id != a.id
    ensures id in w.handles <==> id in Apply(w, a).handles
    ensures id in w.table <==> id in Apply(w, a).table
    ensures id in w.handles ==> Apply(w, a).handles[id] == w.handles[id]
    ensures id in w.table ==> Apply(w, a).table[id] == w.table[id]
  {
    hide Inv, BeginLock, BeginUnlock, BeginReserved, After, CallAt, Outcome, Effect;
    if a.Fire? && a.id in w.handles && a.id in w.table && w.handles[a.id].pc != Idle {
      EffectIsLocal(w.table, a.id, CallAt(w.handles[a.id].pc), a.check);
    }
  }

  lemma StepDrains(w: World, a: Action, p: Id)
    requires Inv(w) && p in w.handles && w.handles[p].pending && a.id != p
    ensures Drains(w, Apply(w, a), p)
  {
    hide Apply, Sound, Compatible;
    var w' := Apply(w, a);
    StepIsLocal(w, a, p);
    forall id | Reads(w', id) ensures Reads(w, id) {
      if id == a.id { NoNewReader(w, a, p); } else { StepIsLocal(w, a, id); }
    }
  }

  lemma NewReadIsAsked(t: Table, id: Id, call: Call, check: bool)
    requires id in t && READ in Effect(t, id, call, check)[id]
    ensures READ in t[id] || call == LockCall(READ)
  {
  }

  lemma NoNewReader(w: World, a: Action, p: Id)
    requires Inv(w) && p in w.handles && w.handles[p].pending && a.id != p
    requires Reads(Apply(w, a), a.id)
    ensures Reads(w, a.id)
  {
    hide WellFormed, BeginLock, BeginUnlock, BeginReserved, After, CallAt, Lock, Unlock, Effect, Compatible;
    if !Reads(w, a.id) && a.Fire? && a.id in w.handles {
      var h := w.handles[a.id];
      NewReadIsAsked(w.table, a.id, CallAt(h.pc), a.check);
      ReadCallHoldsPending(h, w.table[a.id]);
      HoldsItsPending(w.handles[p], w.table[p]);
      var x, y := Held(PENDING_RANGE, true), Held(PENDING_RANGE, h.pc != AcquireShared);
      NoClash(w.table, p, a.id, x, y);
    }
  }

  lemma NoClash(t: Table, a: Id, b: Id, x: Held, y: Held)
    requires Compatible(t) && a in t && b in t && a != b && x in t[a] && y in t[b]
    ensures !Clash(x, y)
  {
  }

  lemma HoldsItsPending(h: Handle, locks: multiset<Held>)
    requires Sound(h, locks) && h.pending
    ensures Held(PENDING_RANGE, true) in locks
  {
    hide WellFormed;
    assert Owned(h).Count(Held(PENDING_RANGE, true)) == 1;
  }

  /** While a handle holds PENDING the set of readers only shrinks, whatever
      any number of other handles do. */
  lemma {:induction false} ReadersDrain(w: World, others: seq<Action>, p: Id)
    requires Inv(w) && p in w.handles && w.handles[p].pending
    requires forall a | a in others :: a.id != p
    ensures Drains(w, Exec(w, others), p)
    decreases |others|
  {
    if others != [] {
      var first, last := others[..|others|-1], others[|others|-1];
      ReadersDrain(w, first, p);
      ExecKeepsInv(w, first);
      assert last in others;
      StepDrains(Exec(w, first), last, p);
    }
  }

  /** Under PENDING a handle's own request for SHARED is refused only by readers,
      and a shared request is refused by nobody. */
  lemma RefusalUnderPending(w: World, p: Id, exclusive: bool)
    requires Inv(w) && p in w.handles && w.handles[p].pending
    requires w.handles[p].pc != Idle && CallAt(w.handles[p].pc) == LockCall(Held(SHARED_RANGE, exclusive))
    ensures Refused(w.table, Held(SHARED_RANGE, exclusive)) <==> exclusive && exists id :: Reads(w, id)
  {
    hide Inv, CallAt;
    var want := Held(SHARED_RANGE, exclusive);
    forall id, e | id in w.table && e in w.table[id] && Clash(e, want)
      ensures exclusive && Reads(w, id)
    {
      OnlyReadsOnShared(w, p, id, e);
    }
    if exclusive && exists id :: Reads(w, id) {
      var id :| Reads(w, id);
      assert READ in w.table[id] && Clash(READ, want);
    }
  }

  lemma OnlyReadsOnShared(w: World, p: Id, id: Id, e: Held)
    requires Inv(w) && p in w.handles && w.handles[p].pending && id in w.table
    requires w.handles[p].pc != Idle && CallAt(w.handles[p].pc).LockCall?
    requires CallAt(w.handles[p].pc).want.range == SHARED_RANGE
    requires e in w.table[id] && Overlap(e.range, SHARED_RANGE)
    ensures e == READ
  {
    hide WellFormed, CallAt, Compatible;
    LocksOnShared(w.handles[id], w.table[id], e);
    if e.exclusive {
      PendingIsUnique(w, id, p);
      CallsFitOwned(w.handles[p]);
    }
  }

  lemma LocksOnShared(h: Handle, locks: multiset<Held>, e: Held)
    requires Sound(h, locks) && e in locks && Overlap(e.range, SHARED_RANGE)
    ensures e.range == SHARED_RANGE && (e.exclusive ==> h.pending) && Owned(h).Count(e) > 0
  {
  }

  /** Re-taking the read lock, after a refused upgrade or in the downgrade from
      EXCLUSIVE, succeeds whatever the other handles do in between, unless
      ci_check fails. */
  lemma RelockNeverRefused(acts: seq<Action>, others: seq<Action>, id: Id, check: bool)
    requires var w := Exec(EMPTY, acts);
      id in w.handles && (w.handles[id].pc.RestoreShared? || w.handles[id].pc == Downgrade)
    requires forall a | a in others :: a.id != id
    ensures var w := Exec(EMPTY, acts + others);
      id in w.handles && id in w.table && w.handles[id] == Exec(EMPTY, acts).handles[id]
      && Outcome(w.table, id, CallAt(w.handles[id].pc), check) == if check then Ok else IoErrLock
  {
    var w := Exec(EMPTY, acts);
    ReachableInv(acts);
    ReadersDrain(w, others, id);
    ExecSplit(EMPTY, acts, others);
    ReachableInv(acts + others);
    RefusalUnderPending(Exec(EMPTY, acts + others), id, false);
  }

  /** The upgrade to EXCLUSIVE is refused exactly while some handle still reads. */
  lemma UpgradeWaitsForReaders(acts: seq<Action>, id: Id, check: bool)
    requires var w := Exec(EMPTY, acts); id in w.handles && w.handles[id].pc == AcquireSharedExclusive
    ensures var w := Exec(EMPTY, acts);
      id in w.table
      && Outcome(w.table, id, CallAt(w.handles[id].pc), check)
        == if !check then IoErrLock else if exists r :: Reads(w, r) then Busy else Ok
  {
    ReachableInv(acts);
    RefusalUnderPending(Exec(EMPTY, acts), id, true);
  }
}
