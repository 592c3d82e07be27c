/** When a level of SHARED or more still means a held read lock. The levels
    promise it, the code keeps it except after one kind of failure. */
module LockHistory {
  import opened ByteLocks
  import opened LockProtocol
  import opened LockSafety

  /** ci_check failed when the handle last re-took its read lock, and it has been
      neither at NONE nor at EXCLUSIVE since. */
  predicate Lost(acts: seq<Action>, id: Id)
    decreases |acts|
  {
    acts != [] &&
    var before, last := acts[..|acts|-1], acts[|acts|-1];
    LostStep(Exec(EMPTY, before), last, id, Lost(before, id))
  }

  predicate LostStep(w: World, a: Action, id: Id, lost: bool) {
    var w' := Apply(w, a);
    if id !in w'.handles || w'.handles[id].lock == LOCK_NONE then false
    else if a.id != id || id !in w.handles then lost
    else if a.Fire? && (w.handles[id].pc.RestoreShared? || w.handles[id].pc == Downgrade) then !a.check
    else if HoldsExclusive(w'.handles[id]) then false
    else lost
  }

  /** How the read flag and the history fit, at every position of every call. */
  predicate ReadFits(h: Handle, lost: bool) {
    match h.pc
    case Idle =>
      (LOCK_SHARED <= h.lock <= LOCK_PENDING ==> (h.shared <==> !lost))
      && ((h.lock == LOCK_NONE || h.lock == LOCK_EXCLUSIVE) ==> !lost)
    case AcquirePending => !lost
    case AcquireShared => !lost
    case ReleasePending(_) => !lost
    case AcquireReserved => h.shared <==> !lost
    case AcquirePendingExclusive => h.shared <==> !lost
    case DropShared => !lost
    case UnlockReserved(goal, _) => goal == LOCK_SHARED ==> (h.shared <==> !lost)
    case UnlockPending(goal, _) => goal == LOCK_SHARED ==> (h.shared <==> !lost)
    case ProbeReserved => h.lock == LOCK_SHARED ==> (h.shared <==> !lost)
    case ReleaseProbe => h.lock == LOCK_SHARED ==> (h.shared <==> !lost)
    case _ => true
  }

  function Kept(h: Handle, lost: bool): bool {
    lost && h.lock != LOCK_NONE && !HoldsExclusive(h)
  }

  function Begin(h: Handle, a: Action): Handle {
    match a
    case CallLock(_, requested, check) => BeginLock(h, requested, check)
    case CallUnlock(_, requested) => BeginUnlock(h, requested)
    case CallReserved(_, check) => BeginReserved(h, check)
    case _ => h
  }

  lemma BeginFits(h: Handle, a: Action, lost: bool)
    requires WellFormed(h) && h.pc == Idle && ReadFits(h, lost)
    ensures ReadFits(Begin(h, a), Kept(Begin(h, a), lost))
  {
    match a {
      case CallLock(_, requested, check) => BeginLockFits(h, requested, check, lost);
      case CallUnlock(_, requested) => BeginUnlockFits(h, requested, lost);
      case CallReserved(_, check) => BeginReservedFits(h, check, lost);
      case _ =>
    }
    hide BeginLock, BeginUnlock, BeginReserved;
  }

  lemma BeginLockFits(h: Handle, requested: int, check: bool, lost: bool)
    requires WellFormed(h) && h.pc == Idle && ReadFits(h, lost)
    ensures ReadFits(BeginLock(h, requested, check), Kept(BeginLock(h, requested, check), lost))
  {
  }

  lemma BeginUnlockFits(h: Handle, requested: int, lost: bool)
    requires WellFormed(h) && h.pc == Idle && ReadFits(h, lost)
    ensures ReadFits(BeginUnlock(h, requested), Kept(BeginUnlock(h, requested), lost))
  {
  }

  lemma BeginReservedFits(h: Handle, check: bool, lost: bool)
    requires WellFormed(h) && h.pc == Idle && ReadFits(h, lost)
    ensures ReadFits(BeginReserved(h, check), Kept(BeginReserved(h, check), lost))
  {
  }

  predicate Relocks(pc: Pc) {
    pc.RestoreShared? || pc == Downgrade
  }

  /** The history after a call stood at `h.pc` and its check came out as `check`. */
  function NextLost(h: Handle, h': Handle, check: bool, lost: bool): bool {
    if h'.lock == LOCK_NONE then false
    else if Relocks(h.pc) then !check
    else if HoldsExclusive(h') then false
    else lost
  }

  lemma FireFits(h: Handle, rc: Rc, check: bool, lost: bool)
    requires WellFormed(h) && h.pc != Idle && ReadFits(h, lost)
    requires CallAt(h.pc).UnlockCall? ==> rc == Ok
    requires Relocks(h.pc) ==> (rc == Ok <==> check)
    ensures var h' := After(h, rc); ReadFits(h', NextLost(h, h', check, lost))
  {
    if h.pc.UnlockShared? || h.pc.UnlockReserved? || h.pc.UnlockPending? {
      UnlockTailFits(h, lost);
    } else if CallAt(h.pc).LockCall? {
      LockFits(h, rc, check, lost);
    }
  }

  lemma LockFits(h: Handle, rc: Rc, check: bool, lost: bool)
    requires WellFormed(h) && h.pc != Idle && ReadFits(h, lost) && CallAt(h.pc).LockCall?
    requires Relocks(h.pc) ==> (rc == Ok <==> check)
    ensures var h' := After(h, rc); ReadFits(h', NextLost(h, h', check, lost))
  {
  }

  lemma UnlockTailFits(h: Handle, lost: bool)
    requires WellFormed(h) && ReadFits(h, lost)
    requires h.pc.UnlockShared? || h.pc.UnlockReserved? || h.pc.UnlockPending?
    ensures var h' := After(h, Ok); ReadFits(h', lost && h'.lock != LOCK_NONE && !HoldsExclusive(h'))
  {
  }

  lemma {:induction false} HistoryFits(acts: seq<Action>, id: Id)
    requires id in Exec(EMPTY, acts).handles
    ensures ReadFits(Exec(EMPTY, acts).handles[id], Lost(acts, id))
    decreases |acts|
  {
    if acts != [] {
      var before, a := acts[..|acts|-1], acts[|acts|-1];
      var w := Exec(EMPTY, before);
      ReachableInv(before);
      if id in w.handles { HistoryFits(before, id); }
      if a.id == id { OwnStepFits(before, a); } else { StepIsLocal(w, a, id); }
    }
  }

  lemma OwnStepFits(before: seq<Action>, a: Action)
    requires var w := Exec(EMPTY, before);
      Inv(w) && a.id in Apply(w, a).handles
      && (a.id in w.handles ==> ReadFits(w.handles[a.id], Lost(before, a.id)))
    ensures var w := Exec(EMPTY, before);
      ReadFits(Apply(w, a).handles[a.id], LostStep(w, a, a.id, Lost(before, a.id)))
  {
    var w := Exec(EMPTY, before);
    if a.id in w.handles {
      var lost := Lost(before, a.id);
      hide WellFormed, BeginLock, BeginUnlock, BeginReserved, After, ReadFits, Compatible, CallAt, Effect, Lost, Exec, Outcome;
      if w.handles[a.id].pc == Idle {
        BeginFits(w.handles[a.id], a, lost);
      } else if a.Fire? {
        assert Relocks(w.handles[a.id].pc) ==>
          Outcome(w.table, a.id, CallAt(w.handles[a.id].pc), a.check) == if a.check then Ok else IoErrLock
        by {
          assert before + [] == before;
          if Relocks(w.handles[a.id].pc) { RelockNeverRefused(before, [], a.id, a.check); }
        }
        OwnFireFits(w, a.id, a.check, lost);
      }
    }
  }

  lemma OwnFireFits(w: World, id: Id, check: bool, lost: bool)
    requires Inv(w) && id in w.handles && w.handles[id].pc != Idle && ReadFits(w.handles[id], lost)
    requires var h := w.handles[id];
      Relocks(h.pc) ==> (Outcome(w.table, id, CallAt(h.pc), check) == Ok <==> check)
    ensures var w' := Apply(w, Fire(id, check));
      id in w'.handles && ReadFits(w'.handles[id], NextLost(w.handles[id], w'.handles[id], check, lost))
  {
    hide WellFormed, Compatible, After, ReadFits, CallAt, Effect, Outcome;
    var h := w.handles[id];
    FireKeepsOwned(w.table, id, h, check);
    FireFits(h, Outcome(w.table, id, CallAt(h.pc), check), check, lost);
  }

  /** In every run a handle between calls at SHARED, RESERVED or PENDING holds the
      read lock if and only if it did not lose it to a failed check. */
  lemma LevelMeansReadLock(acts: seq<Action>, id: Id)
    requires var w := Exec(EMPTY, acts);
      id in w.handles && w.handles[id].pc == Idle && LOCK_SHARED <= w.handles[id].lock <= LOCK_PENDING
    ensures Reads(Exec(EMPTY, acts), id) <==> !Lost(acts, id)
  {
    var w := Exec(EMPTY, acts);
    HistoryFits(acts, id);
    FlagsMirrorTable(acts, id);
    hide WellFormed, Lost, Exec;
    assert w.handles[id].shared <==> READ in w.table[id];
  }

  /** So two handles between calls are at EXCLUSIVE and at a reading level together
      only if the reader lost its lock. */
  lemma ReaderBesideWriterLostItsLock(acts: seq<Action>, writer: Id, reader: Id)
    requires var w := Exec(EMPTY, acts);
      writer != reader && writer in w.handles && reader in w.handles
      && HoldsExclusive(w.handles[writer])
      && w.handles[reader].pc == Idle && LOCK_SHARED <= w.handles[reader].lock <= LOCK_PENDING
    ensures Lost(acts, reader)
  {
    var w := Exec(EMPTY, acts);
    ReachableInv(acts);
    ExclusiveExcludes(acts, writer, reader);
    LevelMeansReadLock(acts, reader);
    hide WellFormed, Lost, Exec;
  }

  // ------------------------------------------------ and such a run exists

  /** One handle reads, reaches EXCLUSIVE, and goes down to SHARED while ci_check
      fails as it re-takes its read lock. */
  const READING := [CallLock(0, LOCK_SHARED, true), Fire(0, true), Fire(0, true), Fire(0, true)]
  const UPGRADING := [CallLock(0, LOCK_EXCLUSIVE, true), Fire(0, true), Fire(0, true), Fire(0, true)]
  const DOWNGRADING := [CallUnlock(0, LOCK_SHARED), Fire(0, true), Fire(0, false), Fire(0, true)]

  const READER := FRESH.(lock := LOCK_SHARED, shared := true)
  const WRITER := FRESH.(lock := LOCK_EXCLUSIVE, pending := true)
  const BARE := FRESH.(lock := LOCK_SHARED, ret := IoErrLock)

  const NOTHING: multiset<Held> := multiset{}
  const ADMIT := Held(PENDING_RANGE, false)
  const PENDING := Held(PENDING_RANGE, true)
  const WRITE := Held(SHARED_RANGE, true)

  lemma ExecFour(w: World, a: Action, b: Action, c: Action, d: Action)
    ensures Exec(w, [a, b, c, d]) == Apply(Apply(Apply(Apply(w, a), b), c), d)
  {
    assert [a, b, c, d][..3] == [a, b, c] && [a, b, c][..2] == [a, b] && [a, b][..1] == [a] && [a][..0] == [];
    assert Exec(w, [a]) == Apply(w, a);
    assert Exec(w, [a, b]) == Apply(Exec(w, [a]), b);
    assert Exec(w, [a, b, c]) == Apply(Exec(w, [a, b]), c);
  }

  /** The world in which handle 0 is the only one. */
  function Alone(h: Handle, locks: multiset<Held>): World {
    World(map[0 := h], map[0 := locks])
  }

  lemma BeginAlone(h: Handle, locks: multiset<Held>, a: Action)
    requires a.id == 0 && h.pc == Idle && (a.CallLock? || a.CallUnlock?)
    ensures Apply(Alone(h, locks), a) == Alone(Begin(h, a), locks)
  {
    hide BeginLock, BeginUnlock;
    assert map[0 := h][0 := Begin(h, a)] == map[0 := Begin(h, a)];
  }

  lemma LockAlone(h: Handle, locks: multiset<Held>, want: Held, check: bool)
    requires h.pc != Idle && CallAt(h.pc) == LockCall(want)
    requires forall e | e in locks :: !Clash(e, want)
    ensures Apply(Alone(h, locks), Fire(0, check)) ==
            if check then Alone(After(h, Ok), locks + multiset{want}) else Alone(After(h, IoErrLock), locks)
  {
    hide After, CallAt, Clash;
    var w := Alone(h, locks);
    assert !Refused(w.table, want);
    assert w.handles[0 := After(h, Ok)] == map[0 := After(h, Ok)];
    assert w.handles[0 := After(h, IoErrLock)] == map[0 := After(h, IoErrLock)];
    assert w.table[0 := locks + multiset{want}] == map[0 := locks + multiset{want}];
  }

  lemma UnlockAlone(h: Handle, locks: multiset<Held>, e: Held)
    requires h.pc != Idle && CallAt(h.pc) == UnlockCall(e.range)
    requires e in locks && Held(e.range, !e.exclusive) !in locks
    ensures Apply(Alone(h, locks), Fire(0, true)) == Alone(After(h, Ok), locks - multiset{e})
  {
    hide After, CallAt;
    var w := Alone(h, locks);
    assert w.handles[0 := After(h, Ok)] == map[0 := After(h, Ok)];
    assert w.table[0 := locks - multiset{e}] == map[0 := locks - multiset{e}];
  }

  lemma MultisetSwap<T>(a: T, b: T)
    ensures multiset{a} + multiset{b} - multiset{a} == multiset{b}
    ensures multiset{b} + multiset{a} - multiset{a} == multiset{b}
    ensures multiset{a} - multiset{a} == multiset{}
    ensures multiset{} + multiset{a} == multiset{a}
  {
  }

  lemma RunsReading()
    ensures Exec(Alone(FRESH, NOTHING), READING) == Alone(READER, multiset{READ})
  {
    var h1, h2, h3 := FRESH.(pc := AcquirePending), FRESH.(pc := AcquireShared), FRESH.(pc := ReleasePending(Ok));
    assert Begin(FRESH, READING[0]) == h1 && After(h1, Ok) == h2 && After(h2, Ok) == h3 && After(h3, Ok) == READER;
    ExecFour(Alone(FRESH, NOTHING), READING[0], READING[1], READING[2], READING[3]);
    MultisetSwap(ADMIT, READ);
    hide Apply, Exec, Alone, After, Begin;
    BeginAlone(FRESH, NOTHING, READING[0]);
    LockAlone(h1, NOTHING, ADMIT, true);
    LockAlone(h2, multiset{ADMIT}, READ, true);
    UnlockAlone(h3, multiset{ADMIT} + multiset{READ}, ADMIT);
  }

  lemma RunsUpgrading()
    ensures Exec(Alone(READER, multiset{READ}), UPGRADING) == Alone(WRITER, multiset{PENDING} + multiset{WRITE})
  {
    var h1 := READER.(pc := AcquirePendingExclusive);
    var h2 := READER.(pc := DropShared, lock := LOCK_PENDING, pending := true);
    var h3 := WRITER.(pc := AcquireSharedExclusive, lock := LOCK_PENDING);
    assert Begin(READER, UPGRADING[0]) == h1;
    assert After(h1, Ok) == h2;
    assert After(h2, Ok) == h3;
    assert After(h3, Ok) == WRITER;
    ExecFour(Alone(READER, multiset{READ}), UPGRADING[0], UPGRADING[1], UPGRADING[2], UPGRADING[3]);
    MultisetSwap(READ, PENDING);
    hide Apply, Exec, Alone, After, Begin;
    BeginAlone(READER, multiset{READ}, UPGRADING[0]);
    LockAlone(h1, multiset{READ}, PENDING, true);
    UnlockAlone(h2, multiset{READ} + multiset{PENDING}, READ);
    LockAlone(h3, multiset{PENDING}, WRITE, true);
  }

  const LEAVING := WRITER.(pc := UnlockExclusive(LOCK_SHARED))
  const RELOCKING := WRITER.(pc := Downgrade)
  const FINISHING := WRITER.(pc := UnlockPending(LOCK_SHARED, IoErrLock))

  lemma DowngradeSteps()
    ensures Begin(WRITER, DOWNGRADING[0]) == LEAVING && After(LEAVING, Ok) == RELOCKING
    ensures After(RELOCKING, IoErrLock) == FINISHING && After(FINISHING, Ok) == BARE
  {
  }

  lemma LeavesExclusive()
    ensures Apply(Apply(Alone(WRITER, multiset{PENDING} + multiset{WRITE}), DOWNGRADING[0]), Fire(0, true))
            == Alone(RELOCKING, multiset{PENDING})
  {
    hide Apply, Alone, After, Begin;
    DowngradeSteps();
    MultisetSwap(WRITE, PENDING);
    BeginAlone(WRITER, multiset{PENDING} + multiset{WRITE}, DOWNGRADING[0]);
    UnlockAlone(LEAVING, multiset{PENDING} + multiset{WRITE}, WRITE);
  }

  lemma FinishesBare()
    ensures Apply(Apply(Alone(RELOCKING, multiset{PENDING}), Fire(0, false)), Fire(0, true)) == Alone(BARE, NOTHING)
  {
    hide Apply, Alone, After, Begin;
    DowngradeSteps();
    MultisetSwap(PENDING, WRITE);
    LockAlone(RELOCKING, multiset{PENDING}, READ, false);
    UnlockAlone(FINISHING, multiset{PENDING}, PENDING);
  }

  lemma RunsDowngrading()
    ensures Exec(Alone(WRITER, multiset{PENDING} + multiset{WRITE}), DOWNGRADING) == Alone(BARE, NOTHING)
  {
    ExecFour(Alone(WRITER, multiset{PENDING} + multiset{WRITE}),
             DOWNGRADING[0], DOWNGRADING[1], DOWNGRADING[2], DOWNGRADING[3]);
    hide Apply, Exec, Alone;
    LeavesExclusive();
    FinishesBare();
  }

  /** The level alone does not mean a read lock: here is a run after which a handle
      is at SHARED and holds no byte of the file, and after which fLock(SHARED)
      answers Ok without taking any. */
  lemma LevelWithoutReadLock()
    ensures var w := Exec(EMPTY, [Open(0, false)] + READING + UPGRADING + DOWNGRADING);
      && 0 in w.handles && w.handles[0].pc == Idle && w.handles[0].lock == LOCK_SHARED
      && 0 in w.table && w.table[0] == multiset{}
      && BeginLock(w.handles[0], LOCK_SHARED, true) == w.handles[0].(ret := Ok)
  {
    var open := [Open(0, false)];
    assert Exec(EMPTY, open) == Alone(FRESH, NOTHING) by {
      assert open[..0] == [];
      assert Exec(EMPTY, open[..0]) == EMPTY;
    }
    ExecSplit(EMPTY, open, READING);
    ExecSplit(EMPTY, open + READING, UPGRADING);
    ExecSplit(EMPTY, open + READING + UPGRADING, DOWNGRADING);
    RunsReading();
    RunsUpgrading();
    RunsDowngrading();
  }
}
