/** The WAL index of one handle as the source keeps it, with masks in words and
    regions in an array that is reallocated to grow, while the other handles of
    the database step in between its calls of the system. */
module ShmFiles {
  import opened Options
  import opened ByteLocks
  import opened ShmProtocol
  import opened ShmInvariant
  import opened ShmStale
  import opened ShmWords

  /** The run `trace` led to this world, in which handle `id` is as given. */
  ghost predicate Led(first: World, trace: seq<Action>, w: World, id: Id, h: Handle) {
    Initial(first) && id !in w.handles && Exec(first, trace) == Put(w, id, h)
  }

  lemma ExecMore(first: World, trace: seq<Action>, a: Action)
    ensures Exec(first, trace + [a]) == Apply(Exec(first, trace), a)
  {
    hide Apply;
    assert (trace + [a])[..|trace|] == trace;
  }

  /** Stepping the other handles does not depend on this one's fields. */
  lemma OthersIgnoreMe(w: World, id: Id, h: Handle, a: Action)
    requires id !in w.handles && a.id != id
    ensures id !in Apply(w, a).handles && Apply(Put(w, id, h), a) == Put(Apply(w, a), id, h)
  {
    hide Next, TableAfter, Refused, CanUnlock, ShmLock, BeginMap, Return;
    var v := Apply(Put(w, id, h), a);
    if a.Open? {
      var g := FRESH.(main := a.main);
      assert w.handles[id := h][a.id := g] == w.handles[a.id := g][id := h];
    } else if a.id in w.handles {
      if a.Close? {
        assert w.handles[id := h] - {a.id} == (w.handles - {a.id})[id := h];
      } else {
        var g := v.handles[a.id];
        assert w.handles[id := h][a.id := g] == w.handles[a.id := g][id := h];
      }
    }
  }

  lemma TheyStepped(first: World, trace: seq<Action>, w: World, id: Id, h: Handle, a: Action)
    requires Led(first, trace, w, id, h) && a.id != id
    ensures Led(first, trace + [a], Apply(w, a), id, h)
  {
    ExecMore(first, trace, a);
    OthersIgnoreMe(w, id, h, a);
    hide Apply, Exec;
  }

  /** What the system call at which handle `id` stands comes to. */
  ghost predicate Fires(w: World, id: Id, h: Handle, ok: bool, w': World, h': Handle) {
    && (h.pc.TryDeadman? || h.pc.ShareDeadman? || h.pc.ReleaseDeadman? ==> id in w.table)
    && h' == Next(h, Answered(w, id, h.pc, ok))
    && w' == World(w.handles, TableAfter(w.table, id, h, ok), LengthAfter(w, h, ok), w.granule)
  }

  /** And what a call of the handle's owner comes to. */
  ghost predicate Calls(w: World, id: Id, h: Handle, a: Action, w': World, h': Handle) {
    && a.id == id
    && match a
       case CallMap(_, page, size, extend, check) => h.pc == Idle && h' == BeginMap(h, page, size, extend, check) && w' == w
       case CallUnmap(_, remove) =>
         h.pc == Idle && h' == (if h.open then h.(pc := Unmapping(remove, 0)) else Return(h, Ok)) && w' == w
       case NoDelete(_) => h.pc == Removing && h' == Return(h, Ok) && w' == w
       case CallLock(_, offset, count, flags, check) =>
         h.pc == Idle
         && if !h.open || id !in w.table then h' == Return(h, IoErrShmLock) && w' == w
            else
              var o := ShmLock(Masks(h.shared, h.exclusive), w.table, id, offset, count, flags, check);
              h' == Return(h.(shared := o.masks.shared, exclusive := o.masks.exclusive), o.rc) && w' == w.(table := o.table)
       case _ => false
  }

  lemma IFired(first: World, trace: seq<Action>, w: World, id: Id, h: Handle, ok: bool, w': World, h': Handle)
    requires Led(first, trace, w, id, h) && Fires(w, id, h, ok, w', h')
    ensures Led(first, trace + [Fire(id, ok)], w', id, h')
  {
    ExecMore(first, trace, Fire(id, ok));
    hide Exec, Next, TableAfter, Refused, CanUnlock;
    assert w.handles[id := h][id := h'] == w.handles[id := h'];
  }

  lemma ICalled(first: World, trace: seq<Action>, w: World, id: Id, h: Handle, a: Action, w': World, h': Handle)
    requires Led(first, trace, w, id, h) && Calls(w, id, h, a, w', h')
    ensures Led(first, trace + [a], w', id, h')
  {
    ExecMore(first, trace, a);
    hide Exec, ShmLock, BeginMap, Return;
    assert w.handles[id := h][id := h'] == w.handles[id := h'];
  }

  /** The handle with its array grown to hold the page. */
  ghost function Larger(h: Handle): Handle
    requires h.page >= 0
  {
    h.(regions := Grown(h.regions, h.page), regionSize := if h.page < |h.regions| then h.regionSize else PAGE)
  }

  lemma GrowFires(w: World, id: Id, h: Handle, memory: bool)
    requires h.pc == Growing && h.page >= 0
    ensures h.page >= |h.regions| && !memory ==> Fires(w, id, h, memory, w, Return(h, NoMem))
    ensures h.page < |h.regions| || memory ==>
      var h' := Larger(h);
      h.page < |h'.regions| && var region := h'.regions[h.page];
      Fires(w, id, h, memory, w, if region.Mapped? then Return(h'.(out := Some(region.data)), Ok) else h'.(pc := Mapping))
  {
  }

  lemma ViewFires(w: World, id: Id, h: Handle, ok: bool, h': Handle)
    requires h.pc == Viewing && 0 <= h.page < |h.regions| && w.granule > 0
    requires var view := View(h.page, w.granule);
      h' == if ok then Return(h.(regions := h.regions[h.page := view], out := Some(view.data)), Ok) else Return(h, IoErrShmMap)
    ensures Fires(w, id, h, ok, w, h')
  {
  }

  lemma DropFires(w: World, id: Id, h: Handle, ok: bool, remove: bool, h': Handle)
    requires h.pc == Dropping(remove)
    requires h' == h.(open := false, deadman := false, shared := {}, exclusive := {}, pc := h'.pc, ret := h'.ret)
    requires if remove && ok then h'.pc == Removing && h'.ret == h.ret else h'.pc == Idle && h'.ret == if ok then Ok else IoErrClose
    ensures Fires(w, id, h, ok, w.(table := w.table - {id}), h')
  {
  }

  lemma HoldsDeadman(first: World, trace: seq<Action>, w: World, id: Id, h: Handle)
    requires Led(first, trace, w, id, h) && h.pc.ReleaseDeadman? && h.open
    ensures id in w.table && CanUnlock(w.table, id, DMS_RANGE)
  {
    ReachableInv(first, trace);
    hide Exec, Initial;
    Own(Exec(first, trace), id);
    hide Inv;
  }

  lemma ReleaseFires(w: World, id: Id, h: Handle, truncated: Rc, release: Rc, t: Table, h': Handle)
    requires h.pc == ReleaseDeadman(truncated) && id in w.table
    requires release == (if CanUnlock(w.table, id, DMS_RANGE) then Ok else IoErrUnlock)
    requires t == if release == Ok then Unlock(w.table, id, DMS_RANGE) else w.table
    requires var rc := if truncated == Ok then release else truncated; h' == h.(pc := if rc == Ok then ShareDeadman else GiveUp(rc))
    ensures Fires(w, id, h, true, w.(table := t), h')
  {
    if !CanUnlock(w.table, id, DMS_RANGE) { NothingToUnlock(w.table, id, DMS_RANGE); }
  }

  // -------------------------------------------------- why a call answers so

  /** What a call may find. */
  datatype Finding =
    | TooShort(page: int)       // the file ends before the end of the page
    | DeadmanTaken(id: Id)      // another handle clears the index
    | Cleared                   // the index is empty

  ghost predicate Holds(w: World, f: Finding) {
    match f
    case TooShort(page) => w.length < Wanted(page)
    case DeadmanTaken(id) =>
      exists o, e :: o != id && o in w.table && e in w.table[o] && Clash(e, Held(DMS_RANGE, false))
    case Cleared => w.length == 0
  }

  /** It was so at a moment of the call. */
  ghost predicate Found(first: World, before: seq<Action>, after: seq<Action>, f: Finding) {
    exists moment :: before <= moment <= after && Holds(Exec(first, moment), f)
  }

  predicate Fails(a: Action, id: Id) {
    a.id == id && ((a.Fire? && !a.ok) || ((a.CallMap? || a.CallLock?) && !a.check))
  }

  /** A check or a call of the system failed for this handle. */
  ghost predicate Failed(before: seq<Action>, after: seq<Action>, id: Id) {
    exists i :: |before| <= i < |after| && Fails(after[i], id)
  }

  lemma FoundNow(first: World, trace: seq<Action>, f: Finding)
    requires Holds(Exec(first, trace), f)
    ensures Found(first, trace, trace, f)
  {
  }

  /** fUnmap got no handle to delete the index with. */
  ghost predicate NoHandle(before: seq<Action>, after: seq<Action>, id: Id) {
    exists i :: |before| <= i < |after| && after[i] == NoDelete(id)
  }

  lemma NoHandleInPart(before: seq<Action>, middle: seq<Action>, after: seq<Action>, id: Id)
    requires before <= middle <= after
    ensures NoHandle(middle, after, id) ==> NoHandle(before, after, id)
  {
  }

  /** What was found in a part of a call was found in the call. */
  lemma GoesOn(first: World, before: seq<Action>, middle: seq<Action>, after: seq<Action>, id: Id)
    requires before <= middle <= after
    ensures before <= after
    ensures forall f ::
      Found(first, middle, after, f) || Found(first, before, middle, f) ==> Found(first, before, after, f)
    ensures Failed(middle, after, id) || Failed(before, middle, id) ==> Failed(before, after, id)
  {
    hide Holds, Exec, Fails;
    Chains(before, middle, after);
    forall f | Found(first, middle, after, f) || Found(first, before, middle, f)
      ensures Found(first, before, after, f)
    {
      if Found(first, middle, after, f) {
        var moment :| middle <= moment <= after && Holds(Exec(first, moment), f);
        Chains(before, middle, moment);
      } else {
        var moment :| before <= moment <= middle && Holds(Exec(first, moment), f);
        Chains(moment, middle, after);
      }
    }
    FailureStays(before, middle, after, id);
  }

  lemma FailureStays(before: seq<Action>, middle: seq<Action>, after: seq<Action>, id: Id)
    requires before <= middle <= after
    ensures Failed(middle, after, id) || Failed(before, middle, id) ==> Failed(before, after, id)
  {
    hide Fails;
    if Failed(before, middle, id) {
      var i :| |before| <= i < |middle| && Fails(middle[i], id);
      assert after[i] == middle[i];
    }
  }

  lemma Chains<T>(a: seq<T>, b: seq<T>, c: seq<T>)
    requires a <= b <= c
    ensures a <= c
  {
    assert a == b[..|a|] == c[..|a|];
  }

  /** A handle that asks to share the deadman byte is refused by another that clears. */
  lemma RefusedByClearing(first: World, trace: seq<Action>, w: World, id: Id, h: Handle)
    requires Led(first, trace, w, id, h) && h.pc == ShareDeadman && Refused(w.table, Held(DMS_RANGE, false))
    ensures Found(first, trace, trace, DeadmanTaken(id))
  {
    ReachableInv(first, trace);
    hide Exec, Initial;
    var t := Exec(first, trace);
    Own(t, id);
    hide Inv;
    var o, e :| o in w.table && e in w.table[o] && Clash(e, Held(DMS_RANGE, false));
    if o == id {
      DeadmanOnly(t.table[id], Masks(h.shared, h.exclusive), e);
      assert false;
    }
    FoundNow(first, trace, DeadmanTaken(id));
  }

  /** What every run says of a handle. */
  lemma Stands(first: World, trace: seq<Action>, w: World, id: Id, h: Handle)
    requires Led(first, trace, w, id, h)
    ensures w.granule > 0 && (h.open <==> id in w.table) && WellFormed(h, w.length) && ViewsFit(h, w.length, w.granule)
  {
    ReachableInv(first, trace);
    hide Exec, Initial;
    Own(Exec(first, trace), id);
    hide Inv;
  }

  /** The index file, its lock table and the other handles. */
  class Index {
    var table: Table
    var length: nat
    var others: map<Id, Handle>
    const granule: nat
    ghost const first: World
    ghost var trace: seq<Action>

    /** An index left from earlier, or none. */
    constructor (length: nat, granule: nat)
      requires granule > 0
      ensures Rests() && this.length == length && table == map[] && others == map[]
    {
      table, others, this.length, this.granule := map[], map[], length, granule;
      first, trace := World(map[], map[], length, granule), [];
    }

    function Now(): World
      reads this
    {
      World(others, table, length, granule)
    }

    /** None of our handles is there. */
    ghost predicate Rests()
      reads this
    {
      Initial(first) && Exec(first, trace) == Now()
    }

    /** The file's fields and the world are where the run led. */
    ghost predicate Runs(f: ShmFile)
      reads this, f, f.regions
    {
      Led(first, trace, Now(), f.id, f.State())
    }

    /** Any number of steps of any other handles. */
    method Interfere(f: ShmFile)
      requires Runs(f)
      modifies this
      ensures Runs(f) && old(trace) <= trace
    {
      hide Led;
      var n: nat := *;
      while n > 0
        invariant Runs(f) && old(trace) <= trace
      {
        var a: Action := *;
        ghost var before := trace;
        if a.id != f.id { They(f, a); }
        Chains(old(trace), before, trace);
        n := n - 1;
      }
    }

    method They(f: ShmFile, a: Action)
      requires Runs(f) && a.id != f.id
      modifies this
      ensures Runs(f) && old(trace) <= trace
    {
      hide Led, Apply;
      TheyStepped(first, trace, Now(), f.id, f.State(), a);
      GranuleStays(Now(), a);
      var w := Apply(Now(), a);
      table, length, others := w.table, w.length, w.handles;
      trace := trace + [a];
    }

    ghost method Did(f: ShmFile, w: World, h: Handle, ok: bool)
      requires Led(first, trace, w, f.id, h) && Fires(w, f.id, h, ok, Now(), f.State())
      modifies this`trace
      ensures Runs(f) && trace == old(trace) + [Fire(f.id, ok)]
      ensures !ok ==> Failed(old(trace), trace, f.id)
    {
      hide Led, Fires;
      IFired(first, trace, w, f.id, h, ok, Now(), f.State());
      trace := trace + [Fire(f.id, ok)];
      assert trace[|old(trace)|] == Fire(f.id, ok);
    }

    ghost method Called(f: ShmFile, w: World, h: Handle, a: Action)
      requires Led(first, trace, w, f.id, h) && Calls(w, f.id, h, a, Now(), f.State())
      modifies this`trace
      ensures Runs(f) && trace == old(trace) + [a]
      ensures Fails(a, f.id) ==> Failed(old(trace), trace, f.id)
    {
      hide Led, Calls;
      ICalled(first, trace, w, f.id, h, a, Now(), f.State());
      trace := trace + [a];
      assert trace[|old(trace)|] == a;
    }

    method CiLock(id: Id, range: Range, exclusive: bool, check: bool) returns (rc: Rc)
      requires id in table
      modifies this`table
      ensures rc == if !check then IoErrLock else if Refused(old(table), Held(range, exclusive)) then Busy else Ok
      ensures table == if rc == Ok then old(table)[id := old(table)[id] + multiset{Held(range, exclusive)}] else old(table)
    {
      if !check { return IoErrLock; }
      if Refused(table, Held(range, exclusive)) { return Busy; }
      table := table[id := table[id] + multiset{Held(range, exclusive)}];
      return Ok;
    }

    method CiUnlock(id: Id, range: Range) returns (rc: Rc)
      requires id in table
      modifies this`table
      ensures rc == if CanUnlock(old(table), id, range) then Ok else IoErrUnlock
      ensures table == if rc == Ok then ByteLocks.Unlock(old(table), id, range) else old(table)
    {
      if !CanUnlock(table, id, range) { return IoErrUnlock; }
      table := Unlock(table, id, range);
      return Ok;
    }
  }

  lemma TableNow(first: World, trace: seq<Action>, w: World, id: Id, h: Handle)
    requires Led(first, trace, w, id, h)
    ensures Exec(first, trace).table == w.table
  {
  }

  /** What fShmLock makes of an illegal request, and when it reports a failed check. */
  lemma IllegalOrFailed(m: Masks, t: Table, id: Id, offset: int, count: int, flags: int, check: bool)
    ensures !LegalLock(false, offset, count, flags)
    ensures id in t && !LegalLock(true, offset, count, flags) ==>
      ShmLock(m, t, id, offset, count, flags, check) == Outcome(IoErrShmLock, m, t)
    ensures id in t && ShmLock(m, t, id, offset, count, flags, check).rc == IoErrLock ==> !check
  {
  }

  lemma NothingToUnlock(t: Table, id: Id, range: Range)
    requires id in t && !CanUnlock(t, id, range)
    ensures Unlock(t, id, range) == t
  {
    assert t[id] - multiset{Held(range, false)} == t[id];
  }

  lemma NoBits()
    ensures Bits(0) == {} && Narrow(0)
  {
    ZeroIsEmpty(0);
  }

  lemma PageIsInFile(h: Handle, page: nat, length: nat, granule: nat)
    requires ViewsFit(h, length, granule) && granule > 0 && page < |h.regions| && h.regions[page].Mapped?
    ensures h.regions[page].data == page * PAGE && h.regions[page].End() == Wanted(page) <= length
  {
    assert ViewFits(h.regions[page], page, length, granule);
  }

  lemma GranuleStays(w: World, a: Action)
    ensures Apply(w, a).granule == w.granule
  {
    hide Next, TableAfter, LengthAfter, ShmLock, BeginMap;
  }

  class ShmFile {
    const id: Id
    const main: bool
    var open: bool
    var deadman: bool
    var shmShared: bv32
    var shmExclusive: bv32
    var regions: array<Region>
    var regionSize: int
    // Where the current call stands, its arguments, and what the last one returned.
    ghost var pc: Pc
    ghost var page: int
    ghost var extend: bool
    ghost var ret: Rc
    ghost var out: Option<nat>

    ghost function State(): Handle
      reads this, regions
    {
      Handle(main, open, deadman, Bits(shmShared), Bits(shmExclusive), regions[..], regionSize, page, extend, pc, ret, out)
    }

    ghost predicate Valid()
      reads this
    {
      Narrow(shmShared) && Narrow(shmExclusive)
    }

    ghost function SlotMasks(): Masks
      reads this
    {
      Word(shmShared, shmExclusive)
    }

    /** A handle that has not touched the index yet. */
    constructor (db: Index, id: Id, main: bool)
      requires db.Rests() && id !in db.others
      modifies db`trace
      ensures db.Runs(this) && Valid() && pc == Idle && !open && this.id == id && this.main == main && fresh(regions)
    {
      this.id, this.main, open, deadman := id, main, false, false;
      shmShared, shmExclusive, regionSize := 0, 0, 0;
      regions := new Region[0];
      pc, page, extend, ret, out := Idle, 0, false, Ok, None;
      new;
      ExecMore(db.first, db.trace, Open(id, main));
      NoBits();
      hide Exec, Bits;
      assert regions[..] == [];
      db.trace := db.trace + [Open(id, main)];
    }

    // ------------------------------------------------------------- fShmLock

    /** Under the table of that moment the protocol's fShmLock answers so, and leaves
        these masks and that table. */
    ghost predicate Answers(
        db: Index, moment: seq<Action>, check: bool, m: Masks, offset: int, count: int, kind: int, rc: Rc)
      reads this, db
    {
      var t := Exec(db.first, moment).table;
      id in t && Outcome(rc, SlotMasks(), db.table) == ShmLock(m, t, id, offset, count, kind, check)
    }

    /** fShmLock asks the system once, under whatever table the others have left
        at a moment of the call. */
    method FShmLock(db: Index, offset: int, count: int, flags: bv32) returns (rc: Rc)
      requires db.Runs(this) && Valid() && pc == Idle
      modifies this`shmShared, this`shmExclusive, this`ret, db
      ensures db.Runs(this) && Valid() && ret == rc
      ensures !LegalLock(open, offset, count, Kind(flags)) ==> rc == IoErrShmLock && SlotMasks() == old(SlotMasks())
      ensures open ==> id in db.table && exists moment, check ::
        old(db.trace) <= moment <= db.trace
        && Answers(db, moment, check, old(SlotMasks()), offset, count, Kind(flags), rc)
      ensures rc == IoErrLock ==> Fell(db, old(db.trace))
    {
      hide Led, ShmLock, Bits, Narrow, Exec, Failed, LegalLock;
      db.Interfere(this);
      ghost var moment := db.trace;
      TableNow(db.first, db.trace, db.Now(), id, State());
      var check: bool := *;
      IllegalOrFailed(SlotMasks(), db.table, id, offset, count, Kind(flags), check);
      rc := AskSlots(db, offset, count, flags, check);
      GoesOn(db.first, old(db.trace), moment, db.trace, id);
      assert open ==> Answers(db, moment, check, old(SlotMasks()), offset, count, Kind(flags), rc);
    }

    method AskSlots(db: Index, offset: int, count: int, flags: bv32, check: bool) returns (rc: Rc)
      requires db.Runs(this) && Valid() && pc == Idle
      modifies this`shmShared, this`shmExclusive, this`ret, db`table, db`trace
      ensures db.Runs(this) && Valid() && ret == rc && old(db.trace) <= db.trace
      ensures !open ==> rc == IoErrShmLock && SlotMasks() == old(SlotMasks())
      ensures open ==> id in old(db.table) && id in db.table
      ensures open ==>
        Outcome(rc, SlotMasks(), db.table) == ShmLock(old(SlotMasks()), old(db.table), id, offset, count, Kind(flags), check)
      ensures !check ==> Fell(db, old(db.trace))
    {
      hide Led, ShmLock, Bits, Narrow, Exec, Failed, LegalLock;
      Stands(db.first, db.trace, db.Now(), id, State());
      hide WellFormed, ViewsFit;
      ghost var w, h := db.Now(), State();
      rc := SlotLock(db, offset, count, flags, check);
      ret := rc;
      db.Called(this, w, h, CallLock(id, offset, count, Kind(flags), check));
      Stands(db.first, db.trace, db.Now(), id, State());
    }

    /** fShmLock under one state of the table: on words it answers, and leaves masks
        and table, as the protocol's fShmLock on sets of slots. */
    method SlotLock(db: Index, offset: int, count: int, flags: bv32, check: bool) returns (rc: Rc)
      requires Valid() && (open ==> id in db.table)
      modifies this`shmShared, this`shmExclusive, db`table
      ensures Valid()
      ensures !open ==> rc == IoErrShmLock && SlotMasks() == old(SlotMasks()) && db.table == old(db.table)
      ensures open ==>
        Outcome(rc, SlotMasks(), db.table) == ShmLock(old(SlotMasks()), old(db.table), id, offset, count, Kind(flags), check)
    {
      hide Word, Bits, Slots, Requested, Narrow, Mask;
      var exclusive := flags & 8 != 0;
      if !open || offset < 0 || count < 1 || offset > NLOCK - count || (flags != 6 && flags != 10 && flags != 5 && flags != 9) {
        return IoErrShmLock;
      }
      var mask := Mask(offset, count);
      MaskIsSlots(offset, count);
      MaskIsNarrow(offset, count);
      if flags & 1 != 0 {
        rc := Unlock(db, offset, count, exclusive, mask, check);
      } else {
        rc := Lock(db, offset, count, exclusive, mask, check);
      }
    }

    method Unlock(db: Index, offset: nat, count: nat, exclusive: bool, mask: bv32, ghost check: bool) returns (rc: Rc)
      requires Valid() && open && id in db.table && LegalLock(true, offset, count, LOCK_SHARED)
      requires Narrow(mask) && Bits(mask) == Slots(offset, count)
      modifies this`shmShared, this`shmExclusive, db`table
      ensures Valid()
      ensures Outcome(rc, SlotMasks(), db.table) ==
        ShmLock(old(SlotMasks()), old(db.table), id, offset, count, if exclusive then UNLOCK_EXCLUSIVE else UNLOCK_SHARED, check)
    {
      hide Word, Bits, Slots, Requested, Narrow, CanUnlock, Or, And, AndNot;
      var held := if exclusive then shmExclusive else shmShared;
      DecidesUnlock(shmShared, shmExclusive, mask, offset, count, exclusive);
      UpdatesWords(shmShared, shmExclusive, mask);
      if And(Or(shmShared, shmExclusive), mask) == 0 { return Ok; }
      if And(held, mask) != mask { return IoErrShmLock; }
      rc := db.CiUnlock(id, SlotRange(offset, count));
      if rc == Ok {
        shmShared := AndNot(shmShared, mask);
        shmExclusive := AndNot(shmExclusive, mask);
      }
    }

    method Lock(db: Index, offset: nat, count: nat, exclusive: bool, mask: bv32, check: bool) returns (rc: Rc)
      requires Valid() && open && id in db.table && LegalLock(true, offset, count, LOCK_SHARED)
      requires Narrow(mask) && Bits(mask) == Slots(offset, count)
      modifies this`shmShared, this`shmExclusive, db`table
      ensures Valid()
      ensures Outcome(rc, SlotMasks(), db.table) ==
        ShmLock(old(SlotMasks()), old(db.table), id, offset, count, if exclusive then LOCK_EXCLUSIVE else LOCK_SHARED, check)
    {
      hide Word, Bits, Slots, Requested, Narrow, Refused, Or, And, AndNot;
      DecidesLock(shmShared, shmExclusive, mask, offset, count, exclusive);
      UpdatesWords(shmShared, shmExclusive, mask);
      if !exclusive && And(shmShared, mask) == mask && And(shmExclusive, mask) == 0 { return Ok; }
      if And(Or(shmShared, shmExclusive), mask) != 0 { return IoErrShmLock; }
      rc := db.CiLock(id, SlotRange(offset, count), exclusive, check);
      if rc == Ok {
        if exclusive { shmExclusive := Or(shmExclusive, mask); } else { shmShared := Or(shmShared, mask); }
      }
    }

    // ----------------------------------------------------------------- fMap

    /** A check or a call failed since. */
    ghost predicate Fell(db: Index, before: seq<Action>)
      reads this, db
    {
      Failed(before, db.trace, id)
    }

    ghost predicate Saw(db: Index, before: seq<Action>, f: Finding)
      reads db
    {
      Found(db.first, before, db.trace, f)
    }

    /** What holds as the call returns was so at a moment of it. */
    lemma SawNow(db: Index, before: seq<Action>, f: Finding)
      requires db.Runs(this) && before <= db.trace
      requires match f case TooShort(page) => db.length < Wanted(page) case Cleared => db.length == 0 case _ => false
      ensures Saw(db, before, f)
    {
    }

    /** The answers shm_open gives when it fails. */
    predicate OpenFails(rc: Rc) {
      rc == IoErrAccess || rc == IoErrShmOpen || rc == IoErrLock || rc == IoErrTruncate
    }

    /** A page of 32 KB whose end a C int holds. */
    predicate Admitted(page: int, size: int) {
      0 <= page && (page + 1) * 32768 <= 0x7FFF_FFFF && size == 32768
    }

    /** fMap: the pointer it hands out is that of the page asked for, all of which
        is in the file; without one, and without an error, the file was too short
        and was not to grow. Regions once mapped stay as they are. */
    method FMap(db: Index, page: int, size: int, extend: bool) returns (rc: Rc, data: Option<nat>)
      requires db.Runs(this) && pc == Idle
      modifies this`open, this`deadman, this`regions, this`regionSize, this`pc, this`page, this`extend, this`ret, this`out
      modifies db, regions
      ensures db.Runs(this) && pc == Idle && ret == rc && out == data
      ensures rc == Ok ==> open && deadman && Admitted(page, size)
      ensures rc == Ok && data == None ==> !extend && Saw(db, old(db.trace), TooShort(page))
      ensures data.Some? ==>
        && rc == Ok && data == Some(page * PAGE) && 0 <= page < regions.Length
        && regions[page].Mapped? && regions[page].End() == Wanted(page) <= db.length
      ensures old(regions.Length) <= regions.Length
      ensures forall k | 0 <= k < old(regions.Length) && old(regions[k]).Mapped? :: regions[k] == old(regions[k])
      ensures regions == old(regions) || fresh(regions)
      // Every error has its reason.
      ensures rc == Busy ==> !old(open) && Saw(db, old(db.trace), DeadmanTaken(id))
      ensures rc != Ok && rc != Busy ==>
        || Fell(db, old(db.trace))
        || (rc == IoErrShmMap && !Admitted(page, size))
        || (rc == IoErrShmOpen && !main && !old(open))
      ensures rc == Ok || rc == Busy || rc == IoErrShmMap || rc == IoErrShmSize || rc == NoMem || OpenFails(rc)
      ensures rc != Ok ==> open == old(open) || (Fell(db, old(db.trace)) && !OpenFails(rc))
    {
      hide Led, Bits, State, Found, Failed;
      data := None;
      rc := BeginFMap(db, page, size, extend);
      ghost var begun := db.trace;
      if rc == Ok { rc := ShmOpen(db); }
      GoesOn(db.first, old(db.trace), begun, db.trace, id);
      ghost var opened' := db.trace;
      if rc == Ok { rc, data := MapPage(db, page, size, extend); }
      GoesOn(db.first, old(db.trace), opened', db.trace, id);
    }

    method BeginFMap(db: Index, page: int, size: int, extend: bool) returns (rc: Rc)
      requires db.Runs(this) && pc == Idle
      modifies this`pc, this`page, this`extend, this`ret, this`out, db`trace
      ensures db.Runs(this) && out == None && old(db.trace) <= db.trace
      ensures if rc == Ok then pc == Opening && 0 <= this.page == page <= MAX_PAGE && this.extend == extend && size == PAGE
        else pc == Idle && ret == rc
      ensures rc != Ok ==>
        rc == IoErrShmMap && (Fell(db, old(db.trace)) || !(0 <= page <= MAX_PAGE && size == PAGE))
    {
      hide Led, Bits, Failed;
      var check: bool := *;
      ghost var w, h := db.Now(), State();
      rc, out := Ok, None;
      if page < 0 || page > MAX_PAGE || size != PAGE || !check {
        rc, ret := IoErrShmMap, IoErrShmMap;
      } else {
        this.page, this.extend, pc := page, extend, Opening;
      }
      db.Called(this, w, h, CallMap(id, page, size, extend, check));
    }

    /** shm_open */
    method ShmOpen(db: Index) returns (rc: Rc)
      requires db.Runs(this) && pc == Opening && out == None
      modifies this`open, this`deadman, this`pc, this`ret, db
      ensures db.Runs(this) && old(db.trace) <= db.trace
      ensures if rc == Ok then pc == Sizing && open && deadman else pc == Idle && ret == rc && open == old(open)
      ensures rc == Busy ==> !old(open) && Saw(db, old(db.trace), DeadmanTaken(id))
      ensures rc != Ok && rc != Busy ==>
        OpenFails(rc) && (Fell(db, old(db.trace)) || (rc == IoErrShmOpen && !main && !old(open)))
    {
      hide Led, Bits, Found, Failed;
      if open {
        rc := Check(db);
        return;
      }
      rc := CreateIndex(db);
      if rc != Ok { return; }
      ghost var created := db.trace;
      rc := AdmitsItself(db);
      GoesOn(db.first, old(db.trace), created, db.trace, id);
      ghost var tried := db.trace;
      if rc != Ok { GivesUp(db, rc); }
      GoesOn(db.first, old(db.trace), tried, db.trace, id);
    }

    /** Alone it clears the index; then it joins the live users. */
    method AdmitsItself(db: Index) returns (rc: Rc)
      requires db.Runs(this) && pc == TryDeadman && open
      modifies this`deadman, this`pc, db
      ensures db.Runs(this) && old(db.trace) <= db.trace
      ensures if rc == Ok then pc == Sizing && deadman else pc == GiveUp(rc)
      ensures rc == Busy ==> Saw(db, old(db.trace), DeadmanTaken(id))
      ensures rc != Ok && rc != Busy ==> OpenFails(rc) && Fell(db, old(db.trace))
    {
      hide Led, Bits, Found, Failed;
      rc := TryAlone(db);
      ghost var tried := db.trace;
      if rc == Ok {
        rc := ClearAlone(db);
      } else if rc == Busy {
        rc := Ok;
      }
      GoesOn(db.first, old(db.trace), tried, db.trace, id);
      ghost var cleared := db.trace;
      if rc == Ok { rc := ShareIndex(db); }
      GoesOn(db.first, old(db.trace), cleared, db.trace, id);
    }

    method ClearAlone(db: Index) returns (rc: Rc)
      requires db.Runs(this) && pc == Truncate && open
      modifies this`pc, db
      ensures db.Runs(this) && old(db.trace) <= db.trace
      ensures pc == if rc == Ok then ShareDeadman else GiveUp(rc)
      ensures rc == Ok ==> Saw(db, old(db.trace), Cleared)
      ensures rc != Ok ==> rc == IoErrTruncate && Fell(db, old(db.trace))
    {
      hide Led, Bits, Found, Failed;
      rc := ClearIndex(db);
      ghost var cleared := db.trace;
      var release := UnlockDeadman(db, rc);
      if rc == Ok { rc := release; }
      GoesOn(db.first, old(db.trace), cleared, db.trace, id);
    }

    method Check(db: Index) returns (rc: Rc)
      requires db.Runs(this) && pc == Opening && open
      modifies this`pc, this`ret, db
      ensures db.Runs(this) && old(db.trace) <= db.trace
      ensures if rc == Ok then pc == Sizing && deadman else pc == Idle && ret == rc
      ensures rc != Ok ==> rc == IoErrAccess && Fell(db, old(db.trace))
    {
      hide Led, Bits, Failed;
      db.Interfere(this);
      ghost var asked := db.trace;
      var ok: bool := *;
      ghost var w, h := db.Now(), State();
      if ok { rc, pc := Ok, Sizing; } else { rc, ret, pc := IoErrAccess, IoErrAccess, Idle; }
      db.Did(this, w, h, ok);
      GoesOn(db.first, old(db.trace), asked, db.trace, id);
      Stands(db.first, db.trace, db.Now(), id, State());
    }

    method CreateIndex(db: Index) returns (rc: Rc)
      requires db.Runs(this) && pc == Opening && !open
      modifies this`open, this`pc, this`ret, db
      ensures db.Runs(this) && old(db.trace) <= db.trace
      ensures if rc == Ok then pc == TryDeadman && open else pc == Idle && ret == rc && !open
      ensures rc != Ok ==> rc == IoErrShmOpen && (Fell(db, old(db.trace)) || !main)
    {
      hide Led, Bits, Failed;
      db.Interfere(this);
      ghost var asked := db.trace;
      var ok: bool := *;
      ghost var w, h := db.Now(), State();
      if !main || !ok {
        rc, ret, pc := IoErrShmOpen, IoErrShmOpen, Idle;
      } else {
        rc, open, pc := Ok, true, TryDeadman;
        db.table := db.table[id := multiset{}];
      }
      db.Did(this, w, h, ok);
      GoesOn(db.first, old(db.trace), asked, db.trace, id);
    }

    /** The deadman byte, exclusively: no live users. */
    method TryAlone(db: Index) returns (rc: Rc)
      requires db.Runs(this) && pc == TryDeadman && open
      modifies this`pc, db
      ensures db.Runs(this) && old(db.trace) <= db.trace
      ensures pc == match rc case Ok => Truncate case Busy => ShareDeadman case _ => GiveUp(rc)
      ensures rc != Ok && rc != Busy ==> rc == IoErrLock && Fell(db, old(db.trace))
    {
      hide Led, Bits, Failed;
      db.Interfere(this);
      ghost var asked := db.trace;
      Stands(db.first, db.trace, db.Now(), id, State());
      hide WellFormed, ViewsFit, Refused;
      var check: bool := *;
      ghost var w, h := db.Now(), State();
      rc := db.CiLock(id, DMS_RANGE, true, check);
      pc := match rc case Ok => Truncate case Busy => ShareDeadman case _ => GiveUp(rc);
      db.Did(this, w, h, check);
      GoesOn(db.first, old(db.trace), asked, db.trace, id);
    }

    method ClearIndex(db: Index) returns (rc: Rc)
      requires db.Runs(this) && pc == Truncate && open
      modifies this`pc, db
      ensures db.Runs(this) && pc == ReleaseDeadman(rc) && old(db.trace) <= db.trace
      ensures rc == Ok ==> Saw(db, old(db.trace), Cleared)
      ensures rc != Ok ==> rc == IoErrTruncate && Fell(db, old(db.trace))
    {
      hide Led, Bits, Failed, Found;
      db.Interfere(this);
      ghost var asked := db.trace;
      var ok: bool := *;
      ghost var w, h := db.Now(), State();
      rc := if ok then Ok else IoErrTruncate;
      if ok { db.length := 0; }
      pc := ReleaseDeadman(rc);
      db.Did(this, w, h, ok);
      if ok { SawNow(db, asked, Cleared); }
      GoesOn(db.first, old(db.trace), asked, db.trace, id);
    }

    method UnlockDeadman(db: Index, ghost truncated: Rc) returns (release: Rc)
      requires db.Runs(this) && pc == ReleaseDeadman(truncated) && open
      modifies this`pc, db
      ensures db.Runs(this) && old(db.trace) <= db.trace && release == Ok
      ensures pc == if truncated == Ok then ShareDeadman else GiveUp(truncated)
    {
      hide Led, Bits, Fires;
      db.Interfere(this);
      ghost var asked := db.trace;
      HoldsDeadman(db.first, db.trace, db.Now(), id, State());
      Stands(db.first, db.trace, db.Now(), id, State());
      hide WellFormed, ViewsFit;
      ghost var w, h := db.Now(), State();
      hide CanUnlock;
      release := db.CiUnlock(id, DMS_RANGE);
      pc := if truncated != Ok then GiveUp(truncated) else if release == Ok then ShareDeadman else GiveUp(release);
      ReleaseFires(w, id, h, truncated, release, db.table, State());
      db.Did(this, w, h, true);
      Chains(old(db.trace), asked, db.trace);
    }

    /** The deadman byte, with the other live users. */
    method ShareIndex(db: Index) returns (rc: Rc)
      requires db.Runs(this) && pc == ShareDeadman && open
      modifies this`pc, this`deadman, db
      ensures db.Runs(this) && old(db.trace) <= db.trace
      ensures if rc == Ok then pc == Sizing && deadman else pc == GiveUp(rc)
      ensures rc == Busy ==> Saw(db, old(db.trace), DeadmanTaken(id))
      ensures rc != Ok && rc != Busy ==> rc == IoErrLock && Fell(db, old(db.trace))
    {
      hide Led, Bits, Failed, Found;
      db.Interfere(this);
      ghost var asked := db.trace;
      if Refused(db.table, Held(DMS_RANGE, false)) { RefusedByClearing(db.first, asked, db.Now(), id, State()); }
      Stands(db.first, db.trace, db.Now(), id, State());
      hide WellFormed, ViewsFit, Refused;
      var check: bool := *;
      ghost var w, h := db.Now(), State();
      rc := db.CiLock(id, DMS_RANGE, false, check);
      if rc == Ok { deadman, pc := true, Sizing; } else { pc := GiveUp(rc); }
      db.Did(this, w, h, check);
      GoesOn(db.first, old(db.trace), asked, asked, id);
      GoesOn(db.first, old(db.trace), asked, db.trace, id);
    }

    method GivesUp(db: Index, rc: Rc)
      requires db.Runs(this) && pc == GiveUp(rc) && open
      modifies this`open, this`pc, this`ret, db
      ensures db.Runs(this) && pc == Idle && ret == rc && !open && old(db.trace) <= db.trace
    {
      hide Led, Bits;
      db.Interfere(this);
      ghost var asked := db.trace;
      ghost var w, h := db.Now(), State();
      db.table := db.table - {id};
      open, pc, ret := false, Idle, rc;
      db.Did(this, w, h, true);
      Chains(old(db.trace), asked, db.trace);
    }

    /** The mapping of one page, once the index is open. */
    method MapPage(db: Index, page: nat, size: int, extend: bool) returns (rc: Rc, data: Option<nat>)
      requires db.Runs(this) && pc == Sizing && this.page == page <= MAX_PAGE && this.extend == extend && size == PAGE
      requires open && deadman && out == None
      modifies this`regions, this`regionSize, this`pc, this`ret, this`out, db, regions
      ensures db.Runs(this) && pc == Idle && ret == rc && out == data && old(db.trace) <= db.trace
      ensures rc == Ok && data == None ==> !extend && Saw(db, old(db.trace), TooShort(page))
      ensures rc != Ok ==> (rc == IoErrShmMap || rc == IoErrShmSize || rc == NoMem) && Fell(db, old(db.trace))
      ensures data.Some? ==>
        && rc == Ok && data == Some(page * PAGE) && 0 <= page < regions.Length
        && regions[page].Mapped? && regions[page].End() == Wanted(page) <= db.length
      ensures old(regions.Length) <= regions.Length
      ensures forall k | 0 <= k < old(regions.Length) && old(regions[k]).Mapped? :: regions[k] == old(regions[k])
      ensures regions == old(regions) || fresh(regions)
    {
      hide Led, Bits, State, Found, Failed;
      data := None;
      var fits: bool;
      rc, fits := Size(db, page, size, extend);
      if !fits { return; }
      ghost var sized := db.trace;
      rc, data := FindRegion(db, page);
      GoesOn(db.first, old(db.trace), sized, db.trace, id);
      ghost var found := db.trace;
      if rc == Ok && data == None { rc, data := NewView(db, page); }
      GoesOn(db.first, old(db.trace), found, db.trace, id);
      if data.Some? { InFile(db, page); }
    }

    lemma InFile(db: Index, page: nat)
      requires db.Runs(this) && page < regions.Length && regions[page].Mapped?
      ensures regions[page].data == page * PAGE && regions[page].End() == Wanted(page) <= db.length
    {
      hide Led;
      Stands(db.first, db.trace, db.Now(), id, State());
      PageIsInFile(State(), page, db.length, db.granule);
    }

    /** Whether the page is in the file, or the file is to grow. */
    method Size(db: Index, page: nat, size: int, extend: bool) returns (rc: Rc, fits: bool)
      requires db.Runs(this) && pc == Sizing && this.page == page && this.extend == extend && size == PAGE && out == None
      modifies this`pc, this`ret, db
      ensures db.Runs(this) && old(db.trace) <= db.trace
      ensures if fits then rc == Ok && pc == Growing else pc == Idle && ret == rc
      ensures !fits && rc == Ok ==> !extend && Saw(db, old(db.trace), TooShort(page))
      ensures rc != Ok ==> rc == IoErrShmSize && Fell(db, old(db.trace))
    {
      hide Led, Bits, Failed, Found;
      db.Interfere(this);
      ghost var asked := db.trace;
      Stands(db.first, db.trace, db.Now(), id, State());
      hide ViewsFit;
      var ok: bool := *;
      ghost var w, h := db.Now(), State();
      rc := if regionSize != 0 && regionSize != size then IoErrShmMap else if !ok then IoErrShmSize else Ok;
      fits := rc == Ok && (db.length >= Wanted(page) || extend);
      if fits { pc := Growing; } else { pc, ret := Idle, rc; }
      db.Did(this, w, h, ok);
      if !fits && rc == Ok { SawNow(db, asked, TooShort(page)); }
      GoesOn(db.first, old(db.trace), asked, db.trace, id);
    }

    /** The array grows to hold the page, which may be mapped already. */
    method FindRegion(db: Index, page: nat) returns (rc: Rc, data: Option<nat>)
      requires db.Runs(this) && pc == Growing && this.page == page && out == None
      modifies this`regions, this`regionSize, this`pc, this`ret, this`out, db`trace
      ensures db.Runs(this) && (out == data || pc == Mapping) && old(db.trace) <= db.trace
      ensures rc != Ok ==> rc == NoMem && Fell(db, old(db.trace))
      ensures if rc == Ok then page < regions.Length && data == if regions[page].Mapped? then Some(regions[page].data) else None
        else data == None
      ensures if rc == Ok && data == None then pc == Mapping && out == None else pc == Idle && ret == rc
      ensures old(regions.Length) <= regions.Length
      ensures forall k | 0 <= k < old(regions.Length) :: regions[k] == old(regions[k])
      ensures regions == old(regions) || fresh(regions)
    {
      hide Led, Bits, Fires, Grown, Failed;
      var memory: bool := *;
      ghost var w, h := db.Now(), State();
      data := None;
      if page >= regions.Length && !memory {
        rc := NoMem;
        pc, ret := Idle, rc;
        GrowFires(w, id, h, memory);
        db.Did(this, w, h, memory);
        return;
      }
      var grew := Grow(page);
      rc := Ok;
      data := if regions[page].Mapped? then Some(regions[page].data) else None;
      Reaches(db, page, regions[page], w, h, memory);
    }

    /** With the array grown, the answer, or the way to a new view. */
    method Reaches(db: Index, page: nat, region: Region, ghost w: World, ghost h: Handle, ghost memory: bool)
      requires Led(db.first, db.trace, w, id, h) && h.pc == Growing && h.page == page && w == db.Now()
      requires (memory || page < |h.regions|) && out == None
      requires State() == Larger(h) && page < |Larger(h).regions| && Larger(h).regions[page] == region
      modifies this`pc, this`ret, this`out, db`trace
      ensures db.Runs(this) && old(db.trace) <= db.trace
      ensures if region.Mapped? then pc == Idle && ret == Ok && out == Some(region.data) else pc == Mapping && out == None
    {
      hide Led, Bits, Fires, Grown, Larger, State;
      GrowFires(w, id, h, memory);
      if region.Mapped? { HandsOut(db, region.data, w, h, memory); } else { GoesToMap(db, w, h, memory); }
    }

    method HandsOut(db: Index, data: nat, ghost w: World, ghost h: Handle, ghost memory: bool)
      requires Led(db.first, db.trace, w, id, h) && w == db.Now()
      requires Fires(w, id, h, memory, w, Return(State().(out := Some(data)), Ok))
      modifies this`pc, this`ret, this`out, db`trace
      ensures db.Runs(this) && old(db.trace) <= db.trace && pc == Idle && ret == Ok && out == Some(data)
    {
      hide Led, Bits, Fires;
      out, pc, ret := Some(data), Idle, Ok;
      db.Did(this, w, h, memory);
    }

    method GoesToMap(db: Index, ghost w: World, ghost h: Handle, ghost memory: bool)
      requires Led(db.first, db.trace, w, id, h) && w == db.Now()
      requires Fires(w, id, h, memory, w, State().(pc := Mapping))
      modifies this`pc, db`trace
      ensures db.Runs(this) && old(db.trace) <= db.trace && pc == Mapping
    {
      hide Led, Bits, Fires;
      pc := Mapping;
      db.Did(this, w, h, memory);
    }

    method NewView(db: Index, page: nat) returns (rc: Rc, data: Option<nat>)
      requires db.Runs(this) && pc == Mapping && this.page == page && out == None
      requires page < regions.Length && !regions[page].Mapped?
      modifies this`pc, this`ret, this`out, db, regions
      ensures db.Runs(this) && pc == Idle && ret == rc && out == data && old(db.trace) <= db.trace
      ensures if rc == Ok then regions[page].Mapped? && data == Some(regions[page].data) else data == None
      ensures rc != Ok ==> rc == IoErrShmMap && Fell(db, old(db.trace))
      ensures forall k | 0 <= k < regions.Length && k != page :: regions[k] == old(regions[k])
    {
      hide Led, Bits, Failed;
      db.Interfere(this);
      ghost var asked := db.trace;
      var ok: bool := *;
      ghost var w, h := db.Now(), State();
      data := None;
      if !ok {
        rc := IoErrShmMap;
        pc, ret := Idle, rc;
        db.Did(this, w, h, false);
        GoesOn(db.first, old(db.trace), asked, db.trace, id);
        return;
      }
      // A larger mapping grows the file.
      if db.length < Wanted(page) { db.length := Wanted(page); }
      pc := Viewing;
      db.Did(this, w, h, true);
      Chains(old(db.trace), asked, db.trace);
      ghost var mapped := db.trace;
      rc, data := MapView(db, page);
      GoesOn(db.first, old(db.trace), mapped, db.trace, id);
    }

    method MapView(db: Index, page: nat) returns (rc: Rc, data: Option<nat>)
      requires db.Runs(this) && pc == Viewing && this.page == page && out == None && page < regions.Length
      modifies this`pc, this`ret, this`out, db, regions
      ensures db.Runs(this) && pc == Idle && ret == rc && out == data && old(db.trace) <= db.trace
      ensures if rc == Ok then regions[page].Mapped? && data == Some(regions[page].data) else data == None
      ensures rc != Ok ==> rc == IoErrShmMap && Fell(db, old(db.trace))
      ensures forall k | 0 <= k < regions.Length && k != page :: regions[k] == old(regions[k])
    {
      hide Led, Bits, Fires, WellFormed, ViewsFit, Failed;
      db.Interfere(this);
      ghost var asked := db.trace;
      Stands(db.first, db.trace, db.Now(), id, State());
      var ok: bool := *;
      rc, data := Viewed(db, page, ok);
      GoesOn(db.first, old(db.trace), asked, db.trace, id);
    }

    method Viewed(db: Index, page: nat, ok: bool) returns (rc: Rc, data: Option<nat>)
      requires db.Runs(this) && pc == Viewing && this.page == page && out == None && page < regions.Length && db.granule > 0
      modifies this`pc, this`ret, this`out, db`trace, regions
      ensures db.Runs(this) && pc == Idle && ret == rc && out == data && old(db.trace) <= db.trace
      ensures rc == (if ok then Ok else IoErrShmMap) && (!ok ==> Fell(db, old(db.trace)))
      ensures if rc == Ok then regions[page].Mapped? && data == Some(regions[page].data) else data == None
      ensures forall k | 0 <= k < regions.Length && k != page :: regions[k] == old(regions[k])
    {
      hide Led, Bits, Fires, Failed;
      ghost var w, h := db.Now(), State();
      data := None;
      if !ok {
        rc := IoErrShmMap;
      } else {
        var offset := page * PAGE;
        var aligned := offset - offset % db.granule;
        rc := Ok;
        regions[page] := Mapped(aligned, offset - aligned + PAGE, aligned + (offset - aligned));
        data := Some(regions[page].data);
        assert regions[..] == h.regions[page := regions[page]];
      }
      out, pc, ret := data, Idle, rc;
      ViewFires(w, id, h, ok, State());
      db.Did(this, w, h, ok);
    }

    /** The growth of the region array: reallocated, and what is new cleared. */
    method Grow(page: nat) returns (grew: bool)
      modifies this`regions, this`regionSize
      ensures grew <==> page >= old(regions.Length)
      ensures regions[..] == Grown(old(regions[..]), page)
      ensures page < regions.Length && old(regions.Length) <= regions.Length
      ensures forall k | 0 <= k < old(regions.Length) :: regions[k] == old(regions[k])
      ensures if grew then fresh(regions) && regionSize == PAGE else regions == old(regions) && regionSize == old(regionSize)
    {
      grew := page >= regions.Length;
      if grew {
        var larger := new Region[page + 1];
        var i := 0;
        while i < regions.Length
          invariant 0 <= i <= regions.Length && regions == old(regions)
          invariant larger[..i] == regions[..i] && regions[..] == old(regions[..])
        {
          larger[i] := regions[i];
          i := i + 1;
        }
        while i < larger.Length
          invariant regions.Length <= i <= larger.Length && regions == old(regions) && regions[..] == old(regions[..])
          invariant larger[..regions.Length] == regions[..]
          invariant forall k | regions.Length <= k < i :: larger[k] == Unmapped
        {
          larger[i] := Unmapped;
          i := i + 1;
        }
        assert larger[..] == Grown(regions[..], page);
        regions, regionSize := larger, PAGE;
      }
    }

    // --------------------------------------------------------------- fUnmap

    /** fUnmap leaves no view, no lock and no open index. */
    method FUnmap(db: Index, remove: bool) returns (rc: Rc)
      requires db.Runs(this) && pc == Idle
      modifies this`open, this`deadman, this`shmShared, this`shmExclusive, this`regions, this`regionSize, this`pc, this`ret
      modifies db, regions
      ensures db.Runs(this) && pc == Idle && ret == rc && !open && id !in db.table
      ensures old(open) ==> regions.Length == 0 && !deadman && shmShared == 0 && shmExclusive == 0
      ensures !old(open) ==> rc == Ok && regions == old(regions) && regions[..] == old(regions[..])
      ensures rc != Ok ==> (rc == IoErrClose || (rc == IoErrDelete && remove)) && Fell(db, old(db.trace))
      // A removal leaves an empty index, unless no handle was had to delete it with.
      ensures old(open) && remove && rc == Ok ==>
        Saw(db, old(db.trace), Cleared) || NoHandle(old(db.trace), db.trace, id)
    {
      hide Led, Bits, Found, Failed, NoHandle;
      ghost var w, h := db.Now(), State();
      if !open {
        rc, ret := Ok, Ok;
        db.Called(this, w, h, CallUnmap(id, remove));
      } else {
        pc := Unmapping(remove, 0);
        db.Called(this, w, h, CallUnmap(id, remove));
        ghost var called := db.trace;
        UnmapAll(db, remove);
        GoesOn(db.first, old(db.trace), called, db.trace, id);
        ghost var unmapped := db.trace;
        rc := CloseIndex(db, remove);
        GoesOn(db.first, old(db.trace), unmapped, db.trace, id);
        ghost var closed := db.trace;
        if remove && rc == Ok {
          rc := DeleteIndex(db);
          NoHandleInPart(old(db.trace), closed, db.trace, id);
        }
        GoesOn(db.first, old(db.trace), closed, db.trace, id);
      }
      Stands(db.first, db.trace, db.Now(), id, State());
    }

    /** The loop over the regions, and the array given up. */
    method UnmapAll(db: Index, remove: bool)
      requires db.Runs(this) && pc == Unmapping(remove, 0) && open
      modifies this`regions, this`regionSize, this`pc, db, regions
      ensures db.Runs(this) && pc == Dropping(remove) && old(db.trace) <= db.trace
      ensures regions.Length == 0 && regionSize == 0 && fresh(regions)
      ensures forall k | 0 <= k < old(regions.Length) :: old(regions)[k] == Unmapped
    {
      hide Led, Bits, State;
      var i: nat := 0;
      while i < regions.Length
        invariant i <= regions.Length && regions == old(regions) && db.Runs(this) && pc == Unmapping(remove, i)
        invariant old(db.trace) <= db.trace
        invariant forall k | 0 <= k < i :: regions[k] == Unmapped
      {
        ghost var before := db.trace;
        UnmapOne(db, remove, i);
        Chains(old(db.trace), before, db.trace);
        i := i + 1;
      }
      ghost var unmapped := db.trace;
      DropRegions(db, remove);
      Chains(old(db.trace), unmapped, db.trace);
    }

    method DropRegions(db: Index, remove: bool)
      requires db.Runs(this) && pc == Unmapping(remove, regions.Length) && open
      modifies this`regions, this`regionSize, this`pc, db`trace
      ensures db.Runs(this) && pc == Dropping(remove) && old(db.trace) <= db.trace
      ensures regions.Length == 0 && regionSize == 0 && fresh(regions)
    {
      hide Led, Bits;
      ghost var w, h := db.Now(), State();
      regions, regionSize := new Region[0], 0;
      pc := Dropping(remove);
      assert regions[..] == [];
      db.Did(this, w, h, true);
    }

    method UnmapOne(db: Index, remove: bool, i: nat)
      requires db.Runs(this) && pc == Unmapping(remove, i) && i < regions.Length
      modifies this`pc, db, regions
      ensures db.Runs(this) && pc == Unmapping(remove, i + 1) && regions[i] == Unmapped && old(db.trace) <= db.trace
      ensures forall k | 0 <= k < regions.Length && k != i :: regions[k] == old(regions[k])
    {
      hide Led, Bits;
      db.Interfere(this);
      ghost var asked := db.trace;
      ghost var w, h := db.Now(), State();
      if regions[i].Mapped? { regions[i] := Unmapped; }
      pc := Unmapping(remove, i + 1);
      assert regions[..] == h.regions[i := Unmapped];
      db.Did(this, w, h, true);
      Chains(old(db.trace), asked, db.trace);
    }

    /** Closing releases every remaining byte lock, the deadman byte among them. */
    method CloseIndex(db: Index, remove: bool) returns (rc: Rc)
      requires db.Runs(this) && pc == Dropping(remove)
      modifies this`open, this`deadman, this`shmShared, this`shmExclusive, this`pc, this`ret, db
      ensures db.Runs(this) && !open && !deadman && shmShared == 0 && shmExclusive == 0 && old(db.trace) <= db.trace
      ensures if remove && rc == Ok then pc == Removing else pc == Idle && ret == rc
      ensures rc != Ok ==> rc == IoErrClose && Fell(db, old(db.trace))
    {
      hide Led, Bits, State, Failed;
      db.Interfere(this);
      ghost var asked := db.trace;
      var ok: bool := *;
      rc := Closed(db, remove, ok);
      GoesOn(db.first, old(db.trace), asked, db.trace, id);
    }

    method Closed(db: Index, remove: bool, ok: bool) returns (rc: Rc)
      requires db.Runs(this) && pc == Dropping(remove)
      modifies this`open, this`deadman, this`shmShared, this`shmExclusive, this`pc, this`ret, db`table, db`trace
      ensures db.Runs(this) && !open && !deadman && shmShared == 0 && shmExclusive == 0
      ensures if remove && rc == Ok then pc == Removing else pc == Idle && ret == rc
      ensures old(db.trace) <= db.trace && (rc != Ok ==> rc == IoErrClose && Fell(db, old(db.trace)))
    {
      hide Led, Bits, Fires, Failed;
      ghost var w, h := db.Now(), State();
      db.table := db.table - {id};
      NoBits();
      open, deadman, shmShared, shmExclusive := false, false, 0, 0;
      rc := if ok then Ok else IoErrClose;
      if remove && ok { pc := Removing; } else { pc, ret := Idle, rc; }
      DropFires(w, id, h, ok, remove, State());
      db.Did(this, w, h, ok);
    }

    /** The delete handle shares with nobody: while the index is open elsewhere
        there is none, and the file is left for recovery. */
    method DeleteIndex(db: Index) returns (rc: Rc)
      requires db.Runs(this) && pc == Removing && !open
      modifies this`pc, this`ret, db
      ensures db.Runs(this) && pc == Idle && ret == rc && old(db.trace) <= db.trace
      ensures rc != Ok ==> rc == IoErrDelete && Fell(db, old(db.trace))
      ensures rc == Ok ==> Saw(db, old(db.trace), Cleared) || NoHandle(old(db.trace), db.trace, id)
    {
      hide Led, Bits, Failed, Found;
      db.Interfere(this);
      ghost var asked := db.trace;
      var granted: bool, deleted: bool := *, *;
      if db.table != map[] { granted := false; }
      ghost var w, h := db.Now(), State();
      rc := if granted && !deleted then IoErrDelete else Ok;
      pc, ret := Idle, rc;
      if granted {
        if deleted { db.length := 0; }
        db.Did(this, w, h, deleted);
        if deleted { SawNow(db, asked, Cleared); }
      } else {
        db.Called(this, w, h, NoDelete(id));
        assert db.trace[|asked|] == NoDelete(id);
      }
      GoesOn(db.first, old(db.trace), asked, db.trace, id);
    }
  }
}
