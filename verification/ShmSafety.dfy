/** What follows in every run of the WAL index: no mapped page is ever cut off,
    and what the slot masks say about the lock table and about one another. */
module ShmSafety {
  import opened Options
  import opened ByteLocks
  import opened ShmProtocol
  import opened ShmInvariant

  // ------------------------------------------------------------- the regions

  /** A mapped page lies inside the file, its pointer denotes the page's own
      offset, and its handle keeps everybody from clearing the index. */
  lemma ViewsStayInside(w: World, acts: seq<Action>, id: Id, k: nat)
    requires Initial(w)
    requires var t := Exec(w, acts); id in t.handles && k < |t.handles[id].regions| && t.handles[id].regions[k].Mapped?
    ensures var t := Exec(w, acts);
      var r := t.handles[id].regions[k];
      && t.granule > 0 && r.data == k * PAGE && r.start <= r.data && r.start % t.granule == 0
      && r.End() == Wanted(k) <= t.length
      && id in t.table && Held(DMS_RANGE, false) in t.table[id]
  {
    ReachableInv(w, acts);
    Own(Exec(w, acts), id);
    assert ViewFits(Exec(w, acts).handles[id].regions[k], k, Exec(w, acts).length, Exec(w, acts).granule);
  }

  /** The index gets shorter only by a handle that holds the deadman byte
      exclusively, or when nobody has it open; and then nobody has a view. */
  lemma ClearedOnlyUnused(w: World, acts: seq<Action>, a: Action)
    requires Initial(w)
    requires Apply(Exec(w, acts), a).length < Exec(w, acts).length
    ensures var t := Exec(w, acts);
      && a.Fire? && (t.table == map[] || (a.id in t.table && Held(DMS_RANGE, true) in t.table[a.id]))
      && forall o | o in t.handles :: t.handles[o].regions == []
  {
    var t := Exec(w, acts);
    ReachableInv(w, acts);
    ShrinksByFire(t, a);
    ShrinksAlone(t, a.id, a.ok);
    forall o | o in t.handles ensures t.handles[o].regions == [] { Own(t, o); }
  }

  lemma ShrinksByFire(w: World, a: Action)
    requires Apply(w, a).length < w.length
    ensures a.Fire? && a.id in w.handles && LengthAfter(w, w.handles[a.id], a.ok) < w.length
  {
    hide Next, TableAfter, ShmLock;
  }

  predicate Detaches(acts: seq<Action>, id: Id) {
    exists a | a in acts :: a.id == id && (a.CallUnmap? || a.Close?)
  }

  /** Every step keeps the views a handle has, unless it unmaps or closes. */
  lemma StepKeepsView(w: World, a: Action, id: Id, k: nat)
    requires Inv(w) && id in w.handles && !Unmaps(w.handles[id].pc)
    requires k < |w.handles[id].regions| && w.handles[id].regions[k].Mapped?
    requires a.id == id ==> !a.CallUnmap? && !a.Close?
    ensures var w' := Apply(w, a);
      && id in w'.handles && !Unmaps(w'.handles[id].pc)
      && k < |w'.handles[id].regions| && w'.handles[id].regions[k] == w.handles[id].regions[k]
  {
    Own(w, id);
    hide Inv, LocksFit, ViewsFit, Apply;
    if a.id != id {
      OthersLeaveIt(w, a, id);
    } else if a.Fire? {
      FireKeepsView(w, id, a.ok, k);
      FireApplies(w, id, a.ok);
    } else {
      CallKeepsView(w, a);
    }
  }

  lemma FireApplies(w: World, id: Id, ok: bool)
    requires id in w.handles
    ensures Apply(w, Fire(id, ok)) == FireAt(w, id, w.handles[id], ok)
  {
  }

  /** A handle's fields change by its own steps alone. */
  lemma OthersLeaveIt(w: World, a: Action, id: Id)
    requires id in w.handles && a.id != id
    ensures id in Apply(w, a).handles && Apply(w, a).handles[id] == w.handles[id]
  {
    hide Next, TableAfter, ShmLock, BeginMap, Answered, LengthAfter;
  }

  lemma CallKeepsView(w: World, a: Action)
    requires a.id in w.handles && !Unmaps(w.handles[a.id].pc) && !a.CallUnmap? && !a.Close? && !a.Fire?
    ensures var w' := Apply(w, a);
      a.id in w'.handles && !Unmaps(w'.handles[a.id].pc) && w'.handles[a.id].regions == w.handles[a.id].regions
  {
    hide ShmLock;
  }

  lemma FireKeepsView(w: World, id: Id, ok: bool, k: nat)
    requires id in w.handles && WellFormed(w.handles[id], w.length) && !Unmaps(w.handles[id].pc)
    requires k < |w.handles[id].regions| && w.handles[id].regions[k].Mapped?
    ensures var h' := FireAt(w, id, w.handles[id], ok).handles[id];
      !Unmaps(h'.pc) && k < |h'.regions| && h'.regions[k] == w.handles[id].regions[k]
  {
    var h, a := w.handles[id], Answered(w, id, w.handles[id].pc, ok);
    if h.pc == Growing { GrownKeepsRegions(h.regions, h.page); }
    NextKeepsView(h, a, w.length, k);
    hide Next, TableAfter, Answered;
  }

  lemma NextKeepsView(h: Handle, a: Reply, length: nat, k: nat)
    requires WellFormed(h, length) && !Unmaps(h.pc) && k < |h.regions| && h.regions[k].Mapped?
    ensures !Unmaps(Next(h, a).pc) && k < |Next(h, a).regions| && Next(h, a).regions[k] == h.regions[k]
  {
    if h.pc == Growing { GrownKeepsRegions(h.regions, h.page); }
    hide View, Grown;
  }

  /** Handle `id` has this view of page `k`, and no unmapping under way. */
  ghost predicate HasView(w: World, id: Id, k: nat, r: Region) {
    id in w.handles && !Unmaps(w.handles[id].pc) && k < |w.handles[id].regions| && w.handles[id].regions[k] == r
  }

  /** A page once mapped keeps its view, inside the file, whatever this handle
      and all others do, until this handle unmaps or closes. */
  lemma MappedPagesStay(w: World, acts: seq<Action>, more: seq<Action>, id: Id, k: nat, r: Region)
    requires Initial(w) && !Detaches(more, id) && r.Mapped? && HasView(Exec(w, acts), id, k, r)
    ensures HasView(Exec(w, acts + more), id, k, r) && r.End() <= Exec(w, acts + more).length
  {
    ViewStays(w, acts, more, id, k, r);
    hide Exec;
    ViewsStayInside(w, acts + more, id, k);
  }

  lemma {:induction false} ViewStays(w: World, acts: seq<Action>, more: seq<Action>, id: Id, k: nat, r: Region)
    requires Initial(w) && !Detaches(more, id) && r.Mapped? && HasView(Exec(w, acts), id, k, r)
    ensures HasView(Exec(w, acts + more), id, k, r)
    decreases |more|
  {
    hide Initial, Exec, HasView, Inv, Apply;
    if more == [] {
      assert acts + more == acts;
    } else {
      var less, a := more[..|more|-1], more[|more|-1];
      assert forall x | x in less :: x in more;
      assert a in more;
      ViewStays(w, acts, less, id, k, r);
      ExecGoesOn(w, acts, more);
      ReachableInv(w, acts + less);
      ViewStaysOnce(Exec(w, acts + less), a, id, k, r);
    }
  }

  lemma ExecGoesOn(w: World, acts: seq<Action>, more: seq<Action>)
    requires more != []
    ensures Exec(w, acts + more) == Apply(Exec(w, acts + more[..|more|-1]), more[|more|-1])
  {
    hide Apply;
    assert (acts + more)[..|acts + more|-1] == acts + more[..|more|-1];
  }

  lemma ViewStaysOnce(w: World, a: Action, id: Id, k: nat, r: Region)
    requires Inv(w) && r.Mapped? && HasView(w, id, k, r) && (a.id == id ==> !a.CallUnmap? && !a.Close?)
    ensures HasView(Apply(w, a), id, k, r)
  {
    hide Inv, Apply;
    StepKeepsView(w, a, id, k);
  }

  /** When fMap hands out a pointer it denotes the page asked for, and the whole
      page is in the file. */
  lemma PointerIsThePage(w: World, acts: seq<Action>, id: Id, ok: bool)
    requires Initial(w)
    requires var t := Exec(w, acts); id in t.handles && Maps(t.handles[id].pc)
    requires Apply(Exec(w, acts), Fire(id, ok)).handles[id].out.Some?
    ensures var t := Exec(w, acts);
      var page, u := t.handles[id].page, Apply(t, Fire(id, ok));
      && u.handles[id].pc == Idle && u.handles[id].ret == Ok && u.handles[id].out == Some(page * PAGE)
      && 0 <= page < |u.handles[id].regions| && u.handles[id].regions[page].Mapped? && Wanted(page) <= u.length
  {
    hide Exec, Apply, Inv, LocksFit, WellFormed, Next, TableAfter, Answered, ViewFits, LengthAfter;
    var t := Exec(w, acts);
    var u, h := Apply(t, Fire(id, ok)), t.handles[id];
    ReachableInv(w, acts);
    ApplyKeepsInv(t, Fire(id, ok));
    FireApplies(t, id, ok);
    Own(t, id);
    Own(u, id);
    GivesPointer(h, Answered(t, id, h.pc, ok), t.length);
    PointerFits(u.handles[id].regions[h.page], h.page, u.length, u.granule);
  }

  lemma PointerFits(r: Region, page: nat, length: nat, granule: nat)
    requires r.Mapped? && granule > 0 && ViewFits(r, page, length, granule)
    ensures r.data == page * PAGE && Wanted(page) <= length
  {
  }

  lemma GivesPointer(h: Handle, a: Reply, length: nat)
    requires WellFormed(h, length) && Maps(h.pc) && Next(h, a).out.Some?
    ensures var h' := Next(h, a);
      && h'.pc == Idle && h'.ret == Ok && 0 <= h.page < |h'.regions| && h'.regions[h.page].Mapped?
      && h'.out == Some(h'.regions[h.page].data)
  {
    if h.pc == Growing { GrownKeepsRegions(h.regions, h.page); }
    hide View, Grown;
  }

  /** When fMap returns once the index is open: without a pointer and without an
      error exactly if the file is too short for the page and is not to grow; with
      an error only if a call of the system failed. */
  lemma MapAnswers(w: World, acts: seq<Action>, id: Id, ok: bool)
    requires Initial(w)
    requires var t := Exec(w, acts); id in t.handles && Maps(t.handles[id].pc)
    ensures var t := Exec(w, acts);
      var h, h' := t.handles[id], Apply(t, Fire(id, ok)).handles[id];
      && (h'.pc == Idle && h'.ret == Ok && h'.out == None <==>
            ok && h.pc == Sizing && t.length < (h.page + 1) * PAGE && !h.extend)
      && (h'.pc == Idle && h'.ret != Ok ==>
            !ok && h'.ret == match h.pc case Sizing => IoErrShmSize case Growing => NoMem case _ => IoErrShmMap)
      && (h'.pc != Idle ==> Maps(h'.pc) && h'.pc != Sizing)
  {
    var t := Exec(w, acts);
    ReachableInv(w, acts);
    Own(t, id);
    hide Exec, Inv, LocksFit, ViewsFit;
    FireApplies(t, id, ok);
    MapReturns(t.handles[id], Answered(t, id, t.handles[id].pc, ok), t.length);
    hide Apply, Next, WellFormed;
  }

  lemma MapReturns(h: Handle, a: Reply, length: nat)
    requires WellFormed(h, length) && Maps(h.pc) && a.granule > 0
    ensures var h' := Next(h, a);
      && (h'.pc == Idle && h'.ret == Ok && h'.out == None <==>
            a.ok && h.pc == Sizing && a.length < (h.page + 1) * PAGE && !h.extend)
      && (h'.pc == Idle && h'.ret != Ok ==>
            !a.ok && h'.ret == match h.pc case Sizing => IoErrShmSize case Growing => NoMem case _ => IoErrShmMap)
      && (h'.pc != Idle ==> Maps(h'.pc) && h'.pc != Sizing)
  {
    hide View, Grown;
    if h.pc == Growing { GrownKeepsRegions(h.regions, h.page); }
  }

  /** What the owner of the handle last asked of fUnmap: to remove the index? */
  predicate ToRemove(w: World, acts: seq<Action>, id: Id)
    decreases |acts|
  {
    acts != []
    && var t, a := Exec(w, acts[..|acts|-1]), acts[|acts|-1];
    if a.CallUnmap? && a.id == id && id in t.handles && t.handles[id].pc == Idle then a.remove
    else ToRemove(w, acts[..|acts|-1], id)
  }

  predicate Removes(pc: Pc, remove: bool) {
    (pc.Unmapping? ==> pc.remove == remove) && (pc.Dropping? ==> pc.removing == remove) && (pc.Removing? ==> remove)
  }

  lemma NextRemoves(h: Handle, a: Reply, remove: bool)
    requires Removes(h.pc, remove)
    ensures Removes(Next(h, a).pc, remove)
  {
    if Opens(h.pc) { OpeningStays(h, a); }
    if Maps(h.pc) { MappingStays(h, a); }
    hide OpenNext, MapNext;
  }

  lemma OpeningStays(h: Handle, a: Reply)
    requires Opens(h.pc)
    ensures !Unmaps(OpenNext(h, a).pc)
  {
  }

  lemma MappingStays(h: Handle, a: Reply)
    requires Maps(h.pc)
    ensures !Unmaps(MapNext(h, a).pc)
  {
    hide Grown, View;
  }

  lemma StepRemoves(w: World, a: Action, id: Id, remove: bool)
    requires id in Apply(w, a).handles && (id in w.handles ==> Removes(w.handles[id].pc, remove))
    ensures Removes(Apply(w, a).handles[id].pc,
      if a.CallUnmap? && a.id == id && id in w.handles && w.handles[id].pc == Idle then a.remove else remove)
  {
    if a.Fire? && a.id in w.handles {
      FireApplies(w, a.id, a.ok);
      if a.id == id { NextRemoves(w.handles[id], Answered(w, id, w.handles[id].pc, a.ok), remove); }
    }
    hide Next, TableAfter, ShmLock, Answered;
  }

  lemma {:induction false} WhoRemoves(w: World, acts: seq<Action>, id: Id)
    requires Initial(w) && id in Exec(w, acts).handles
    ensures Removes(Exec(w, acts).handles[id].pc, ToRemove(w, acts, id))
    decreases |acts|
  {
    if acts != [] {
      var before, a := acts[..|acts|-1], acts[|acts|-1];
      var t := Exec(w, before);
      if id in t.handles { WhoRemoves(w, before, id); } else { assert Removes(Idle, ToRemove(w, before, id)); }
      hide Apply;
      StepRemoves(t, a, id, ToRemove(w, before, id));
    }
  }

  /** The index gets shorter only while a handle opens it, or for a handle that was
      asked to remove it. */
  lemma ShrinksOnRequest(w: World, acts: seq<Action>, a: Action)
    requires Initial(w) && Apply(Exec(w, acts), a).length < Exec(w, acts).length
    ensures var t := Exec(w, acts);
      a.id in t.handles && (t.handles[a.id].pc == Truncate || (ToRemove(w, acts, a.id) && t.table == map[]))
  {
    var t := Exec(w, acts);
    ShrinksByFire(t, a);
    WhoRemoves(w, acts, a.id);
    hide Exec, Apply, ToRemove;
  }

  // --------------------------------------------------------------- the masks

  /** The masks of a handle are the slots it holds byte locks of, by mode; no
      byte is locked twice, and no slot is in both masks. */
  lemma MasksAreLocks(w: World, acts: seq<Action>, id: Id)
    requires Initial(w) && var t := Exec(w, acts); id in t.handles && t.handles[id].open
    ensures var t := Exec(w, acts);
      id in t.table
      && var h, locks := t.handles[id], t.table[id];
      && h.shared !! h.exclusive
      && (forall i: nat | i < NLOCK :: i in h.shared <==> HeldAt(locks, i, false))
      && (forall i: nat | i < NLOCK :: i in h.exclusive <==> HeldAt(locks, i, true))
      && (forall e | e in locks :: locks[e] == 1)
      && (forall a, b | a in locks && b in locks && a != b :: !Overlap(a.range, b.range))
      && (forall i | i in h.shared + h.exclusive :: i < NLOCK)
  {
    ReachableInv(w, acts);
    var t := Exec(w, acts);
    Own(t, id);
    MasksDisjoint(t.table[id], Masks(t.handles[id].shared, t.handles[id].exclusive));
  }

  /** What one handle locked exclusively no other holds in any mode. */
  lemma MasksExclude(w: World, acts: seq<Action>, a: Id, b: Id)
    requires Initial(w) && a != b
    requires var t := Exec(w, acts); a in t.handles && b in t.handles
    ensures var t := Exec(w, acts); t.handles[a].exclusive !! t.handles[b].shared + t.handles[b].exclusive
  {
    ReachableInv(w, acts);
    var t := Exec(w, acts);
    Own(t, a);
    Own(t, b);
    var x, y := t.handles[a], t.handles[b];
    if x.open && y.open {
      assert Compatible(t.table);
      hide Inv, Exec, WellFormed, ViewsFit;
      forall i | i in x.exclusive ensures i !in y.shared + y.exclusive {
        if i in y.shared + y.exclusive {
          var e :| e in t.table[a] && e.exclusive && Covers(e, i);
          var mode := i in y.exclusive;
          var f :| f in t.table[b] && f.exclusive == mode && Covers(f, i);
          CoversClash(e, f, i);
        }
      }
    }
  }

  lemma CoversClash(e: Held, f: Held, slot: nat)
    requires e.exclusive && Covers(e, slot) && Covers(f, slot)
    ensures Clash(e, f)
  {
  }

  predicate Conflicts(h: Handle, mask: set<nat>, exclusive: bool) {
    !(mask !! h.exclusive) || (exclusive && !(mask !! h.shared))
  }

  /** A slot lock that reaches the lock table is refused exactly when another
      handle's masks conflict with it. */
  lemma RefusedIffConflict(w: World, acts: seq<Action>, id: Id, offset: nat, count: nat, flags: int)
    requires Initial(w) && LegalLock(true, offset, count, flags)
    requires var t := Exec(w, acts);
      id in t.handles && t.handles[id].open
      && Requested(Masks(t.handles[id].shared, t.handles[id].exclusive), offset, count, flags).Take?
    ensures var t := Exec(w, acts);
      Refused(t.table, Held(SlotRange(offset, count), flags == LOCK_EXCLUSIVE)) <==>
      exists o | o in t.handles && o != id :: Conflicts(t.handles[o], Slots(offset, count), flags == LOCK_EXCLUSIVE)
  {
    var t := Exec(w, acts);
    var mask, exclusive := Slots(offset, count), flags == LOCK_EXCLUSIVE;
    ReachableInv(w, acts);
    TakenAreFree(Masks(t.handles[id].shared, t.handles[id].exclusive), offset, count, flags);
    hide Exec, Inv, Conflicts, Requested, Slots;
    var e := Held(SlotRange(offset, count), exclusive);
    if Refused(t.table, e) { var o := RefuserConflicts(t, id, offset, count, exclusive); }
    if o :| o in t.handles && o != id && Conflicts(t.handles[o], mask, exclusive) {
      ConflictRefuses(t, o, offset, count, exclusive);
    }
  }

  lemma TakenAreFree(m: Masks, offset: nat, count: nat, flags: int)
    requires LegalLock(true, offset, count, flags) && Requested(m, offset, count, flags).Take?
    ensures 1 <= count && offset + count <= NLOCK && Slots(offset, count) !! m.shared + m.exclusive
  {
  }

  lemma RefuserConflicts(t: World, id: Id, offset: nat, count: nat, exclusive: bool) returns (o: Id)
    requires Inv(t) && id in t.handles && t.handles[id].open && 1 <= count && offset + count <= NLOCK
    requires Slots(offset, count) !! t.handles[id].shared + t.handles[id].exclusive
    requires Refused(t.table, Held(SlotRange(offset, count), exclusive))
    ensures o in t.handles && o != id && Conflicts(t.handles[o], Slots(offset, count), exclusive)
  {
    hide Inv, LocksFit, Conflicts;
    var x;
    o, x :| o in t.table && x in t.table[o] && Clash(x, Held(SlotRange(offset, count), exclusive));
    OwnTable(t, o);
    assert o != id by { if o == id { OwnIsFree(t, id, offset, count, x); } }
    ClashConflicts(t.handles[o], t.table[o], offset, count, exclusive, x);
  }

  lemma ConflictRefuses(t: World, o: Id, offset: nat, count: nat, exclusive: bool)
    requires Inv(t) && o in t.handles && 1 <= count && offset + count <= NLOCK
    requires Conflicts(t.handles[o], Slots(offset, count), exclusive)
    ensures Refused(t.table, Held(SlotRange(offset, count), exclusive))
  {
    Own(t, o);
    assert t.handles[o].open;
    hide Inv, LocksFit, WellFormed;
    var x := ConflictClashes(t.handles[o], t.table[o], offset, count, exclusive);
    assert x in t.table[o];
  }

  lemma OwnTable(w: World, id: Id)
    requires Inv(w) && id in w.table
    ensures id in w.handles && w.handles[id].open && LocksFit(w.handles[id], w.table[id])
  {
  }

  lemma OwnIsFree(w: World, id: Id, offset: nat, count: nat, x: Held)
    requires Inv(w) && id in w.table && id in w.handles && w.handles[id].open && x in w.table[id]
    requires 1 <= count && offset + count <= NLOCK
    requires Slots(offset, count) !! w.handles[id].shared + w.handles[id].exclusive
    ensures !Overlap(x.range, SlotRange(offset, count))
  {
    Own(w, id);
    FreeSlots(w.table[id], Masks(w.handles[id].shared, w.handles[id].exclusive), offset, count, x);
  }

  lemma ClashConflicts(h: Handle, locks: multiset<Held>, offset: nat, count: nat, exclusive: bool, x: Held)
    requires LocksFit(h, locks) && x in locks && 1 <= count && offset + count <= NLOCK
    requires Clash(x, Held(SlotRange(offset, count), exclusive))
    ensures Conflicts(h, Slots(offset, count), exclusive)
  {
    var i: nat := if x.range.offset <= SHM_BASE + offset then offset else x.range.offset - SHM_BASE;
    SlotsAre(offset, count, i);
    assert Covers(x, i) && HeldAt(locks, i, x.exclusive);
  }

  lemma ConflictClashes(h: Handle, locks: multiset<Held>, offset: nat, count: nat, exclusive: bool) returns (x: Held)
    requires LocksFit(h, locks) && 1 <= count && offset + count <= NLOCK
    requires Conflicts(h, Slots(offset, count), exclusive)
    ensures x in locks && Clash(x, Held(SlotRange(offset, count), exclusive))
  {
    var mode := !(Slots(offset, count) !! h.exclusive);
    var i :| i in Slots(offset, count) && i in if mode then h.exclusive else h.shared;
    SlotsAre(offset, count, i);
    x :| x in locks && x.exclusive == mode && Covers(x, i);
  }

  // ------------------------------------------------------- lock and unlock

  /** The unlock that names a lock's own range and mode undoes it, to the byte. */
  lemma UnlockUndoesLock(m: Masks, t: Table, id: Id, offset: nat, count: nat, exclusive: bool)
    requires id in t && Tiled(t[id], m) && LegalLock(true, offset, count, LOCK_SHARED)
    requires var flags := if exclusive then LOCK_EXCLUSIVE else LOCK_SHARED;
      Requested(m, offset, count, flags).Take? && ShmLock(m, t, id, offset, count, flags, true).rc == Ok
    ensures var o := ShmLock(m, t, id, offset, count, if exclusive then LOCK_EXCLUSIVE else LOCK_SHARED, true);
      ShmLock(o.masks, o.table, id, offset, count, if exclusive then UNLOCK_EXCLUSIVE else UNLOCK_SHARED, true)
      == Outcome(Ok, m, t)
  {
    var e, mask := Held(SlotRange(offset, count), exclusive), Slots(offset, count);
    var o := ShmLock(m, t, id, offset, count, if exclusive then LOCK_EXCLUSIVE else LOCK_SHARED, true);
    SlotsAre(offset, count, offset);
    assert o.masks == With(m, exclusive, mask) && o.table == t[id := t[id] + multiset{e}];
    hide Tiled, Slots, Refused, ShmLock;
    TakeTiles(t[id], m, offset, count, exclusive);
    assert mask <= if exclusive then o.masks.exclusive else o.masks.shared;
    ReleasedMode(o.table[id], o.masks, offset, count, exclusive);
    ReleasesMask(o.masks, o.table, id, offset, count, exclusive);
    WithoutUndoesWith(m, exclusive, mask);
    UnlockUndoesTake(t, id, e);
  }

  lemma ReleasesMask(m: Masks, t: Table, id: Id, offset: nat, count: nat, exclusive: bool)
    requires id in t && LegalLock(true, offset, count, LOCK_SHARED) && CanUnlock(t, id, SlotRange(offset, count))
    requires offset in Slots(offset, count) && Slots(offset, count) <= if exclusive then m.exclusive else m.shared
    ensures ShmLock(m, t, id, offset, count, if exclusive then UNLOCK_EXCLUSIVE else UNLOCK_SHARED, true)
         == Outcome(Ok, Without(m, Slots(offset, count)), Unlock(t, id, SlotRange(offset, count)))
  {
    hide Unlock, Slots;
  }

  lemma WithoutUndoesWith(m: Masks, exclusive: bool, mask: set<nat>)
    requires mask !! m.shared + m.exclusive
    ensures Without(With(m, exclusive, mask), mask) == m
  {
  }

  lemma UnlockUndoesTake(t: Table, id: Id, e: Held)
    requires id in t && Held(e.range, !e.exclusive) !in t[id]
    ensures var t' := t[id := t[id] + multiset{e}];
      CanUnlock(t', id, e.range) && Unlock(t', id, e.range) == t
  {
    assert t[id] + multiset{e} - multiset{e} == t[id];
    assert e == Held(e.range, e.exclusive);
    assert t[id := t[id] + multiset{e}][id := t[id]] == t;
  }

  /** Asking twice for the same slots in shared mode takes them once. */
  lemma SharedTwiceIsOnce(m: Masks, t: Table, id: Id, offset: nat, count: nat)
    requires id in t && m.shared !! m.exclusive
    requires ShmLock(m, t, id, offset, count, LOCK_SHARED, true).rc == Ok
    ensures var o := ShmLock(m, t, id, offset, count, LOCK_SHARED, true);
      forall check :: ShmLock(o.masks, o.table, id, offset, count, LOCK_SHARED, check) == o
  {
  }

  /** Slots in the mask are released exactly when one lock took just them;
      otherwise nothing changes. */
  lemma ReleasedIffTakenAsOne(m: Masks, t: Table, id: Id, offset: nat, count: nat, flags: int, check: bool)
    requires id in t && Tiled(t[id], m) && LegalLock(true, offset, count, flags) && Requested(m, offset, count, flags).Release?
    ensures var o := ShmLock(m, t, id, offset, count, flags, check);
      && (o.rc == Ok <==> Held(SlotRange(offset, count), flags == UNLOCK_EXCLUSIVE) in t[id])
      && (o.rc != Ok ==> o == Outcome(IoErrUnlock, m, t))
  {
    ReleasedMode(t[id], m, offset, count, flags == UNLOCK_EXCLUSIVE);
    hide Tiled, Slots;
  }

  /** What a handle holds of slots by one lock is in its mask. */
  lemma HeldIsMasked(locks: multiset<Held>, m: Masks, offset: nat, count: nat, exclusive: bool)
    requires Tiled(locks, m) && 1 <= count && offset + count <= NLOCK && Held(SlotRange(offset, count), exclusive) in locks
    ensures Slots(offset, count) <= if exclusive then m.exclusive else m.shared
    ensures !(Slots(offset, count) !! m.shared + m.exclusive)
  {
    var e := Held(SlotRange(offset, count), exclusive);
    forall i | i in Slots(offset, count) ensures i in if exclusive then m.exclusive else m.shared {
      SlotsAre(offset, count, i);
      assert Covers(e, i) && HeldAt(locks, i, exclusive);
    }
    SlotsAre(offset, count, offset);
  }

  /** In every run, an unlock succeeds exactly if none of the slots is in a mask,
      or if it names, in its mode, what one lock took; then those slots are in no
      mask, and that lock is gone. Otherwise nothing changes, and the answer says
      whether the masks or the system stood against it. */
  lemma UnlockAnswers(w: World, acts: seq<Action>, id: Id, offset: nat, count: nat, exclusive: bool, check: bool)
    requires Initial(w) && LegalLock(true, offset, count, LOCK_SHARED)
    requires var t := Exec(w, acts); id in t.handles && t.handles[id].open
    ensures var t, flags := Exec(w, acts), if exclusive then UNLOCK_EXCLUSIVE else UNLOCK_SHARED;
      id in t.table
      && var m, mask := Masks(t.handles[id].shared, t.handles[id].exclusive), Slots(offset, count);
      var o, taken := ShmLock(m, t.table, id, offset, count, flags, check), Held(SlotRange(offset, count), exclusive);
      && (o.rc == Ok <==> mask !! m.shared + m.exclusive || taken in t.table[id])
      && (o.rc == IoErrShmLock <==>
            !(mask !! m.shared + m.exclusive) && !(mask <= if exclusive then m.exclusive else m.shared))
      && (o.rc == Ok || o.rc == IoErrShmLock || o.rc == IoErrUnlock)
      && (o.rc == Ok ==> o.masks == Masks(m.shared - mask, m.exclusive - mask))
      && o.table == (if o.rc == Ok && taken in t.table[id] then t.table[id := t.table[id] - multiset{taken}] else t.table)
      && (o.rc != Ok ==> o.masks == m)
  {
    var t, flags := Exec(w, acts), if exclusive then UNLOCK_EXCLUSIVE else UNLOCK_SHARED;
    ReachableInv(w, acts);
    hide Exec, Inv;
    Own(t, id);
    var m := Masks(t.handles[id].shared, t.handles[id].exclusive);
    assert Tiled(t.table[id], m);
    hide LocksFit, WellFormed;
    UnlockIs(m, t.table, id, offset, count, exclusive, check);
    hide ShmLock, Tiled;
  }

  lemma UnlockIs(m: Masks, t: Table, id: Id, offset: nat, count: nat, exclusive: bool, check: bool)
    requires id in t && Tiled(t[id], m) && LegalLock(true, offset, count, LOCK_SHARED)
    ensures var mask, taken := Slots(offset, count), Held(SlotRange(offset, count), exclusive);
      var o := ShmLock(m, t, id, offset, count, if exclusive then UNLOCK_EXCLUSIVE else UNLOCK_SHARED, check);
      && (o.rc == Ok <==> mask !! m.shared + m.exclusive || taken in t[id])
      && (o.rc == IoErrShmLock <==>
            !(mask !! m.shared + m.exclusive) && !(mask <= if exclusive then m.exclusive else m.shared))
      && (o.rc == Ok || o.rc == IoErrShmLock || o.rc == IoErrUnlock)
      && (o.rc == Ok ==> o.masks == Masks(m.shared - mask, m.exclusive - mask))
      && o.table == (if o.rc == Ok && taken in t[id] then t[id := t[id] - multiset{taken}] else t)
      && (o.rc != Ok ==> o.masks == m)
  {
    var flags := if exclusive then UNLOCK_EXCLUSIVE else UNLOCK_SHARED;
    var mask := Slots(offset, count);
    if Held(SlotRange(offset, count), exclusive) in t[id] { HeldIsMasked(t[id], m, offset, count, exclusive); }
    if Requested(m, offset, count, flags).Release? {
      ReleasedIffTakenAsOne(m, t, id, offset, count, flags, check);
      ReleasedMode(t[id], m, offset, count, exclusive);
    }
    if mask !! m.shared + m.exclusive { assert Masks(m.shared - mask, m.exclusive - mask) == m; }
    hide Tiled, Slots;
  }

  /** What fShmLock makes of its own masks before it asks the lock table. */
  lemma AsksIffFree(m: Masks, t: Table, id: Id, offset: nat, count: nat, exclusive: bool, check: bool)
    requires id in t && LegalLock(true, offset, count, LOCK_SHARED) && m.shared !! m.exclusive
    ensures var flags, mask := if exclusive then LOCK_EXCLUSIVE else LOCK_SHARED, Slots(offset, count);
      var o, want := ShmLock(m, t, id, offset, count, flags, check), Held(SlotRange(offset, count), exclusive);
      && (Requested(m, offset, count, flags).Take? <==> mask !! m.shared + m.exclusive)
      && (o.rc == Busy <==> check && mask !! m.shared + m.exclusive && Refused(t, want))
      && (o.rc == IoErrLock <==> !check && mask !! m.shared + m.exclusive)
      && (o.rc == IoErrShmLock <==> !(mask !! m.shared + m.exclusive) && (exclusive || !(mask <= m.shared)))
      && (o.rc == Ok || o.rc == Busy || o.rc == IoErrLock || o.rc == IoErrShmLock)
      && if o.rc == Ok && mask !! m.shared + m.exclusive
         then o.masks == With(m, exclusive, mask) && o.table == t[id := t[id] + multiset{want}]
         else o.masks == m && o.table == t
  {
    SlotsAre(offset, count, offset);
    hide Slots, Refused;
  }

  /** And a lock is refused exactly if its slots are free in the handle's own masks,
      the check passes, and another handle's masks conflict with it. It is an error
      if they are not free, but for those shared already; it is granted otherwise,
      and then exactly its slots and one byte lock are added. */
  lemma LockAnswers(w: World, acts: seq<Action>, id: Id, offset: nat, count: nat, exclusive: bool, check: bool)
    requires Initial(w) && LegalLock(true, offset, count, LOCK_SHARED)
    requires var t := Exec(w, acts); id in t.handles && t.handles[id].open
    ensures var t, flags := Exec(w, acts), if exclusive then LOCK_EXCLUSIVE else LOCK_SHARED;
      id in t.table
      && var m, mask := Masks(t.handles[id].shared, t.handles[id].exclusive), Slots(offset, count);
      var o, free := ShmLock(m, t.table, id, offset, count, flags, check), mask !! m.shared + m.exclusive;
      && (o.rc == Busy <==>
            check && free && exists x :: x in t.handles && x != id && Conflicts(t.handles[x], mask, exclusive))
      && (o.rc == IoErrLock <==> !check && free)
      && (o.rc == IoErrShmLock <==> !free && (exclusive || !(mask <= m.shared)))
      && (o.rc == Ok || o.rc == Busy || o.rc == IoErrLock || o.rc == IoErrShmLock)
      && if o.rc == Ok && free
         then o.masks == With(m, exclusive, mask)
              && o.table == t.table[id := t.table[id] + multiset{Held(SlotRange(offset, count), exclusive)}]
         else o.masks == m && o.table == t.table
  {
    hide Exec, Inv, Conflicts, Slots, Requested, ShmLock, Refused, LocksFit, WellFormed;
    var t, flags := Exec(w, acts), if exclusive then LOCK_EXCLUSIVE else LOCK_SHARED;
    ReachableInv(w, acts);
    Own(t, id);
    var m := Masks(t.handles[id].shared, t.handles[id].exclusive);
    MasksDisjoint(t.table[id], m);
    AsksIffFree(m, t.table, id, offset, count, exclusive, check);
    if Requested(m, offset, count, flags).Take? { RefusedIffConflict(w, acts, id, offset, count, flags); }
  }

  /** Nor does a shared lock that is granted take anything when it is repeated. */
  lemma SharedAgain(w: World, acts: seq<Action>, id: Id, offset: nat, count: nat)
    requires Initial(w)
    requires var t := Exec(w, acts); id in t.handles && t.handles[id].open
    ensures var t := Exec(w, acts);
      id in t.table
      && var o := ShmLock(Masks(t.handles[id].shared, t.handles[id].exclusive), t.table, id, offset, count, LOCK_SHARED, true);
      o.rc == Ok ==> forall check :: ShmLock(o.masks, o.table, id, offset, count, LOCK_SHARED, check) == o
  {
    hide Exec, Inv, ShmLock, WellFormed;
    var t := Exec(w, acts);
    ReachableInv(w, acts);
    Own(t, id);
    var m := Masks(t.handles[id].shared, t.handles[id].exclusive);
    MasksDisjoint(t.table[id], m);
    if ShmLock(m, t.table, id, offset, count, LOCK_SHARED, true).rc == Ok { SharedTwiceIsOnce(m, t.table, id, offset, count); }
  }
}
