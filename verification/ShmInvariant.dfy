/** What the WAL index keeps in every run: who may clear it, that no mapped page
    is ever cut off, and what the slot masks say about the lock table. */
module ShmInvariant {
  import opened Options
  import opened ByteLocks
  import opened ShmProtocol

  // -------------------------------------------------------- one handle's locks

  predicate Covers(e: Held, slot: nat) {
    e.range.offset <= SHM_BASE + slot < e.range.offset + e.range.length
  }

  ghost predicate HeldAt(locks: multiset<Held>, slot: nat, exclusive: bool) {
    exists e | e in locks :: e.exclusive == exclusive && Covers(e, slot)
  }

  predicate IsSlotRange(r: Range) {
    1 <= r.length && SHM_BASE <= r.offset && r.offset + r.length <= SHM_DMS
  }

  /** No byte is locked twice, and every lock is of slots or of the deadman byte. */
  ghost predicate Apart(locks: multiset<Held>) {
    && (forall e | e in locks :: locks[e] == 1 && (e.range == DMS_RANGE || IsSlotRange(e.range)))
    && (forall a, b | a in locks && b in locks && a != b :: !Overlap(a.range, b.range))
  }

  /** The masks are the slots locked, in the mode they are locked in. */
  ghost predicate Tiled(locks: multiset<Held>, m: Masks) {
    && Apart(locks)
    && (forall i | i in m.shared + m.exclusive :: i < NLOCK)
    && (forall i: nat | i < NLOCK :: i in m.shared <==> HeldAt(locks, i, false))
    && (forall i: nat | i < NLOCK :: i in m.exclusive <==> HeldAt(locks, i, true))
  }

  lemma MasksDisjoint(locks: multiset<Held>, m: Masks)
    requires Tiled(locks, m)
    ensures m.shared !! m.exclusive
  {
    forall i | i in m.shared && i in m.exclusive ensures false {
      assert i in m.shared + m.exclusive && i < NLOCK;
      assert HeldAt(locks, i, false) && HeldAt(locks, i, true);
      var a :| a in locks && !a.exclusive && Covers(a, i);
      var b :| b in locks && b.exclusive && Covers(b, i);
      assert Overlap(a.range, b.range);
    }
  }

  lemma SlotsAre(offset: nat, count: nat, i: nat)
    ensures i in Slots(offset, count) <==> offset <= i < offset + count
  {
  }

  /** A lock that touches none of the bytes held. */
  lemma AddApart(locks: multiset<Held>, e: Held)
    requires Apart(locks) && (e.range == DMS_RANGE || IsSlotRange(e.range))
    requires forall x | x in locks :: !Overlap(x.range, e.range)
    ensures Apart(locks + multiset{e})
  {
    assert e !in locks;
  }

  /** Slots free in both masks are bytes nothing is held of. */
  lemma FreeSlots(locks: multiset<Held>, m: Masks, offset: nat, count: nat, x: Held)
    requires Tiled(locks, m) && 1 <= count && offset + count <= NLOCK
    requires Slots(offset, count) !! m.shared + m.exclusive && x in locks
    ensures !Overlap(x.range, SlotRange(offset, count))
  {
    if Overlap(x.range, SlotRange(offset, count)) {
      var i: nat := if x.range.offset <= SHM_BASE + offset then offset else x.range.offset - SHM_BASE;
      SlotsAre(offset, count, i);
      assert Covers(x, i) && HeldAt(locks, i, x.exclusive);
    }
  }

  lemma HeldMore(locks: multiset<Held>, e: Held, i: nat, x: bool)
    ensures HeldAt(locks + multiset{e}, i, x) <==> HeldAt(locks, i, x) || (x == e.exclusive && Covers(e, i))
  {
    assert e in locks + multiset{e};
    assert forall y :: y in locks + multiset{e} <==> y in locks || y == e;
    hide Covers;
  }

  lemma TakeTiles(locks: multiset<Held>, m: Masks, offset: nat, count: nat, exclusive: bool)
    requires Tiled(locks, m) && 1 <= count && offset + count <= NLOCK
    requires Slots(offset, count) !! m.shared + m.exclusive
    ensures var mask := Slots(offset, count);
      Tiled(locks + multiset{Held(SlotRange(offset, count), exclusive)}, With(m, exclusive, mask))
  {
    hide Apart, HeldAt;
    var e, mask := Held(SlotRange(offset, count), exclusive), Slots(offset, count);
    forall x | x in locks ensures !Overlap(x.range, e.range) { FreeSlots(locks, m, offset, count, x); }
    AddApart(locks, e);
    forall i: nat, x: bool | i < NLOCK
      ensures HeldAt(locks + multiset{e}, i, x) <==> HeldAt(locks, i, x) || (x == exclusive && i in mask)
    {
      HeldMore(locks, e, i, x);
      SlotsAre(offset, count, i);
    }
  }

  /** Taking one of the locks away leaves just the slots it does not cover. */
  lemma HeldLess(locks: multiset<Held>, e: Held, i: nat, x: bool)
    requires Apart(locks) && e in locks
    ensures HeldAt(locks - multiset{e}, i, x) <==> HeldAt(locks, i, x) && !Covers(e, i)
  {
    var locks' := locks - multiset{e};
    assert forall y :: y in locks' <==> y in locks && y != e;
    if HeldAt(locks', i, x) {
      var y :| y in locks' && y.exclusive == x && Covers(y, i);
      assert !Overlap(y.range, e.range);
    }
  }

  lemma ReleaseTiles(locks: multiset<Held>, m: Masks, offset: nat, count: nat, exclusive: bool)
    requires Tiled(locks, m) && 1 <= count && offset + count <= NLOCK
    requires Held(SlotRange(offset, count), exclusive) in locks
    ensures var mask := Slots(offset, count);
      Tiled(locks - multiset{Held(SlotRange(offset, count), exclusive)}, Without(m, mask))
  {
    hide Apart, HeldAt, Covers, Slots;
    var e, mask := Held(SlotRange(offset, count), exclusive), Slots(offset, count);
    RemoveApart(locks, e);
    forall i: nat | i < NLOCK
      ensures i in (m.shared - mask) <==> HeldAt(locks - multiset{e}, i, false)
      ensures i in (m.exclusive - mask) <==> HeldAt(locks - multiset{e}, i, true)
    {
      HeldLess(locks, e, i, false);
      HeldLess(locks, e, i, true);
      CoversSlots(offset, count, exclusive, i);
    }
    var locks', m' := locks - multiset{e}, Without(m, mask);
    assert forall i | i in m'.shared + m'.exclusive :: i in m.shared + m.exclusive;
    assert forall i: nat | i < NLOCK :: i in m'.shared <==> HeldAt(locks', i, false);
    assert forall i: nat | i < NLOCK :: i in m'.exclusive <==> HeldAt(locks', i, true);
  }

  lemma CoversSlots(offset: nat, count: nat, exclusive: bool, i: nat)
    ensures Covers(Held(SlotRange(offset, count), exclusive), i) <==> i in Slots(offset, count)
  {
  }

  // ---------------------------------------------------------- the invariant

  /** A view of page `k` that ends with the page and lies inside the file. */
  predicate ViewFits(r: Region, k: nat, length: nat, granule: nat) {
    r.Mapped? && granule > 0 ==>
      r.data == k * PAGE && r.start <= r.data && r.End() == Wanted(k) <= length && r.start % granule == 0
  }

  ghost predicate ViewsFit(h: Handle, length: nat, granule: nat) {
    forall k | 0 <= k < |h.regions| :: ViewFits(h.regions[k], k, length, granule)
  }

  /** How the fields of one handle fit its position. */
  predicate WellFormed(h: Handle, length: nat) {
    && (h.regionSize == 0 || h.regionSize == PAGE)
    && (h.deadman ==> h.open)
    && (!h.deadman ==> h.regions == [] && h.shared == {} && h.exclusive == {})
    && (h.open && !h.deadman ==> Opens(h.pc) && h.pc != Opening)
    && (h.deadman ==> !Opens(h.pc) || h.pc == Opening)
    && (!h.open ==> h.pc == Idle || h.pc == Opening || h.pc == Removing)
    && (h.pc == Removing ==> !h.open)
    && (Opens(h.pc) || Maps(h.pc) ==> 0 <= h.page <= MAX_PAGE && h.out == None)
    && (h.pc == Mapping || h.pc == Viewing ==> h.page < |h.regions| && h.regions[h.page] == Unmapped)
    && (h.pc.Dropping? ==> h.regions == [])
    && (h.pc == Viewing ==> Wanted(h.page) <= length)
  }

  predicate Clearing(h: Handle) {
    h.pc == Truncate || h.pc.ReleaseDeadman?
  }

  /** The byte locks of one handle whose index is open. */
  ghost predicate LocksFit(h: Handle, locks: multiset<Held>) {
    && Tiled(locks, Masks(h.shared, h.exclusive))
    && (Held(DMS_RANGE, true) in locks <==> Clearing(h))
    && (Held(DMS_RANGE, false) in locks <==> h.deadman)
  }

  ghost predicate Sound(w: World, h: Handle) {
    WellFormed(h, w.length) && ViewsFit(h, w.length, w.granule)
  }

  ghost predicate Inv(w: World) {
    && w.granule > 0
    && Compatible(w.table)
    && (forall id | id in w.table :: id in w.handles)
    && forall id | id in w.handles ::
         Sound(w, w.handles[id]) && (w.handles[id].open <==> id in w.table)
         && (w.handles[id].open ==> LocksFit(w.handles[id], w.table[id]))
  }

  // ------------------------------------------------------- it is preserved

  /** Only handles that hold the deadman byte have anything to lose. */
  ghost predicate NoUserBut(w: World, but: Id) {
    forall o | o in w.handles && o != but :: !w.handles[o].deadman
  }

  lemma OtherStaysSound(w: World, w': World, h: Handle)
    requires Sound(w, h) && w'.granule == w.granule
    requires w'.length >= w.length || !h.deadman
    ensures Sound(w', h)
  {
  }

  /** What a step of `id` must see to. */
  lemma StepKeepsInv(w: World, id: Id, h: Handle, t: Table, length: nat)
    requires Inv(w) && id in w.handles && Compatible(t)
    requires forall o | o != id :: (o in t <==> o in w.table) && (o in t ==> t[o] == w.table[o])
    requires length >= w.length || NoUserBut(w, id)
    requires (h.open <==> id in t) && (h.open ==> LocksFit(h, t[id]))
    requires WellFormed(h, length) && ViewsFit(h, length, w.granule)
    ensures Inv(World(w.handles[id := h], t, length, w.granule))
  {
    hide LocksFit, WellFormed, ViewsFit, Compatible;
    var w' := World(w.handles[id := h], t, length, w.granule);
    assert Sound(w', h);
    hide Sound;
    forall o | o in w.handles && o != id ensures Sound(w', w.handles[o]) {
      OtherStaysSound(w, w', w.handles[o]);
    }
  }

  /** What the invariant says of one handle. */
  lemma Own(w: World, id: Id)
    requires Inv(w) && id in w.handles
    ensures var h := w.handles[id];
      && w.granule > 0 && WellFormed(h, w.length) && ViewsFit(h, w.length, w.granule)
      && (h.open <==> id in w.table) && (h.open ==> LocksFit(h, w.table[id]))
  {
  }

  /** A step that only moves the handle on. */
  lemma MoveKeepsInv(w: World, id: Id, h: Handle)
    requires Inv(w) && id in w.handles && h.open == w.handles[id].open && h.deadman == w.handles[id].deadman
    requires h.shared == w.handles[id].shared && h.exclusive == w.handles[id].exclusive
    requires Clearing(h) == Clearing(w.handles[id])
    requires WellFormed(h, w.length) && ViewsFit(h, w.length, w.granule)
    ensures Inv(Put(w, id, h))
  {
    StepKeepsInv(w, id, h, w.table, w.length);
  }

  // ---- the deadman byte

  lemma DeadmanTiles(locks: multiset<Held>, m: Masks, exclusive: bool)
    requires Tiled(locks, m)
    requires Held(DMS_RANGE, true) !in locks && Held(DMS_RANGE, false) !in locks
    ensures Tiled(locks + multiset{Held(DMS_RANGE, exclusive)}, m)
  {
    hide HeldAt;
    var e := Held(DMS_RANGE, exclusive);
    forall x | x in locks ensures !Overlap(x.range, DMS_RANGE) {
      assert x == Held(x.range, true) || x == Held(x.range, false);
    }
    AddApart(locks, e);
    forall i: nat, x: bool | i < NLOCK ensures HeldAt(locks + multiset{e}, i, x) <==> HeldAt(locks, i, x) {
      HeldMore(locks, e, i, x);
    }
  }

  lemma RemoveApart(locks: multiset<Held>, e: Held)
    requires Apart(locks) && e in locks
    ensures Apart(locks - multiset{e})
    ensures forall y :: y in locks - multiset{e} <==> y in locks && y != e
  {
  }

  lemma DeadmanUntiles(locks: multiset<Held>, m: Masks, e: Held)
    requires Tiled(locks, m) && e in locks && e.range == DMS_RANGE
    ensures Tiled(locks - multiset{e}, m)
  {
    hide HeldAt, Apart;
    RemoveApart(locks, e);
    forall i: nat, x: bool | i < NLOCK ensures HeldAt(locks - multiset{e}, i, x) <==> HeldAt(locks, i, x) {
      HeldLess(locks, e, i, x);
    }
  }

  lemma NoLocksFit(h: Handle)
    requires h.shared == {} && h.exclusive == {} && !Clearing(h) && !h.deadman
    ensures LocksFit(h, multiset{})
  {
  }

  /** A handle that holds the deadman byte exclusively is the only one with it. */
  lemma ClearsAlone(w: World, id: Id)
    requires Inv(w) && id in w.handles && Clearing(w.handles[id])
    ensures NoUserBut(w, id)
  {
    forall o | o in w.handles && o != id ensures !w.handles[o].deadman {
      if w.handles[o].deadman {
        assert Held(DMS_RANGE, true) in w.table[id] && Held(DMS_RANGE, false) in w.table[o];
        assert Clash(Held(DMS_RANGE, true), Held(DMS_RANGE, false));
      }
    }
  }

  // ---- one step of shm_open, fMap or fUnmap

  lemma OpenStaysWellFormed(h: Handle, a: Reply, length: nat)
    requires WellFormed(h, a.length) && Opens(h.pc)
    ensures WellFormed(OpenNext(h, a), length)
  {
  }

  lemma UnmapStaysWellFormed(h: Handle, a: Reply, length: nat)
    requires WellFormed(h, a.length) && Unmaps(h.pc)
    ensures WellFormed(UnmapNext(h, a), length)
  {
  }

  lemma MapStaysWellFormed(h: Handle, a: Reply, length: nat)
    requires WellFormed(h, a.length) && Maps(h.pc) && a.granule > 0
    requires length >= a.length && (h.pc == Mapping && a.ok ==> Wanted(h.page) <= length)
    ensures WellFormed(MapNext(h, a), length)
  {
    if h.pc == Growing { GrownKeepsRegions(h.regions, h.page); }
  }

  lemma MapViewsFit(h: Handle, a: Reply, length: nat)
    requires WellFormed(h, a.length) && ViewsFit(h, a.length, a.granule) && Maps(h.pc) && a.granule > 0
    requires length >= a.length
    ensures ViewsFit(MapNext(h, a), length, a.granule)
  {
    hide View, Grown, ViewFits;
    forall k | 0 <= k < |h.regions| ensures ViewFits(h.regions[k], k, length, a.granule) {
      StillFits(h.regions[k], k, a.length, length, a.granule);
    }
    if h.pc == Growing {
      GrownKeepsRegions(h.regions, h.page);
      forall k: nat ensures ViewFits(Region.Unmapped, k, length, a.granule) { UnmappedFits(k, length, a.granule); }
    }
    if h.pc == Viewing { PageFits(h.page, length, a.granule); }
  }

  lemma StillFits(r: Region, k: nat, length: nat, longer: nat, granule: nat)
    requires ViewFits(r, k, length, granule) && length <= longer
    ensures ViewFits(r, k, longer, granule)
  {
  }

  lemma UnmappedFits(k: nat, length: nat, granule: nat)
    ensures ViewFits(Region.Unmapped, k, length, granule)
  {
  }

  lemma PageFits(page: nat, length: nat, granule: nat)
    requires granule > 0 && page <= MAX_PAGE && Wanted(page) <= length
    ensures ViewFits(View(page, granule), page, length, granule)
  {
    ViewIsThePage(page, granule);
    hide View;
  }

  /** The page's view starts where the system allows, ends exactly with the page
      and so with the mapping, and its pointer denotes the page's own offset;
      all within what the C types hold. */
  lemma ViewIsThePage(page: nat, granule: nat)
    requires granule > 0 && page <= MAX_PAGE
    ensures var r := View(page, granule);
      && r.start % granule == 0 && r.start <= r.data == page * PAGE
      && r.data - r.start < granule
      && r.End() == Wanted(page) <= INT_MAX && page + 1 <= INT_MAX
  {
    var offset := page * PAGE;
    RoundsDown(offset, granule);
  }

  lemma RoundsDown(n: nat, g: nat)
    requires g > 0
    ensures (n - n % g) % g == 0
  {
    var a := n - n % g;
    assert a == (n / g) * g && a == (a / g) * g + a % g;
    SmallMultiple(n / g - a / g, g, a % g);
  }

  lemma SmallMultiple(d: int, g: nat, r: nat)
    requires d * g == r < g
    ensures r == 0
  {
    Multiples(d, g);
  }

  lemma Multiples(d: int, g: nat)
    ensures d >= 1 ==> d * g >= g
    ensures d <= -1 ==> d * g + g <= 0
  {
    if d >= 1 { assert (d - 1) * g >= 0; }
    if d <= -1 { assert (-d - 1) * g >= 0; }
  }

  /** Growing the array keeps every earlier region. */
  lemma GrownKeepsRegions(regions: seq<Region>, page: nat)
    ensures var g := Grown(regions, page);
      page < |g| && |regions| <= |g| && g[..|regions|] == regions
      && forall k | |regions| <= k < |g| :: g[k] == Region.Unmapped
  {
  }

  /** Of a range in a handle's mask, the table holds it in that mode or not at all. */
  lemma ReleasedMode(locks: multiset<Held>, m: Masks, offset: nat, count: nat, exclusive: bool)
    requires Tiled(locks, m) && 1 <= count && offset + count <= NLOCK
    requires Slots(offset, count) <= if exclusive then m.exclusive else m.shared
    ensures Held(SlotRange(offset, count), !exclusive) !in locks
  {
    SlotsAre(offset, count, offset);
    var e := Held(SlotRange(offset, count), !exclusive);
    if e in locks {
      assert Covers(e, offset) && HeldAt(locks, offset, !exclusive);
      MasksDisjoint(locks, m);
    }
  }

  ghost predicate SameDeadman(locks: multiset<Held>, locks': multiset<Held>) {
    forall x :: Held(DMS_RANGE, x) in locks' <==> Held(DMS_RANGE, x) in locks
  }

  ghost predicate FitsLock(t: Table, id: Id, o: Outcome)
    requires id in t
  {
    && o.table.Keys == t.Keys && (forall x | x in t && x != id :: o.table[x] == t[x])
    && Tiled(o.table[id], o.masks) && SameDeadman(t[id], o.table[id])
  }

  lemma TakeFits(m: Masks, t: Table, id: Id, offset: nat, count: nat, flags: int, check: bool)
    requires id in t && Tiled(t[id], m) && LegalLock(true, offset, count, flags) && Requested(m, offset, count, flags).Take?
    ensures FitsLock(t, id, ShmTake(m, t, id, Requested(m, offset, count, flags).held, Slots(offset, count), check))
  {
    hide Tiled, Slots, Refused;
    TakeTiles(t[id], m, offset, count, Requested(m, offset, count, flags).held.exclusive);
  }

  lemma ReleaseFits(m: Masks, t: Table, id: Id, offset: nat, count: nat, flags: int)
    requires id in t && Tiled(t[id], m) && LegalLock(true, offset, count, flags) && Requested(m, offset, count, flags).Release?
    ensures FitsLock(t, id, ShmRelease(m, t, id, Requested(m, offset, count, flags).range, Slots(offset, count)))
  {
    hide Tiled, Slots;
    var e := Held(SlotRange(offset, count), flags == UNLOCK_EXCLUSIVE);
    ReleasedMode(t[id], m, offset, count, e.exclusive);
    if e in t[id] { ReleaseTiles(t[id], m, offset, count, e.exclusive); }
  }

  lemma ShmLockKeepsTiled(m: Masks, t: Table, id: Id, offset: int, count: int, flags: int, check: bool)
    requires id in t && Tiled(t[id], m)
    ensures FitsLock(t, id, ShmLock(m, t, id, offset, count, flags, check))
  {
    hide Tiled, Slots, Requested, SameDeadman, ShmTake, ShmRelease;
    SameAsItself(t[id]);
    if LegalLock(true, offset, count, flags) {
      var request := Requested(m, offset, count, flags);
      if request.Take? { TakeFits(m, t, id, offset, count, flags, check); }
      else if request.Release? { ReleaseFits(m, t, id, offset, count, flags); }
    }
  }

  lemma SameAsItself(locks: multiset<Held>)
    ensures SameDeadman(locks, locks)
  {
  }

  lemma ShmLockKeepsCompatible(m: Masks, t: Table, id: Id, offset: int, count: int, flags: int, check: bool)
    requires id in t && Compatible(t)
    ensures Compatible(ShmLock(m, t, id, offset, count, flags, check).table)
  {
    hide Compatible, Refused;
    if LegalLock(true, offset, count, flags) {
      var request := Requested(m, offset, count, flags);
      if request.Take? { LockKeepsCompatible(t, id, request.held); }
      else if request.Release? { UnlockKeepsCompatible(t, id, request.range); }
    }
  }

  lemma MaskedFits(h: Handle, locks: multiset<Held>, h': Handle, locks': multiset<Held>)
    requires LocksFit(h, locks) && Tiled(locks', Masks(h'.shared, h'.exclusive)) && SameDeadman(locks, locks')
    requires h'.pc == h.pc && h'.deadman == h.deadman
    ensures LocksFit(h', locks')
  {
    hide Tiled;
  }

  lemma MaskedStaysSound(h: Handle, h': Handle, length: nat, granule: nat)
    requires WellFormed(h, length) && ViewsFit(h, length, granule) && h.pc == Idle && h.open
    requires h' == h.(shared := h'.shared, exclusive := h'.exclusive, ret := h'.ret)
    ensures WellFormed(h', length) && ViewsFit(h', length, granule)
  {
  }

  lemma CallLockKeepsInv(w: World, id: Id, a: Action)
    requires Inv(w) && id in w.handles && w.handles[id].pc == Idle && a.CallLock?
    ensures Inv(CallLockAt(w, id, w.handles[id], a))
  {
    Own(w, id);
    var h := w.handles[id];
    var w' := CallLockAt(w, id, h, a);
    if h.open {
      assert Tiled(w.table[id], Masks(h.shared, h.exclusive)) && Compatible(w.table);
      hide Inv, Tiled, Compatible, ShmLock, ViewsFit, WellFormed, LocksFit, SameDeadman;
      ShmLockKeepsTiled(Masks(h.shared, h.exclusive), w.table, id, a.offset, a.count, a.flags, a.check);
      ShmLockKeepsCompatible(Masks(h.shared, h.exclusive), w.table, id, a.offset, a.count, a.flags, a.check);
      var h' := w'.handles[id];
      MaskedFits(h.(ret := h'.ret), w.table[id], h', w'.table[id]) by { RetFits(h, w.table[id], h'.ret); }
      MaskedStaysSound(h, h', w.length, w.granule);
      StepKeepsInv(w, id, h', w'.table, w.length);
    } else {
      hide LocksFit, Compatible;
      MoveKeepsInv(w, id, w'.handles[id]);
    }
  }

  lemma RetFits(h: Handle, locks: multiset<Held>, rc: Rc)
    requires LocksFit(h, locks)
    ensures LocksFit(h.(ret := rc), locks)
  {
    hide Tiled;
  }

  // ---- every system call

  lemma DeadmanLockFits(h: Handle, a: Reply, locks: multiset<Held>)
    requires WellFormed(h, a.length) && LocksFit(h, locks) && Asked(h.pc).Some? && a.ok && !a.refused
    ensures LocksFit(Next(h, a), locks + multiset{Asked(h.pc).value})
  {
    hide Tiled;
    DeadmanTiles(locks, Masks(h.shared, h.exclusive), h.pc == TryDeadman);
  }

  lemma DeadmanUnlockFits(h: Handle, a: Reply, locks: multiset<Held>)
    requires WellFormed(h, a.length) && LocksFit(h, locks) && h.pc.ReleaseDeadman?
    ensures Held(DMS_RANGE, true) in locks
    ensures LocksFit(Next(h, a), locks - multiset{Held(DMS_RANGE, true)})
  {
    var m, e := Masks(h.shared, h.exclusive), Held(DMS_RANGE, true);
    assert Apart(locks);
    hide Apart, HeldAt;
    RemoveApart(locks, e);
    DeadmanUntiles(locks, m, e);
    hide Tiled;
  }

  lemma OtherwiseLocksStay(h: Handle, a: Reply, locks: multiset<Held>)
    requires WellFormed(h, a.length) && LocksFit(h, locks) && h.open && Next(h, a).open
    requires !h.pc.ReleaseDeadman? && (Asked(h.pc).Some? ==> !a.ok || a.refused)
    ensures LocksFit(Next(h, a), locks)
  {
    hide Tiled, Grown, View;
  }

  lemma OpensOrCloses(h: Handle, a: Reply)
    requires WellFormed(h, a.length)
    ensures Next(h, a).open == if h.pc == Opening then h.open || (h.main && a.ok) else h.open && !h.pc.GiveUp? && !h.pc.Dropping?
  {
    hide Grown, View;
  }

  /** The locks after the call are those the handle's fields then say. */
  lemma NextLocksFit(w: World, id: Id, h: Handle, ok: bool)
    requires WellFormed(h, w.length) && (h.open <==> id in w.table) && (h.open ==> LocksFit(h, w.table[id]))
    ensures h.pc.TryDeadman? || h.pc.ShareDeadman? || h.pc.ReleaseDeadman? ==> id in w.table
    ensures var h', t := Next(h, Answered(w, id, h.pc, ok)), TableAfter(w.table, id, h, ok);
      (h'.open <==> id in t) && (h'.open ==> LocksFit(h', t[id]))
  {
    var a := Answered(w, id, h.pc, ok);
    OpensOrCloses(h, a);
    assert h.pc.TryDeadman? || h.pc.ShareDeadman? || h.pc.ReleaseDeadman? ==> h.open;
    hide LocksFit, Refused;
    if h.pc == Opening && !h.open {
      if h.main && ok { NoLocksFit(Next(h, a)); }
    } else if h.open && Next(h, a).open {
      if h.pc.ReleaseDeadman? { DeadmanUnlockFits(h, a, w.table[id]); }
      else if Asked(h.pc).Some? && ok && !a.refused { DeadmanLockFits(h, a, w.table[id]); }
      else { OtherwiseLocksStay(h, a, w.table[id]); }
    }
  }

  lemma TableStaysCompatible(t: Table, id: Id, h: Handle, ok: bool)
    requires Compatible(t) && (h.pc.TryDeadman? || h.pc.ShareDeadman? || h.pc.ReleaseDeadman? ==> id in t)
    ensures var t' := TableAfter(t, id, h, ok);
      Compatible(t') && forall o | o != id :: (o in t' <==> o in t) && (o in t' ==> t'[o] == t[o])
  {
    match h.pc {
      case Opening => NewKeepsCompatible(t, id);
      case TryDeadman => LockKeepsCompatible(t, id, Held(DMS_RANGE, true));
      case ShareDeadman => LockKeepsCompatible(t, id, Held(DMS_RANGE, false));
      case ReleaseDeadman(_) => UnlockKeepsCompatible(t, id, DMS_RANGE);
      case _ => CloseKeepsCompatible(t, id);
    }
    hide Compatible, Refused;
  }

  /** The file gets shorter only when nobody else uses it. */
  lemma ShrinksAlone(w: World, id: Id, ok: bool)
    requires Inv(w) && id in w.handles && LengthAfter(w, w.handles[id], ok) < w.length
    ensures NoUserBut(w, id) && !w.handles[id].deadman && w.handles[id].regions == []
    ensures w.table == map[] || (id in w.table && Held(DMS_RANGE, true) in w.table[id])
  {
    Own(w, id);
    if w.handles[id].pc == Truncate { ClearsAlone(w, id); }
  }

  lemma NextFits(w: World, id: Id, ok: bool)
    requires Inv(w) && id in w.handles
    ensures var h := w.handles[id];
      var h', length := Next(h, Answered(w, id, h.pc, ok)), LengthAfter(w, h, ok);
      WellFormed(h', length) && ViewsFit(h', length, w.granule)
  {
    Own(w, id);
    var h := w.handles[id];
    var a, length := Answered(w, id, h.pc, ok), LengthAfter(w, h, ok);
    if length < w.length { ShrinksAlone(w, id, ok); }
    hide Inv, Answered, LocksFit;
    assert a.length == w.length && a.granule == w.granule && a.ok == ok by { AnswersAre(w, id, h.pc, ok); }
    if Opens(h.pc) { OpenStaysWellFormed(h, a, length); OpenViewsFit(h, a, length); }
    else if Maps(h.pc) { MapStaysWellFormed(h, a, length); MapViewsFit(h, a, length); }
    else if Unmaps(h.pc) { UnmapStaysWellFormed(h, a, length); UnmapViewsFit(h, a, length); }
  }

  lemma AnswersAre(w: World, id: Id, pc: Pc, ok: bool)
    ensures var a := Answered(w, id, pc, ok); a.length == w.length && a.granule == w.granule && a.ok == ok
  {
  }

  lemma OpenViewsFit(h: Handle, a: Reply, length: nat)
    requires ViewsFit(h, a.length, a.granule) && Opens(h.pc) && (length >= a.length || h.regions == [])
    ensures ViewsFit(OpenNext(h, a), length, a.granule)
  {
  }

  lemma UnmapViewsFit(h: Handle, a: Reply, length: nat)
    requires ViewsFit(h, a.length, a.granule) && Unmaps(h.pc) && (length >= a.length || h.regions == [])
    ensures ViewsFit(UnmapNext(h, a), length, a.granule)
  {
  }

  lemma FireKeepsInv(w: World, id: Id, ok: bool)
    requires Inv(w) && id in w.handles
    ensures Inv(FireAt(w, id, w.handles[id], ok))
  {
    var h := w.handles[id];
    Own(w, id);
    NextLocksFit(w, id, h, ok);
    TableStaysCompatible(w.table, id, h, ok) by { assert Inv(w); }
    NextFits(w, id, ok);
    if LengthAfter(w, h, ok) < w.length { ShrinksAlone(w, id, ok); }
    hide Inv, LocksFit, WellFormed, ViewsFit, Next, TableAfter, LengthAfter, Answered, Compatible, NoUserBut;
    StepKeepsInv(w, id, Next(h, Answered(w, id, h.pc, ok)), TableAfter(w.table, id, h, ok), LengthAfter(w, h, ok));
  }

  lemma CloseKeepsInv(w: World, id: Id)
    requires Inv(w)
    ensures Inv(w.(handles := w.handles - {id}, table := w.table - {id}))
  {
    hide LocksFit, Compatible, Sound;
    var w' := w.(handles := w.handles - {id}, table := w.table - {id});
    CloseKeepsCompatible(w.table, id);
    forall o | o in w'.handles ensures Sound(w', w'.handles[o]) { StaysSound(w, w', w.handles[o]); }
  }

  lemma StaysSound(w: World, w': World, h: Handle)
    requires Sound(w, h) && w'.length == w.length && w'.granule == w.granule
    ensures Sound(w', h)
  {
  }

  lemma OpenKeepsInv(w: World, id: Id, main: bool)
    requires Inv(w) && id !in w.handles
    ensures Inv(Put(w, id, FRESH.(main := main)))
  {
    hide LocksFit, Compatible, Sound;
    var w' := Put(w, id, FRESH.(main := main));
    FreshIsSound(w', main);
    forall o | o in w.handles ensures Sound(w', w.handles[o]) { StaysSound(w, w', w.handles[o]); }
  }

  lemma FreshIsSound(w: World, main: bool)
    requires w.granule > 0
    ensures Sound(w, FRESH.(main := main))
  {
  }

  lemma CallsKeepInv(w: World, id: Id, a: Action)
    requires Inv(w) && id in w.handles && w.handles[id].pc == Idle
    ensures a.CallMap? ==> Inv(Put(w, id, BeginMap(w.handles[id], a.page, a.size, a.extend, a.check)))
    ensures a.CallUnmap? && w.handles[id].open ==> Inv(Put(w, id, w.handles[id].(pc := Unmapping(a.remove, 0))))
    ensures a.CallUnmap? ==> Inv(Put(w, id, Return(w.handles[id], Ok)))
  {
    Own(w, id);
    hide Inv, LocksFit, ViewFits, WellFormed, BeginMap;
    var h := w.handles[id];
    CallsFit(h, w.length, a);
    if a.CallMap? {
      MoveKeepsInv(w, id, BeginMap(h, a.page, a.size, a.extend, a.check));
    } else if a.CallUnmap? {
      if h.open { MoveKeepsInv(w, id, h.(pc := Unmapping(a.remove, 0))); }
      MoveKeepsInv(w, id, Return(h, Ok));
    }
  }

  lemma CallsFit(h: Handle, length: nat, a: Action)
    requires WellFormed(h, length) && h.pc == Idle
    ensures WellFormed(Return(h, Ok), length)
    ensures a.CallMap? ==>
      var h' := BeginMap(h, a.page, a.size, a.extend, a.check);
      && WellFormed(h', length) && h'.open == h.open && h'.deadman == h.deadman && h'.shared == h.shared
      && h'.exclusive == h.exclusive && h'.regions == h.regions && (h'.pc == Idle || h'.pc == Opening)
    ensures a.CallUnmap? && h.open ==> WellFormed(h.(pc := Unmapping(a.remove, 0)), length)
  {
  }

  lemma NoDeleteKeepsInv(w: World, id: Id)
    requires Inv(w) && id in w.handles && w.handles[id].pc == Removing
    ensures Inv(Put(w, id, Return(w.handles[id], Ok)))
  {
    Own(w, id);
    hide Inv, LocksFit, ViewFits;
    MoveKeepsInv(w, id, Return(w.handles[id], Ok));
  }

  lemma ApplyKeepsInv(w: World, a: Action)
    requires Inv(w)
    ensures Inv(Apply(w, a))
  {
    hide Inv, FireAt, CallLockAt, BeginMap;
    match a {
      case Open(id, main) => if id !in w.handles { OpenKeepsInv(w, id, main); }
      case Close(id) => CloseKeepsInv(w, id);
      case Fire(id, ok) => if id in w.handles { FireKeepsInv(w, id, ok); }
      case NoDelete(id) => if id in w.handles && w.handles[id].pc == Removing { NoDeleteKeepsInv(w, id); }
      case CallLock(id, _, _, _, _) => if id in w.handles && w.handles[id].pc == Idle { CallLockKeepsInv(w, id, a); }
      case _ => if a.id in w.handles && w.handles[a.id].pc == Idle { CallsKeepInv(w, a.id, a); }
    }
  }

  lemma {:induction false} ReachableInv(w: World, acts: seq<Action>)
    requires Initial(w)
    ensures Inv(Exec(w, acts))
    decreases |acts|
  {
    if acts != [] {
      ReachableInv(w, acts[..|acts|-1]);
      ApplyKeepsInv(Exec(w, acts[..|acts|-1]), acts[|acts|-1]);
    }
  }
}
