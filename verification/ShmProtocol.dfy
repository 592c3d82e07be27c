/** The WAL index of one database: its eight lock slots, its mapped regions and
    the deadman byte that decides who may clear it, for any number of handles
    that interleave at every call of the operating system. */
module ShmProtocol {
  import opened Options
  import opened ByteLocks

  const NLOCK := 8
  const SHM_BASE: nat := (22 + NLOCK) * 4
  const SHM_DMS: nat := SHM_BASE + NLOCK
  const DMS_RANGE := Range(SHM_DMS, 1)

  const PAGE := 32768
  const INT_MAX := 0x7FFF_FFFF
  const MAX_PAGE := INT_MAX / PAGE - 1

  const UNLOCK_SHARED := 5
  const LOCK_SHARED := 6
  const UNLOCK_EXCLUSIVE := 9
  const LOCK_EXCLUSIVE := 10

  datatype Rc =
    | Ok | Busy | NoMem | IoErrAccess | IoErrLock | IoErrUnlock | IoErrTruncate | IoErrClose | IoErrDelete
    | IoErrShmOpen | IoErrShmMap | IoErrShmLock | IoErrShmSize

  /** A mapped view, in offsets of the file: where it starts, how long it is,
      and what its data pointer denotes. */
  datatype Region = Unmapped | Mapped(start: nat, length: nat, data: nat) {
    function End(): nat
      requires Mapped?
    {
      start + length
    }
  }

  /** Where a handle stands: between calls, or just before a call of the system. */
  datatype Pc =
    | Idle
    // fMap: first shm_open
    | Opening | TryDeadman | Truncate | ReleaseDeadman(truncated: Rc) | ShareDeadman | GiveUp(rc: Rc)
    // and then the mapping
    | Sizing | Growing | Mapping | Viewing
    // fUnmap
    | Unmapping(remove: bool, next: nat) | Dropping(removing: bool) | Removing

  /** One CheckedFile as far as its WAL index goes. `page` and `extend` are the
      arguments of the current fMap; `out` is the offset its pointer denotes. */
  datatype Handle = Handle(
    main: bool, open: bool, deadman: bool, shared: set<nat>, exclusive: set<nat>,
    regions: seq<Region>, regionSize: int, page: int, extend: bool, pc: Pc, ret: Rc, out: Option<nat>)

  /** The table has the handles whose index file is open; `length` is that of the
      file, and 0 when there is none. */
  datatype World = World(handles: map<Id, Handle>, table: Table, length: nat, granule: nat)

  datatype Action =
    | Open(id: Id, main: bool)
    | CallMap(id: Id, page: int, size: int, extend: bool, check: bool)
    | CallLock(id: Id, offset: int, count: int, flags: int, check: bool)
    | CallUnmap(id: Id, remove: bool)
    | Fire(id: Id, ok: bool)   // the system call the handle stands at, which may fail
    | NoDelete(id: Id)         // fUnmap gets no handle to delete the file with
    | Close(id: Id)            // closing a handle, or its process dying, at any point

  // ------------------------------------------------------------ slot locks

  predicate Within(i: int, offset: int, count: int) {
    offset <= i < offset + count
  }

  /** The bits of ((1<<count)-1)<<offset. */
  function Slots(offset: int, count: int): set<nat> {
    set i: nat | i < offset + count && Within(i, offset, count)
  }

  function SlotRange(offset: nat, count: nat): Range {
    Range(SHM_BASE + offset, count)
  }

  predicate LegalLock(open: bool, offset: int, count: int, flags: int) {
    open && 0 <= offset && 1 <= count && offset <= NLOCK - count
    && (flags == LOCK_SHARED || flags == LOCK_EXCLUSIVE || flags == UNLOCK_SHARED || flags == UNLOCK_EXCLUSIVE)
  }

  datatype Masks = Masks(shared: set<nat>, exclusive: set<nat>)

  /** What fShmLock asks of the lock table, if anything, or its answer at once. */
  datatype Request = Answer(rc: Rc) | Take(held: Held) | Release(range: Range)

  function Requested(m: Masks, offset: nat, count: nat, flags: int): Request {
    var mask := Slots(offset, count);
    var exclusive := flags == LOCK_EXCLUSIVE || flags == UNLOCK_EXCLUSIVE;
    if flags == UNLOCK_SHARED || flags == UNLOCK_EXCLUSIVE then
      if mask !! m.shared + m.exclusive then Answer(Ok)
      else if !(mask <= if exclusive then m.exclusive else m.shared) then Answer(IoErrShmLock)
      else Release(SlotRange(offset, count))
    else if !exclusive && mask <= m.shared && mask !! m.exclusive then Answer(Ok)
    else if !(mask !! m.shared + m.exclusive) then Answer(IoErrShmLock)
    else Take(Held(SlotRange(offset, count), exclusive))
  }

  function With(m: Masks, exclusive: bool, mask: set<nat>): Masks {
    if exclusive then m.(exclusive := m.exclusive + mask) else m.(shared := m.shared + mask)
  }

  function Without(m: Masks, mask: set<nat>): Masks {
    Masks(m.shared - mask, m.exclusive - mask)
  }

  /** An answer of fShmLock, and the masks and the table it leaves. */
  datatype Outcome = Outcome(rc: Rc, masks: Masks, table: Table)

  function ShmTake(m: Masks, t: Table, id: Id, held: Held, mask: set<nat>, check: bool): Outcome
    requires id in t
  {
    if !check then Outcome(IoErrLock, m, t)
    else if Refused(t, held) then Outcome(Busy, m, t)
    else Outcome(Ok, With(m, held.exclusive, mask), t[id := t[id] + multiset{held}])
  }

  function ShmRelease(m: Masks, t: Table, id: Id, range: Range, mask: set<nat>): Outcome
    requires id in t
  {
    if CanUnlock(t, id, range) then Outcome(Ok, Without(m, mask), Unlock(t, id, range))
    else Outcome(IoErrUnlock, m, t)
  }

  /** fShmLock of an open index. */
  function ShmLock(m: Masks, t: Table, id: Id, offset: int, count: int, flags: int, check: bool): Outcome
    requires id in t
  {
    if !LegalLock(true, offset, count, flags) then Outcome(IoErrShmLock, m, t)
    else
      match Requested(m, offset, count, flags)
      case Answer(rc) => Outcome(rc, m, t)
      case Take(held) => ShmTake(m, t, id, held, Slots(offset, count), check)
      case Release(range) => ShmRelease(m, t, id, range, Slots(offset, count))
  }

  // --------------------------------------------------------------- mapping

  function Wanted(page: int): int {
    (page + 1) * PAGE
  }

  /** The view of one page: it starts at an offset the system allows. */
  function View(page: nat, granule: nat): Region
    requires granule > 0
  {
    var offset := page * PAGE;
    var aligned := offset - offset % granule;
    Mapped(aligned, offset - aligned + PAGE, aligned + (offset - aligned))
  }

  function Grown(regions: seq<Region>, page: nat): seq<Region> {
    if page < |regions| then regions else regions + seq(page + 1 - |regions|, _ => Unmapped)
  }

  function Return(h: Handle, rc: Rc): Handle {
    h.(pc := Idle, ret := rc)
  }

  function Put(w: World, id: Id, h: Handle): World {
    w.(handles := w.handles[id := h])
  }

  /** fMap up to its first system call. */
  function BeginMap(h: Handle, page: int, size: int, extend: bool, check: bool): Handle {
    var h1 := h.(out := None);
    if page < 0 || page > MAX_PAGE || size != PAGE || !check then Return(h1, IoErrShmMap)
    else h1.(page := page, extend := extend, pc := Opening)
  }

  /** What the system answers to the call a handle stands at: whether it went
      well, whether the lock was refused, what an unlock returned, the size of
      the file, and whether no handle has the file open. */
  datatype Reply = Reply(ok: bool, refused: bool, released: Rc, length: nat, granule: nat, alone: bool)

  /** shm_open goes on to its next system call. */
  function OpenNext(h: Handle, a: Reply): Handle
    requires Opens(h.pc)
  {
    match h.pc
    case Opening =>
      if h.open then if a.ok then h.(pc := Sizing) else Return(h, IoErrAccess)
      else if !h.main || !a.ok then Return(h, IoErrShmOpen)
      else h.(open := true, pc := TryDeadman)
    case TryDeadman => h.(pc := if !a.ok then GiveUp(IoErrLock) else if a.refused then ShareDeadman else Truncate)
    case Truncate => h.(pc := ReleaseDeadman(if a.ok then Ok else IoErrTruncate))
    case ReleaseDeadman(truncated) =>
      var rc := if truncated == Ok then a.released else truncated;
      h.(pc := if rc == Ok then ShareDeadman else GiveUp(rc))
    case ShareDeadman =>
      if !a.ok then h.(pc := GiveUp(IoErrLock))
      else if a.refused then h.(pc := GiveUp(Busy))
      else h.(deadman := true, pc := Sizing)
    case GiveUp(rc) => Return(h.(open := false), rc)
  }

  /** The rest of fMap goes on. */
  function MapNext(h: Handle, a: Reply): Handle
    requires Maps(h.pc)
  {
    match h.pc
    case Sizing =>
      if h.regionSize != 0 && h.regionSize != PAGE then Return(h, IoErrShmMap)
      else if !a.ok then Return(h, IoErrShmSize)
      else if a.length < Wanted(h.page) && !h.extend then Return(h, Ok)
      else h.(pc := Growing)
    case Growing =>
      if h.page < 0 || (h.page >= |h.regions| && !a.ok) then Return(h, NoMem)
      else
        var regions := Grown(h.regions, h.page);
        var h1 := if h.page >= |h.regions| then h.(regions := regions, regionSize := PAGE) else h;
        match regions[h.page] {
          case Mapped(_, _, data) => Return(h1.(out := Some(data)), Ok)
          case Unmapped => h1.(pc := Mapping)
        }
    case Mapping => if a.ok then h.(pc := Viewing) else Return(h, IoErrShmMap)
    case Viewing =>
      if !a.ok || !(0 <= h.page < |h.regions|) || a.granule == 0 then Return(h, IoErrShmMap)
      else
        var view := View(h.page, a.granule);
        Return(h.(regions := h.regions[h.page := view], out := Some(view.data)), Ok)
  }

  /** fUnmap goes on. Unmapping a view succeeds. Deleting the file needs a handle
      that shares with no other, without which the file stays; closing reports an
      error only after it closed. */
  function UnmapNext(h: Handle, a: Reply): Handle
    requires Unmaps(h.pc)
  {
    match h.pc
    case Unmapping(remove, i) =>
      if i < |h.regions| then h.(regions := h.regions[i := Unmapped], pc := Unmapping(remove, i + 1))
      else h.(regions := [], regionSize := 0, pc := Dropping(remove))
    case Dropping(remove) =>
      var h1 := h.(open := false, deadman := false, shared := {}, exclusive := {});
      if !a.ok then Return(h1, IoErrClose) else if remove then h1.(pc := Removing) else Return(h1, Ok)
    case Removing => Return(h, if a.alone && !a.ok then IoErrDelete else Ok)
  }

  predicate Opens(pc: Pc) {
    pc.Opening? || pc.TryDeadman? || pc.Truncate? || pc.ReleaseDeadman? || pc.ShareDeadman? || pc.GiveUp?
  }

  predicate Maps(pc: Pc) {
    pc.Sizing? || pc.Growing? || pc.Mapping? || pc.Viewing?
  }

  predicate Unmaps(pc: Pc) {
    pc.Unmapping? || pc.Dropping? || pc.Removing?
  }

  function Next(h: Handle, a: Reply): Handle {
    if Opens(h.pc) then OpenNext(h, a)
    else if Maps(h.pc) then MapNext(h, a)
    else if Unmaps(h.pc) then UnmapNext(h, a)
    else h
  }

  /** The lock call a handle stands at, if it stands at one. */
  function Asked(pc: Pc): Option<Held> {
    match pc
    case TryDeadman => Some(Held(DMS_RANGE, true))
    case ShareDeadman => Some(Held(DMS_RANGE, false))
    case _ => None
  }

  function Answered(w: World, id: Id, pc: Pc, ok: bool): Reply {
    var asked := Asked(pc);
    Reply(ok, asked.Some? && Refused(w.table, asked.value),
          if id in w.table && CanUnlock(w.table, id, DMS_RANGE) then Ok else IoErrUnlock,
          w.length, w.granule, w.table == map[])
  }

  /** What the call does to the lock table, */
  function TableAfter(t: Table, id: Id, h: Handle, ok: bool): Table
    requires h.pc.TryDeadman? || h.pc.ShareDeadman? || h.pc.ReleaseDeadman? ==> id in t
  {
    match h.pc
    case Opening => if !h.open && h.main && ok then t[id := multiset{}] else t
    case TryDeadman => if ok then Lock(t, id, Held(DMS_RANGE, true)) else t
    case ShareDeadman => if ok then Lock(t, id, Held(DMS_RANGE, false)) else t
    case ReleaseDeadman(_) => Unlock(t, id, DMS_RANGE)
    case GiveUp(_) => t - {id}
    case Dropping(_) => t - {id}
    case _ => t
  }

  /** and to the file's size: a larger mapping grows it. */
  function LengthAfter(w: World, h: Handle, ok: bool): nat {
    if !ok then w.length
    else if h.pc == Truncate || (h.pc == Removing && w.table == map[]) then 0
    else if h.pc == Mapping && w.length < Wanted(h.page) then Wanted(h.page)
    else w.length
  }

  function FireAt(w: World, id: Id, h: Handle, ok: bool): World {
    if (h.pc.TryDeadman? || h.pc.ShareDeadman? || h.pc.ReleaseDeadman?) && id !in w.table then w
    else
      World(w.handles[id := Next(h, Answered(w, id, h.pc, ok))], TableAfter(w.table, id, h, ok),
            LengthAfter(w, h, ok), w.granule)
  }

  const FRESH := Handle(true, false, false, {}, {}, [], 0, 0, false, Idle, Ok, None)

  function CallLockAt(w: World, id: Id, h: Handle, a: Action): World
    requires a.CallLock?
  {
    if !h.open || id !in w.table then Put(w, id, Return(h, IoErrShmLock))
    else
      var o := ShmLock(Masks(h.shared, h.exclusive), w.table, id, a.offset, a.count, a.flags, a.check);
      Put(w, id, Return(h.(shared := o.masks.shared, exclusive := o.masks.exclusive), o.rc)).(table := o.table)
  }

  /** One step. An action that is not enabled changes nothing. */
  function Apply(w: World, a: Action): World {
    if a.Open? then
      if a.id in w.handles then w else Put(w, a.id, FRESH.(main := a.main))
    else if a.id !in w.handles then w
    else
      var h := w.handles[a.id];
      match a
      case Fire(id, ok) => FireAt(w, id, h, ok)
      case Close(id) => w.(handles := w.handles - {id}, table := w.table - {id})
      case NoDelete(id) => if h.pc == Removing then Put(w, id, Return(h, Ok)) else w
      case CallMap(id, page, size, extend, check) =>
        if h.pc == Idle then Put(w, id, BeginMap(h, page, size, extend, check)) else w
      case CallLock(id, _, _, _, _) => if h.pc == Idle then CallLockAt(w, id, h, a) else w
      case CallUnmap(id, remove) =>
        if h.pc != Idle then w
        else Put(w, id, if h.open then h.(pc := Unmapping(remove, 0)) else Return(h, Ok))
  }

  function Exec(w: World, acts: seq<Action>): World
    decreases |acts|
  {
    if acts == [] then w else Apply(Exec(w, acts[..|acts|-1]), acts[|acts|-1])
  }

  /** A database nobody has open; its index may be left from earlier. */
  predicate Initial(w: World) {
    w.handles == map[] && w.table == map[] && w.granule > 0
  }
}
