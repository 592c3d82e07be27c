/** Who is admitted to a WAL index that nobody cleared for it. An opening that no
    other handle disturbs clears an index without other users; for openings that
    interleave, the history of the run decides, and three runs show how. */
module ShmStale {
  import opened ByteLocks
  import opened ShmProtocol
  import opened ShmInvariant
  import opened ShmSafety

  /** Some other handle uses the index. */
  ghost predicate OtherUser(w: World, id: Id) {
    exists o :: o in w.handles && o != id && w.handles[o].deadman
  }

  /** Some other handle holds the deadman byte to clear the index. */
  ghost predicate OtherClears(w: World, id: Id) {
    exists o :: o in w.handles && o != id && o in w.table && Held(DMS_RANGE, true) in w.table[o]
  }

  /** The steps of this handle alone, up to the end of shm_open. */
  function Undisturbed(w: World, id: Id, oks: seq<bool>): World
    requires id in w.handles
    decreases |oks|
  {
    if oks == [] then w else Undisturbed(FireAt(w, id, w.handles[id], oks[0]), id, oks[1..])
  }

  /** shm_open ends with the last of these steps, and admits the handle. */
  predicate Admits(w: World, id: Id, oks: seq<bool>)
    requires id in w.handles
    decreases |oks|
  {
    if oks == [] then w.handles[id].pc == Sizing
    else Opens(w.handles[id].pc) && Admits(FireAt(w, id, w.handles[id], oks[0]), id, oks[1..])
  }

  /** How far the index is known to be clear while the handle opens it. */
  ghost predicate Clear(w: World, id: Id)
    requires id in w.handles
  {
    match w.handles[id].pc
    case ReleaseDeadman(rc) => rc == Ok ==> w.length == 0
    case ShareDeadman => w.length == 0 || OtherUser(w, id) || OtherClears(w, id)
    case Sizing => w.length == 0 || OtherUser(w, id)
    case Opening => !w.handles[id].open
    case _ => true
  }

  /** A refused deadman byte is held by another handle, a user or one that clears. */
  lemma RefusedByOther(w: World, id: Id)
    requires Inv(w) && id in w.handles && w.handles[id].pc == TryDeadman && Refused(w.table, Held(DMS_RANGE, true))
    ensures OtherUser(w, id) || OtherClears(w, id)
  {
    hide Inv;
    Own(w, id);
    var o, x :| o in w.table && x in w.table[o] && Clash(x, Held(DMS_RANGE, true));
    assert o in w.handles && w.handles[o].open by { HasHandle(w, o); }
    Own(w, o);
    DeadmanOnly(w.table[o], Masks(w.handles[o].shared, w.handles[o].exclusive), x);
  }

  lemma HasHandle(w: World, o: Id)
    requires Inv(w) && o in w.table
    ensures o in w.handles && w.handles[o].open
  {
    hide LocksFit, Sound, Compatible;
  }

  /** A lock that overlaps the deadman byte is of the deadman byte. */
  lemma DeadmanOnly(locks: multiset<Held>, m: Masks, x: Held)
    requires Tiled(locks, m) && x in locks && Overlap(x.range, DMS_RANGE)
    ensures x.range == DMS_RANGE
  {
    hide HeldAt;
  }

  lemma OthersStay(w: World, id: Id, ok: bool)
    requires id in w.handles
    ensures var w' := FireAt(w, id, w.handles[id], ok);
      && id in w'.handles
      && (forall o | o in w.handles && o != id :: o in w'.handles && w'.handles[o] == w.handles[o])
  {
    hide Next, TableAfter, LengthAfter, Answered;
  }

  lemma FireIsNext(w: World, id: Id, ok: bool)
    requires id in w.handles && (Asked(w.handles[id].pc).Some? || w.handles[id].pc.ReleaseDeadman? ==> id in w.table)
    ensures var w' := Apply(w, Fire(id, ok));
      id in w'.handles && w'.handles[id] == Next(w.handles[id], Answered(w, id, w.handles[id].pc, ok))
  {
    hide Next, Answered, TableAfter, LengthAfter;
  }

  /** One answer to shm_open, as far as clearing goes. */
  lemma OpenNextStep(h: Handle, a: Reply)
    requires Opens(h.pc)
    ensures var h' := Next(h, a);
      match h.pc
      case Opening => h.open || h'.pc == TryDeadman || h'.pc == Idle
      case TryDeadman => h'.pc == ShareDeadman ==> a.ok && a.refused
      case Truncate => h'.pc == ReleaseDeadman(Ok) ==> a.ok
      case ReleaseDeadman(rc) => h'.pc == ShareDeadman ==> rc == Ok
      case ShareDeadman => h'.pc == Sizing ==> !a.refused
      case GiveUp(_) => h'.pc == Idle
      case _ => true
    ensures match Next(h, a).pc
      case ReleaseDeadman(_) => h.pc == Truncate
      case ShareDeadman => h.pc == TryDeadman || h.pc.ReleaseDeadman?
      case Sizing => h.pc == ShareDeadman || (h.pc == Opening && h.open)
      case Opening => false
      case _ => true
  {
  }

  /** One step of shm_open, as far as clearing goes. */
  lemma OpenStep(w: World, id: Id, ok: bool)
    requires id in w.handles && Opens(w.handles[id].pc)
    requires w.handles[id].pc.TryDeadman? || w.handles[id].pc.ShareDeadman? || w.handles[id].pc.ReleaseDeadman? ==> id in w.table
    ensures var h, w' := w.handles[id], FireAt(w, id, w.handles[id], ok);
      var h' := w'.handles[id];
      match h.pc
      case Opening => h.open || h'.pc == TryDeadman || h'.pc == Idle
      case TryDeadman => h'.pc == ShareDeadman ==> ok && Refused(w.table, Held(DMS_RANGE, true)) && w'.table == w.table
      case Truncate => h'.pc == ReleaseDeadman(Ok) ==> ok && w'.length == 0
      case ReleaseDeadman(rc) => h'.pc == ShareDeadman ==> rc == Ok && w'.length == w.length
      case ShareDeadman => h'.pc == Sizing ==> !Refused(w.table, Held(DMS_RANGE, false)) && w'.length == w.length
      case GiveUp(_) => h'.pc == Idle
      case _ => true
    ensures var h, h' := w.handles[id], FireAt(w, id, w.handles[id], ok).handles[id];
      match h'.pc
      case ReleaseDeadman(_) => h.pc == Truncate
      case ShareDeadman => h.pc == TryDeadman || h.pc.ReleaseDeadman?
      case Sizing => h.pc == ShareDeadman || (h.pc == Opening && h.open)
      case Opening => false
      case _ => true
  {
    OpenNextStep(w.handles[id], Answered(w, id, w.handles[id].pc, ok));
    hide Next, Refused, CanUnlock, Unlock;
  }

  lemma SharedWhileClearing(w: World, id: Id)
    requires OtherClears(w, id)
    ensures Refused(w.table, Held(DMS_RANGE, false))
  {
    var o :| o in w.handles && o != id && o in w.table && Held(DMS_RANGE, true) in w.table[o];
    assert Clash(Held(DMS_RANGE, true), Held(DMS_RANGE, false));
  }

  lemma StaysClear(w: World, id: Id, ok: bool)
    requires Inv(w) && id in w.handles && Opens(w.handles[id].pc) && Clear(w, id)
    ensures var w' := FireAt(w, id, w.handles[id], ok); Inv(w') && id in w'.handles && Clear(w', id)
  {
    hide Inv, LocksFit, ViewsFit, WellFormed, FireAt, Refused;
    FireKeepsInv(w, id, ok);
    Own(w, id);
    assert w.handles[id].pc.TryDeadman? || w.handles[id].pc.ShareDeadman? || w.handles[id].pc.ReleaseDeadman? ==> id in w.table
      by { OpensHasTable(w.handles[id], w.length); }
    OthersStay(w, id, ok);
    OpenStep(w, id, ok);
    if w.handles[id].pc == TryDeadman && Refused(w.table, Held(DMS_RANGE, true)) { RefusedByOther(w, id); }
    if OtherClears(w, id) { SharedWhileClearing(w, id); }
  }

  lemma OpensHasTable(h: Handle, length: nat)
    requires WellFormed(h, length)
    ensures h.pc.TryDeadman? || h.pc.ShareDeadman? || h.pc.ReleaseDeadman? ==> h.open
  {
  }

  lemma {:induction false} UndisturbedClears(w: World, id: Id, oks: seq<bool>)
    requires Inv(w) && id in w.handles && Clear(w, id) && Admits(w, id, oks)
    ensures var u := Undisturbed(w, id, oks); id in u.handles && (u.length == 0 || OtherUser(u, id))
    decreases |oks|
  {
    hide Inv, FireAt;
    if oks != [] {
      StaysClear(w, id, oks[0]);
      UndisturbedClears(FireAt(w, id, w.handles[id], oks[0]), id, oks[1..]);
    }
  }

  /** In every reachable state: a shm_open that no other handle disturbs admits
      to an empty index, or beside another live user. */
  lemma OpenClearsOrShares(w: World, acts: seq<Action>, id: Id, oks: seq<bool>)
    requires Initial(w)
    requires var t := Exec(w, acts);
      id in t.handles && t.handles[id].pc == Opening && !t.handles[id].open && Admits(t, id, oks)
    ensures var u := Undisturbed(Exec(w, acts), id, oks); u.length == 0 || OtherUser(u, id)
  {
    ReachableInv(w, acts);
    UndisturbedClears(Exec(w, acts), id, oks);
  }

  // -------------------------------------------- exactly when it is not cleared

  /** The truncation of the index goes through, or its removal. */
  predicate Clears(w: World, a: Action) {
    a.Fire? && a.ok && a.id in w.handles
    && (w.handles[a.id].pc == Truncate || (w.handles[a.id].pc == Removing && w.table == map[]))
  }

  /** A mapping makes the index longer. */
  predicate Grows(w: World, a: Action) {
    a.Fire? && a.ok && a.id in w.handles && w.handles[a.id].pc == Mapping && w.length < Wanted(w.handles[a.id].page)
  }

  /** Handle `id` asks for the deadman byte exclusively, and is refused. */
  predicate TurnedAway(w: World, a: Action, id: Id) {
    a == Fire(id, true) && id in w.handles && w.handles[id].pc == TryDeadman && Refused(w.table, Held(DMS_RANGE, true))
  }

  /** Something was there when the opening of `id` was turned away, or was added
      by anyone, and nobody has cleared the index since. */
  predicate LeftOver(w: World, acts: seq<Action>, id: Id)
    decreases |acts|
  {
    acts != []
    && var t, a := Exec(w, acts[..|acts|-1]), acts[|acts|-1];
    || Grows(t, a)
    || (TurnedAway(t, a, id) && t.length > 0)
    || (LeftOver(w, acts[..|acts|-1], id) && !Clears(t, a))
  }

  predicate Admitted(w: World, a: Action) {
    a.Fire? && a.ok && a.id in w.handles && w.handles[a.id].pc == ShareDeadman && !Refused(w.table, Held(DMS_RANGE, false))
  }

  predicate Departed(w: World, a: Action) {
    a.Close? || (a.Fire? && a.id in w.handles && w.handles[a.id].pc.Dropping?)
  }

  /** Those admitted that have not unmapped or closed since. */
  function Users(w: World, acts: seq<Action>): set<Id>
    decreases |acts|
  {
    if acts == [] then {}
    else
      var before, t, a := Users(w, acts[..|acts|-1]), Exec(w, acts[..|acts|-1]), acts[|acts|-1];
      if Admitted(t, a) then before + {a.id} else if Departed(t, a) then before - {a.id} else before
  }

  lemma LengthStep(w: World, a: Action)
    ensures Apply(w, a).length == if Clears(w, a) then 0 else if Grows(w, a) then Wanted(w.handles[a.id].page) else w.length
  {
    hide Next, TableAfter, ShmLock, BeginMap, Answered;
  }

  lemma {:induction false} LeftOverIsThere(w: World, acts: seq<Action>, id: Id)
    requires LeftOver(w, acts, id)
    ensures Exec(w, acts).length > 0
    decreases |acts|
  {
    hide Apply;
    var before, a := acts[..|acts|-1], acts[|acts|-1];
    LengthStep(Exec(w, before), a);
    if LeftOver(w, before, id) { LeftOverIsThere(w, before, id); }
  }

  /** The handle has been turned away, or has cleared the index itself. */
  predicate Waits(pc: Pc) {
    pc == ReleaseDeadman(Ok) || pc == ShareDeadman
  }

  lemma NextWaits(h: Handle, a: Reply)
    requires !Opens(h.pc)
    ensures !Waits(Next(h, a).pc)
  {
    if Maps(h.pc) { MapWaits(h, a); }
    hide MapNext;
  }

  lemma MapWaits(h: Handle, a: Reply)
    requires Maps(h.pc)
    ensures !Waits(MapNext(h, a).pc)
  {
    hide Grown, View;
  }

  lemma NextDeadman(h: Handle, a: Reply)
    ensures Next(h, a).deadman ==
      if h.pc == ShareDeadman && a.ok && !a.refused then true else if h.pc.Dropping? then false else h.deadman
  {
    hide Grown, View;
  }

  /** A call of its owner neither makes the handle wait nor changes who uses the index. */
  lemma CallStep(w: World, a: Action)
    requires a.id in w.handles && !a.Fire? && !a.Close?
    ensures a.id in Apply(w, a).handles
    ensures var h, h' := w.handles[a.id], Apply(w, a).handles[a.id];
      h'.deadman == h.deadman && (Waits(h'.pc) ==> h'.pc == h.pc)
  {
    hide ShmLock;
  }

  lemma ComesFresh(w: World, a: Action, id: Id)
    requires id !in w.handles && id in Apply(w, a).handles
    ensures !Apply(w, a).handles[id].deadman && Apply(w, a).handles[id].pc == Idle
  {
    hide Next, TableAfter, LengthAfter, Answered, ShmLock, BeginMap;
  }

  lemma AsksInTable(w: World, id: Id)
    requires Inv(w) && id in w.handles
    ensures Asked(w.handles[id].pc).Some? || w.handles[id].pc.ReleaseDeadman? ==> id in w.table
  {
    hide Inv, LocksFit, ViewsFit;
    Own(w, id);
  }

  /** How a handle comes to wait. */
  lemma WaitsStep(w: World, a: Action, id: Id)
    requires Inv(w) && id in Apply(w, a).handles && Waits(Apply(w, a).handles[id].pc)
    ensures id in w.handles && (Waits(w.handles[id].pc) || TurnedAway(w, a, id) || Clears(w, a))
  {
    hide Inv, FireAt, Refused, Next, BeginMap, CallLockAt;
    if id in w.handles {
      AsksInTable(w, id);
      if a.id != id {
        OthersLeaveIt(w, a, id);
      } else if a.Fire? {
        FireIsNext(w, id, a.ok);
        if Opens(w.handles[id].pc) { OpenStep(w, id, a.ok); } else { NextWaits(w.handles[id], Answered(w, id, w.handles[id].pc, a.ok)); }
      } else if !a.Close? {
        CallStep(w, a);
      }
    } else if id in Apply(w, a).handles {
      ComesFresh(w, a, id);
    }
  }

  /** What a waiting handle finds in the index, its history tells. */
  lemma {:induction false} ThereIsLeftOver(w: World, acts: seq<Action>, id: Id)
    requires Initial(w)
    requires var t := Exec(w, acts); id in t.handles && Waits(t.handles[id].pc) && t.length > 0
    ensures LeftOver(w, acts, id)
    decreases |acts|
  {
    hide Apply, Inv;
    if acts != [] {
      var before, a := acts[..|acts|-1], acts[|acts|-1];
      ReachableInv(w, before);
      LengthStep(Exec(w, before), a);
      WaitsStep(Exec(w, before), a, id);
      if !Grows(Exec(w, before), a) && !TurnedAway(Exec(w, before), a, id) { ThereIsLeftOver(w, before, id); }
    }
  }

  lemma DeadmanStep(w: World, a: Action, o: Id)
    requires Inv(w)
    ensures o in Apply(w, a).handles && Apply(w, a).handles[o].deadman <==>
      if a.id == o && Admitted(w, a) then true
      else if a.id == o && Departed(w, a) then false
      else o in w.handles && w.handles[o].deadman
  {
    hide Inv, FireAt, Refused, Next, BeginMap, CallLockAt;
    if o in w.handles {
      AsksInTable(w, o);
      if a.id != o {
        OthersLeaveIt(w, a, o);
      } else if a.Fire? {
        FireIsNext(w, o, a.ok);
        NextDeadman(w.handles[o], Answered(w, o, w.handles[o].pc, a.ok));
      } else if !a.Close? {
        CallStep(w, a);
      }
    } else if o in Apply(w, a).handles {
      ComesFresh(w, a, o);
    }
  }

  lemma {:induction false} UsersAre(w: World, acts: seq<Action>, o: Id)
    requires Initial(w)
    ensures o in Users(w, acts) <==> var t := Exec(w, acts); o in t.handles && t.handles[o].deadman
    decreases |acts|
  {
    hide Apply, Inv;
    if acts != [] {
      var before, a := acts[..|acts|-1], acts[|acts|-1];
      UsersAre(w, before, o);
      ReachableInv(w, before);
      DeadmanStep(Exec(w, before), a, o);
    }
  }

  /** In every run, of however many handles: a handle is admitted to an index that
      is not empty, and that nobody else uses, exactly when something was left over
      and everybody else who was admitted has gone. */
  lemma StaleIffLeftOver(w: World, acts: seq<Action>, id: Id)
    requires Initial(w) && var t := Exec(w, acts); id in t.handles && Admitted(t, Fire(id, true))
    ensures var u := Apply(Exec(w, acts), Fire(id, true));
      && id in u.handles && u.handles[id].deadman && u.handles[id].pc == Sizing
      && (u.length > 0 && !OtherUser(u, id) <==> LeftOver(w, acts, id) && Users(w, acts) == {})
  {
    var t, u := Exec(w, acts), Apply(Exec(w, acts), Fire(id, true));
    hide Apply, Inv, Exec, Initial;
    ReachableInv(w, acts);
    IsAdmitted(t, id);
    if t.length > 0 { ThereIsLeftOver(w, acts, id); }
    if LeftOver(w, acts, id) { LeftOverIsThere(w, acts, id); }
    forall o ensures o in Users(w, acts) <==> o in t.handles && t.handles[o].deadman { UsersAre(w, acts, o); }
    forall o | o != id ensures (o in u.handles && u.handles[o].deadman) == (o in t.handles && t.handles[o].deadman) {
      DeadmanStep(t, Fire(id, true), o);
    }
  }

  lemma IsAdmitted(t: World, id: Id)
    requires Inv(t) && Admitted(t, Fire(id, true))
    ensures var u := Apply(t, Fire(id, true));
      id in u.handles && u.handles[id].deadman && u.handles[id].pc == Sizing && u.length == t.length
    ensures !t.handles[id].deadman
  {
    hide LocksFit, ViewsFit, Refused;
    Own(t, id);
    hide Inv;
  }

  // ------------------------------------------------------- three ways to it

  /** The world with a new state of one handle, of its locks and of the file. */
  function Moved(w: World, id: Id, h: Handle, locks: multiset<Held>, length: nat): World {
    World(w.handles[id := h], w.table[id := locks], length, w.granule)
  }

  lemma Moves(w: World, id: Id, ok: bool, h: Handle, locks: multiset<Held>, length: nat)
    requires id in w.handles && (Asked(w.handles[id].pc).Some? || w.handles[id].pc.ReleaseDeadman? ==> id in w.table)
    requires Next(w.handles[id], Answered(w, id, w.handles[id].pc, ok)) == h
    requires TableAfter(w.table, id, w.handles[id], ok) == w.table[id := locks]
    requires LengthAfter(w, w.handles[id], ok) == length
    ensures Apply(w, Fire(id, ok)) == Moved(w, id, h, locks, length)
  {
    hide Next, Answered, TableAfter, LengthAfter;
  }

  lemma MovedAgain(w: World, id: Id, h: Handle, locks: multiset<Held>, length: nat, h': Handle, locks': multiset<Held>, length': nat)
    ensures Moved(Moved(w, id, h, locks, length), id, h', locks', length') == Moved(w, id, h', locks', length')
  {
    assert w.handles[id := h][id := h'] == w.handles[id := h'];
    assert w.table[id := locks][id := locks'] == w.table[id := locks'];
  }

  lemma Then(w: World, done: seq<Action>, a: Action) returns (acts: seq<Action>)
    ensures acts == done + [a] && Exec(w, acts) == Apply(Exec(w, done), a)
  {
    acts := done + [a];
    assert acts[..|done|] == done;
    hide Apply;
  }

  /** fMap begun, its index file open, and admitted to it. */
  const BEGUN := FRESH.(page := 0, extend := true, pc := Opening)
  const INSIDE := BEGUN.(open := true)
  const ADMITTED := INSIDE.(pc := Sizing, deadman := true)

  const NOTHING: multiset<Held> := multiset{}
  const CLEARER := multiset{Held(DMS_RANGE, true)}
  const USER := multiset{Held(DMS_RANGE, false)}

  lemma Counts()
    ensures NOTHING + CLEARER == CLEARER && CLEARER - CLEARER == NOTHING && NOTHING + USER == USER
  {
  }

  predicate Unlocked(t: Table) {
    forall o | o in t :: t[o] == NOTHING
  }

  lemma Enters(w: World, id: Id)
    requires id in w.handles && w.handles[id] == BEGUN && id !in w.table
    ensures Apply(w, Fire(id, true)) == Moved(w, id, INSIDE.(pc := TryDeadman), NOTHING, w.length)
  {
    Moves(w, id, true, INSIDE.(pc := TryDeadman), NOTHING, w.length);
  }

  /** Opens the index and takes the deadman byte to clear it. */
  lemma Takes(w0: World, done: seq<Action>, w: World, id: Id) returns (acts: seq<Action>)
    requires Exec(w0, done) == w && id in w.handles && w.handles[id] == BEGUN && id !in w.table && Unlocked(w.table)
    ensures Exec(w0, acts) == Moved(w, id, INSIDE.(pc := Truncate), CLEARER, w.length)
  {
    hide Exec, Apply;
    Enters(w, id);
    acts := Then(w0, done, Fire(id, true));
    var v := Moved(w, id, INSIDE.(pc := TryDeadman), NOTHING, w.length);
    assert forall o | o in v.table :: v.table[o] == NOTHING;
    assert !Refused(v.table, Held(DMS_RANGE, true));
    Counts();
    Moves(v, id, true, INSIDE.(pc := Truncate), CLEARER, w.length);
    MovedAgain(w, id, INSIDE.(pc := TryDeadman), NOTHING, w.length, INSIDE.(pc := Truncate), CLEARER, w.length);
    acts := Then(w0, acts, Fire(id, true));
  }

  /** Opens the index and finds the deadman byte taken. */
  lemma IsTurnedAway(w0: World, done: seq<Action>, w: World, id: Id, o: Id, x: Held) returns (acts: seq<Action>)
    requires Exec(w0, done) == w && id in w.handles && w.handles[id] == BEGUN && id !in w.table
    requires o in w.table && x in w.table[o] && x.range == DMS_RANGE
    ensures Exec(w0, acts) == Moved(w, id, INSIDE.(pc := ShareDeadman), NOTHING, w.length)
  {
    hide Exec, Apply;
    Enters(w, id);
    acts := Then(w0, done, Fire(id, true));
    var v := Moved(w, id, INSIDE.(pc := TryDeadman), NOTHING, w.length);
    assert x in v.table[o] && Clash(x, Held(DMS_RANGE, true));
    assert Refused(v.table, Held(DMS_RANGE, true));
    assert v.table[id := NOTHING] == v.table;
    Moves(v, id, true, INSIDE.(pc := ShareDeadman), NOTHING, w.length);
    MovedAgain(w, id, INSIDE.(pc := TryDeadman), NOTHING, w.length, INSIDE.(pc := ShareDeadman), NOTHING, w.length);
    acts := Then(w0, acts, Fire(id, true));
  }

  /** Clears the index, or fails to, and lets the deadman byte go. */
  lemma LetsGo(w0: World, done: seq<Action>, w: World, id: Id, ok: bool) returns (acts: seq<Action>)
    requires Exec(w0, done) == w && id in w.handles && w.handles[id] == INSIDE.(pc := Truncate)
    requires id in w.table && w.table[id] == CLEARER
    ensures Exec(w0, acts) == Moved(w, id, INSIDE.(pc := if ok then ShareDeadman else GiveUp(IoErrTruncate)), NOTHING,
                                    if ok then 0 else w.length)
  {
    hide Exec, Apply;
    var rc, length := if ok then Ok else IoErrTruncate, if ok then 0 else w.length;
    var h, h' := INSIDE.(pc := ReleaseDeadman(rc)), INSIDE.(pc := if ok then ShareDeadman else GiveUp(IoErrTruncate));
    assert w.table[id := CLEARER] == w.table;
    Moves(w, id, ok, h, CLEARER, length);
    acts := Then(w0, done, Fire(id, ok));
    Counts();
    Moves(Moved(w, id, h, CLEARER, length), id, true, h', NOTHING, length);
    MovedAgain(w, id, h, CLEARER, length, h', NOTHING, length);
    acts := Then(w0, acts, Fire(id, true));
  }

  /** Shares the deadman byte, and so is a user. */
  lemma Shares(w0: World, done: seq<Action>, w: World, id: Id) returns (acts: seq<Action>)
    requires Exec(w0, done) == w && id in w.handles && w.handles[id] == INSIDE.(pc := ShareDeadman)
    requires id in w.table && Unlocked(w.table)
    ensures Exec(w0, acts) == Moved(w, id, ADMITTED, USER, w.length)
  {
    hide Exec, Apply;
    assert !Refused(w.table, Held(DMS_RANGE, false));
    Counts();
    Moves(w, id, true, ADMITTED, USER, w.length);
    acts := Then(w0, done, Fire(id, true));
  }

  /** The user grows the empty index by a page. */
  lemma MapsPage(w0: World, done: seq<Action>, w: World, id: Id) returns (acts: seq<Action>)
    requires Exec(w0, done) == w && id in w.handles && w.handles[id] == ADMITTED && w.length == 0
    requires id in w.table && w.table[id] == USER
    ensures exists h :: Exec(w0, acts) == Moved(w, id, h, USER, PAGE)
  {
    hide Exec, Apply;
    var a, b := ADMITTED.(pc := Growing), ADMITTED.(pc := Mapping, regions := [Unmapped], regionSize := PAGE);
    assert w.table[id := USER] == w.table;
    Moves(w, id, true, a, USER, 0);
    acts := Then(w0, done, Fire(id, true));
    assert Grown([], 0) == [Unmapped];
    Moves(Moved(w, id, a, USER, 0), id, true, b, USER, 0);
    MovedAgain(w, id, a, USER, 0, b, USER, 0);
    acts := Then(w0, acts, Fire(id, true));
    Moves(Moved(w, id, b, USER, 0), id, true, b.(pc := Viewing), USER, PAGE);
    MovedAgain(w, id, b, USER, 0, b.(pc := Viewing), USER, PAGE);
    acts := Then(w0, acts, Fire(id, true));
  }

  /** And dies. */
  lemma Dies(w0: World, done: seq<Action>, w: World, id: Id) returns (acts: seq<Action>)
    requires Exec(w0, done) == w && id in w.handles
    ensures Exec(w0, acts) == w.(handles := w.handles - {id}, table := w.table - {id})
  {
    acts := Then(w0, done, Close(id));
    hide Exec;
  }

  /** A database whose index has this length, and two handles opening it. */
  function Unopened(length: nat): World {
    World(map[], map[], length, 1)
  }

  lemma BothBegin(length: nat) returns (acts: seq<Action>)
    ensures Exec(Unopened(length), acts) == World(map[0 := BEGUN, 1 := BEGUN], map[], length, 1)
  {
    assert Exec(Unopened(length), []) == Unopened(length);
    hide Exec;
    acts := Then(Unopened(length), [], Open(0, true));
    acts := Then(Unopened(length), acts, Open(1, true));
    acts := Then(Unopened(length), acts, CallMap(0, 0, PAGE, true, true));
    acts := Then(Unopened(length), acts, CallMap(1, 0, PAGE, true, true));
    hide Apply;
    BeginBoth(length);
  }

  lemma BeginBoth(length: nat)
    ensures Apply(Apply(Apply(Apply(Unopened(length), Open(0, true)), Open(1, true)), CallMap(0, 0, PAGE, true, true)),
                  CallMap(1, 0, PAGE, true, true))
         == World(map[0 := BEGUN, 1 := BEGUN], map[], length, 1)
  {
  }

  /** Handle 1 has just been admitted, alone, to an index of this length. */
  ghost predicate AdmittedAlone(w: World, length: nat) {
    1 in w.handles && w.handles[1] == ADMITTED && w.length == length && !OtherUser(w, 1)
  }

  /** The handle that came to clear the index fails; the one it turned away is
      admitted all the same, to what was left from earlier. */
  lemma StaleAfterFailedClearing(length: nat) returns (acts: seq<Action>)
    ensures Initial(Unopened(length)) && AdmittedAlone(Exec(Unopened(length), acts), length)
  {
    hide Exec;
    var w0 := Unopened(length);
    acts := BothBegin(length);
    acts := Takes(w0, acts, Exec(w0, acts), 0);
    acts := IsTurnedAway(w0, acts, Exec(w0, acts), 1, 0, Held(DMS_RANGE, true));
    acts := LetsGo(w0, acts, Exec(w0, acts), 0, false);
    acts := Shares(w0, acts, Exec(w0, acts), 1);
  }

  /** A user turns the handle away, and dies before the handle shares the byte. */
  lemma StaleAfterDeparture(length: nat) returns (acts: seq<Action>)
    ensures Initial(Unopened(length)) && AdmittedAlone(Exec(Unopened(length), acts), PAGE)
  {
    hide Exec;
    var w0 := Unopened(length);
    acts := BothBegin(length);
    acts := Takes(w0, acts, Exec(w0, acts), 0);
    acts := LetsGo(w0, acts, Exec(w0, acts), 0, true);
    acts := Shares(w0, acts, Exec(w0, acts), 0);
    acts := MapsPage(w0, acts, Exec(w0, acts), 0);
    acts := IsTurnedAway(w0, acts, Exec(w0, acts), 1, 0, Held(DMS_RANGE, false));
    acts := Dies(w0, acts, Exec(w0, acts), 0);
    acts := Shares(w0, acts, Exec(w0, acts), 1);
  }

  /** The handle clears the index itself, but before it shares the byte another
      one opens the index, grows it and dies. */
  lemma StaleAfterOwnClearing(length: nat) returns (acts: seq<Action>)
    ensures Initial(Unopened(length)) && AdmittedAlone(Exec(Unopened(length), acts), PAGE)
  {
    hide Exec;
    var w0 := Unopened(length);
    acts := BothBegin(length);
    acts := Takes(w0, acts, Exec(w0, acts), 1);
    acts := LetsGo(w0, acts, Exec(w0, acts), 1, true);
    acts := Takes(w0, acts, Exec(w0, acts), 0);
    acts := LetsGo(w0, acts, Exec(w0, acts), 0, true);
    acts := Shares(w0, acts, Exec(w0, acts), 0);
    acts := MapsPage(w0, acts, Exec(w0, acts), 0);
    acts := Dies(w0, acts, Exec(w0, acts), 0);
    acts := Shares(w0, acts, Exec(w0, acts), 1);
  }
}
