/** The registered roots: a linked list under one lock, searched on every open.
    No root lies inside another, so the order of the list never matters. */
module RootRegistry {
  import opened CheckedPath

  // ------------------------------------------------------------ on values

  datatype Entry = Entry(token: nat, path: seq<Wide>, files: nat)

  /** The list from its head, and the last token given out. */
  datatype State = State(entries: seq<Entry>, last: nat)

  predicate Nested(fold: Fold, a: seq<Wide>, b: seq<Wide>) {
    Equal(fold, a, b) || Contains(fold, a, b) || Contains(fold, b, a)
  }

  predicate Clashes(fold: Fold, s: State, path: seq<Wide>) {
    exists k | 0 <= k < |s.entries| :: Nested(fold, path, s.entries[k].path)
  }

  function Register(fold: Fold, s: State, path: seq<Wide>): (Rc, State) {
    if Clashes(fold, s, path) then (Busy, s)
    else (Ok, State([Entry(s.last + 1, path, 0)] + s.entries, s.last + 1))
  }

  /** The place of the first root that contains the path, or the list's length. */
  function Find(fold: Fold, entries: seq<Entry>, path: seq<Wide>): (k: nat)
    ensures k <= |entries|
    ensures k < |entries| ==> Contains(fold, entries[k].path, path)
    ensures forall i | 0 <= i < k :: !Contains(fold, entries[i].path, path)
  {
    if entries == [] || Contains(fold, entries[0].path, path) then 0 else 1 + Find(fold, entries[1..], path)
  }

  function Place(entries: seq<Entry>, token: nat): (k: nat)
    ensures k <= |entries|
    ensures k < |entries| ==> entries[k].token == token
    ensures forall i | 0 <= i < k :: entries[i].token != token
  {
    if entries == [] || entries[0].token == token then 0 else 1 + Place(entries[1..], token)
  }

  function Unlinked(s: State, token: nat): (Rc, State) {
    var k := Place(s.entries, token);
    if k == |s.entries| then (NotFound, s)
    else if s.entries[k].files != 0 then (Busy, s)
    else (Ok, s.(entries := s.entries[..k] + s.entries[k + 1..]))
  }

  function Counted(s: State, k: nat, files: nat): State
    requires k < |s.entries|
  {
    s.(entries := s.entries[k := s.entries[k].(files := files)])
  }

  // ------------------------------------------------------------- invariant

  ghost predicate Disjoint(fold: Fold, entries: seq<Entry>) {
    forall i, j | 0 <= i < j < |entries| ::
      !Nested(fold, entries[i].path, entries[j].path) && entries[i].token != entries[j].token
  }

  ghost predicate Inv(fold: Fold, s: State) {
    Disjoint(fold, s.entries) && forall k | 0 <= k < |s.entries| :: 1 <= s.entries[k].token <= s.last
  }

  lemma RegisterKeepsInv(fold: Fold, s: State, path: seq<Wide>)
    requires Inv(fold, s)
    ensures Inv(fold, Register(fold, s, path).1)
  {
    hide Nested;
    var t := Register(fold, s, path).1;
    forall i, j | 0 <= i < j < |t.entries|
      ensures !Nested(fold, t.entries[i].path, t.entries[j].path) && t.entries[i].token != t.entries[j].token
    {
      if t != s { assert t.entries[j] == s.entries[j - 1] && (i > 0 ==> t.entries[i] == s.entries[i - 1]); }
    }
  }

  lemma CloseRootKeepsInv(fold: Fold, s: State, token: nat)
    requires Inv(fold, s)
    ensures Inv(fold, Unlinked(s, token).1)
  {
    hide Nested;
    var k, t := Place(s.entries, token), Unlinked(s, token).1;
    if t != s {
      forall i | 0 <= i < |t.entries| ensures t.entries[i] == s.entries[if i < k then i else i + 1] {
      }
    }
  }

  lemma CountedKeepsInv(fold: Fold, s: State, k: nat, files: nat)
    requires Inv(fold, s) && k < |s.entries|
    ensures Inv(fold, Counted(s, k, files))
  {
    hide Nested;
  }

  /** At most one root contains a path, so the search finds the same one whatever
      the order of the list. */
  lemma OneRootContains(fold: Fold, s: State, path: seq<Wide>, k: nat)
    requires Separates(fold) && Inv(fold, s) && k < |s.entries| && Contains(fold, s.entries[k].path, path)
    ensures Find(fold, s.entries, path) == k
  {
    var i := Find(fold, s.entries, path);
    if i < k {
      RootsOfOnePath(fold, s.entries[i].path, s.entries[k].path, path);
      hide Contains, Equal;
    }
  }

  lemma OrderIsFree(fold: Fold, s: State, t: State, path: seq<Wide>)
    requires Separates(fold) && Inv(fold, s) && multiset(t.entries) == multiset(s.entries)
    ensures var i, j := Find(fold, s.entries, path), Find(fold, t.entries, path);
      if i == |s.entries| then j == |t.entries| else j < |t.entries| && t.entries[j] == s.entries[i]
  {
    var i, j := Find(fold, s.entries, path), Find(fold, t.entries, path);
    hide Contains, Inv;
    assert i < |s.entries| ==> s.entries[i] in multiset(t.entries);
    if j < |t.entries| {
      assert t.entries[j] in multiset(s.entries);
      var k :| 0 <= k < |s.entries| && s.entries[k] == t.entries[j];
      OneRootContains(fold, s, path, k);
    }
  }

  // ------------------------------------------------- with the open handles

  type Id = nat

  /** The registry, and of every open file the token of its root. */
  datatype World = World(registry: State, handles: map<Id, nat>)

  datatype Action =
    | RegisterRoot(path: seq<Wide>)
    | OpenFile(id: Id, path: seq<Wide>, ok: bool)
    | CloseFile(id: Id)
    | Unregister(token: nat)

  function Apply(fold: Fold, w: World, a: Action): World {
    match a
    case RegisterRoot(path) => w.(registry := Register(fold, w.registry, path).1)
    case Unregister(token) => w.(registry := Unlinked(w.registry, token).1)
    case OpenFile(id, path, ok) =>
      var k := Find(fold, w.registry.entries, path);
      if id in w.handles || !ok || k == |w.registry.entries| then w
      else
        var e := w.registry.entries[k];
        World(Counted(w.registry, k, e.files + 1), w.handles[id := e.token])
    case CloseFile(id) =>
      if id !in w.handles then w
      else
        var k := Place(w.registry.entries, w.handles[id]);
        World(if k == |w.registry.entries| || w.registry.entries[k].files == 0 then w.registry
              else Counted(w.registry, k, w.registry.entries[k].files - 1), w.handles - {id})
  }

  function Exec(fold: Fold, w: World, acts: seq<Action>): World
    decreases |acts|
  {
    if acts == [] then w else Apply(fold, Exec(fold, w, acts[..|acts|-1]), acts[|acts|-1])
  }

  const EMPTY := World(State([], 0), map[])

  /** The open files of one root. */
  function Users(handles: map<Id, nat>, token: nat): set<Id> {
    set id | id in handles && handles[id] == token
  }

  predicate Registered(s: State, token: nat) {
    Place(s.entries, token) < |s.entries|
  }

  /** Every count is the number of open files, and each of these has its root. */
  ghost predicate Counts(w: World) {
    && (forall k | 0 <= k < |w.registry.entries| :: w.registry.entries[k].files == |Users(w.handles, w.registry.entries[k].token)|)
    && (forall id | id in w.handles :: Registered(w.registry, w.handles[id]))
  }

  lemma UsersOpen(handles: map<Id, nat>, id: Id, token: nat, other: nat)
    requires id !in handles
    ensures |Users(handles[id := token], other)| == |Users(handles, other)| + if other == token then 1 else 0
  {
    var now, before := Users(handles[id := token], other), Users(handles, other);
    assert now == if other == token then before + {id} else before;
  }

  lemma UsersClose(handles: map<Id, nat>, id: Id, other: nat)
    requires id in handles
    ensures |Users(handles, other)| == |Users(handles - {id}, other)| + if other == handles[id] then 1 else 0
  {
    var now, before := Users(handles - {id}, other), Users(handles, other);
    assert before == if other == handles[id] then now + {id} else now;
  }

  lemma RegisteredIff(s: State, token: nat)
    ensures Registered(s, token) <==> exists k :: 0 <= k < |s.entries| && s.entries[k].token == token
  {
  }

  lemma RegisterCounts(fold: Fold, w: World, path: seq<Wide>)
    requires Inv(fold, w.registry) && Counts(w)
    ensures Counts(Apply(fold, w, RegisterRoot(path)))
  {
    hide Nested;
    var w' := Apply(fold, w, RegisterRoot(path));
    if w'.registry != w.registry {
      var token := w.registry.last + 1;
      forall id | id in w.handles ensures Registered(w'.registry, w.handles[id]) && w.handles[id] != token {
        RegisteredIff(w.registry, w.handles[id]);
        var k :| 0 <= k < |w.registry.entries| && w.registry.entries[k].token == w.handles[id];
        assert w'.registry.entries[k + 1] == w.registry.entries[k];
        RegisteredIff(w'.registry, w.handles[id]);
      }
      assert Users(w.handles, token) == {};
      hide Users;
      forall k | 0 < k < |w'.registry.entries| ensures w'.registry.entries[k] == w.registry.entries[k - 1] {
      }
    }
  }

  lemma CountedPlaces(s: State, k: nat, files: nat, token: nat)
    requires k < |s.entries|
    ensures Registered(Counted(s, k, files), token) <==> Registered(s, token)
  {
    var t := Counted(s, k, files);
    RegisteredIff(s, token);
    RegisteredIff(t, token);
    assert forall i | 0 <= i < |s.entries| :: t.entries[i].token == s.entries[i].token;
  }

  lemma OpenCounts(fold: Fold, w: World, id: Id, path: seq<Wide>, ok: bool)
    requires Inv(fold, w.registry) && Counts(w)
    ensures Counts(Apply(fold, w, OpenFile(id, path, ok)))
  {
    hide Nested, Users, Registered;
    var k, w' := Find(fold, w.registry.entries, path), Apply(fold, w, OpenFile(id, path, ok));
    if id !in w.handles && ok && k < |w.registry.entries| {
      var e := w.registry.entries[k];
      forall i | 0 <= i < |w.registry.entries|
        ensures w'.registry.entries[i].files == |Users(w'.handles, w'.registry.entries[i].token)|
      {
        UsersOpen(w.handles, id, e.token, w.registry.entries[i].token);
      }
      RegisteredIff(w.registry, e.token);
      forall o | o in w'.handles ensures Registered(w'.registry, w'.handles[o]) {
        CountedPlaces(w.registry, k, e.files + 1, w'.handles[o]);
      }
    }
  }

  lemma CloseCounts(fold: Fold, w: World, id: Id)
    requires Inv(fold, w.registry) && Counts(w)
    ensures Counts(Apply(fold, w, CloseFile(id)))
  {
    hide Nested, Users;
    var w' := Apply(fold, w, CloseFile(id));
    if id in w.handles {
      var token := w.handles[id];
      assert Registered(w.registry, token);
      var k := Place(w.registry.entries, token);
      UsersClose(w.handles, id, token);
      hide Registered;
      forall i | 0 <= i < |w.registry.entries|
        ensures w'.registry.entries[i].files == |Users(w'.handles, w'.registry.entries[i].token)|
      {
        UsersClose(w.handles, id, w.registry.entries[i].token);
      }
      forall o | o in w'.handles ensures Registered(w'.registry, w'.handles[o]) {
        CountedPlaces(w.registry, k, w.registry.entries[k].files - 1, w'.handles[o]);
      }
    }
  }

  /** A root that is freed has no open file. */
  lemma FreedIsUnused(fold: Fold, w: World, token: nat)
    requires Counts(w) && Unlinked(w.registry, token).0 == Ok
    ensures Users(w.handles, token) == {}
  {
  }

  /** Freeing one root loses no other. */
  lemma OthersStayRegistered(s: State, token: nat, other: nat)
    requires Unlinked(s, token).0 == Ok && other != token && Registered(s, other)
    ensures Registered(Unlinked(s, token).1, other)
  {
    var k, i, t := Place(s.entries, token), Place(s.entries, other), Unlinked(s, token).1;
    RegisteredIff(t, other);
    assert i < |s.entries| && s.entries[i].token == other;
    hide Place, Registered;
    assert t.entries[if i < k then i else i - 1] == s.entries[i];
  }

  lemma EntriesLeft(s: State, token: nat, i: nat)
    requires i < |Unlinked(s, token).1.entries|
    ensures Unlinked(s, token).1.entries[i] in s.entries
  {
    hide Place;
  }

  lemma UnregisterCounts(fold: Fold, w: World, token: nat)
    requires Counts(w)
    ensures Counts(Apply(fold, w, Unregister(token)))
  {
    if Unlinked(w.registry, token).0 == Ok {
      hide Unlinked, Registered, Users;
      var t := Unlinked(w.registry, token).1;
      FreedIsUnused(fold, w, token);
      forall id | id in w.handles ensures Registered(t, w.handles[id]) {
        UsersAre(w.handles, token, id);
        OthersStayRegistered(w.registry, token, w.handles[id]);
      }
      forall i | 0 <= i < |t.entries| ensures t.entries[i].files == |Users(w.handles, t.entries[i].token)| {
        EntriesLeft(w.registry, token, i);
      }
    }
  }

  lemma UsersAre(handles: map<Id, nat>, token: nat, id: Id)
    ensures id in Users(handles, token) <==> id in handles && handles[id] == token
  {
  }

  /** Over any sequence of registering, opening, closing and unregistering: no
      root lies in another, tokens are distinct, every count is the number of
      open files of its root, and no open file has lost its root. */
  lemma {:induction false} ReachableRegistry(fold: Fold, acts: seq<Action>)
    ensures var w := Exec(fold, EMPTY, acts); Inv(fold, w.registry) && Counts(w)
    decreases |acts|
  {
    if acts != [] {
      var before, a := acts[..|acts|-1], acts[|acts|-1];
      var w := Exec(fold, EMPTY, before);
      ReachableRegistry(fold, before);
      match a {
        case RegisterRoot(path) => RegisterKeepsInv(fold, w.registry, path); RegisterCounts(fold, w, path);
        case Unregister(token) => CloseRootKeepsInv(fold, w.registry, token); UnregisterCounts(fold, w, token);
        case OpenFile(id, path, ok) => OpenKeepsInv(fold, w, id, path, ok); OpenCounts(fold, w, id, path, ok);
        case CloseFile(id) => CloseKeepsInv(fold, w, id); CloseCounts(fold, w, id);
      }
      hide Inv, Counts, Apply;
    }
  }

  lemma OpenKeepsInv(fold: Fold, w: World, id: Id, path: seq<Wide>, ok: bool)
    requires Inv(fold, w.registry)
    ensures Inv(fold, Apply(fold, w, OpenFile(id, path, ok)).registry)
  {
    hide Inv;
    var k := Find(fold, w.registry.entries, path);
    if k < |w.registry.entries| { CountedKeepsInv(fold, w.registry, k, w.registry.entries[k].files + 1); }
  }

  lemma CloseKeepsInv(fold: Fold, w: World, id: Id)
    requires Inv(fold, w.registry)
    ensures Inv(fold, Apply(fold, w, CloseFile(id)).registry)
  {
    hide Inv;
    if id in w.handles {
      var k := Place(w.registry.entries, w.handles[id]);
      if k < |w.registry.entries| && w.registry.entries[k].files > 0 {
        CountedKeepsInv(fold, w.registry, k, w.registry.entries[k].files - 1);
      }
    }
  }

  /** Closing a root is refused exactly while one of its files is open. */
  lemma CloseIsRefusedInUse(fold: Fold, acts: seq<Action>, token: nat)
    ensures var w := Exec(fold, EMPTY, acts);
      var rc := Unlinked(w.registry, token).0;
      && (rc == NotFound <==> !Registered(w.registry, token))
      && (rc == Busy <==> Registered(w.registry, token) && Users(w.handles, token) != {})
  {
    ReachableRegistry(fold, acts);
    var w := Exec(fold, EMPTY, acts);
    hide Exec, Inv;
  }

  // ------------------------------------------------------------ the answers

  /** The root under which a path lies. */
  ghost predicate Owns(fold: Fold, s: State, path: seq<Wide>, e: Entry) {
    e in s.entries && Contains(fold, e.path, path)
  }

  /** Registering is refused exactly if a registered root is the same, lies inside
      the new one or around it; else one root is added, with a token no root has,
      and it owns what lies under it and nothing more. */
  lemma RegisterAnswers(fold: Fold, acts: seq<Action>, path: seq<Wide>)
    ensures var s := Exec(fold, EMPTY, acts).registry;
      var (rc, t) := Register(fold, s, path);
      && (rc == Ok || rc == Busy)
      && (rc == Busy <==> exists e | e in s.entries ::
            Equal(fold, path, e.path) || Contains(fold, e.path, path) || Contains(fold, path, e.path))
      && (rc == Busy ==> t == s)
      && (rc == Ok ==> exists n | n in t.entries ::
            && n.path == path && n.files == 0 && (forall e | e in s.entries :: e.token != n.token)
            && multiset(t.entries) == multiset(s.entries) + multiset{n}
            && (forall q, e :: Owns(fold, t, q, e) <==> if e == n then Contains(fold, path, q) else Owns(fold, s, q, e)))
  {
    ReachableRegistry(fold, acts);
    var s := Exec(fold, EMPTY, acts).registry;
    hide Exec, Contains, Equal;
    var n := Entry(s.last + 1, path, 0);
    forall e | e in s.entries ensures e.token != n.token {
      var k :| 0 <= k < |s.entries| && s.entries[k] == e;
    }
    if Clashes(fold, s, path) {
      var k :| 0 <= k < |s.entries| && Nested(fold, path, s.entries[k].path);
      assert s.entries[k] in s.entries;
    } else {
      var t := Register(fold, s, path).1;
      assert t.entries == [n] + s.entries && t.entries[0] == n;
      Added(s.entries, n);
      forall e | e in s.entries ensures !Nested(fold, path, e.path) {
        var k :| 0 <= k < |s.entries| && s.entries[k] == e;
      }
    }
  }

  lemma Added(entries: seq<Entry>, n: Entry)
    ensures multiset([n] + entries) == multiset(entries) + multiset{n}
    ensures forall e :: e in [n] + entries <==> e == n || e in entries
  {
  }

  /** A root is freed exactly if no file of it is open; then it owns nothing any
      more, and the other roots own what they owned. */
  lemma CloseAnswers(fold: Fold, acts: seq<Action>, token: nat)
    ensures var w := Exec(fold, EMPTY, acts);
      var s, (rc, t) := w.registry, Unlinked(w.registry, token);
      && (rc == Ok <==> Registered(s, token) && forall id | id in w.handles :: w.handles[id] != token)
      && (rc != Ok ==> t == s)
      && (rc == Ok ==> forall q, e :: Owns(fold, t, q, e) <==> Owns(fold, s, q, e) && e.token != token)
  {
    CloseIsRefusedInUse(fold, acts, token);
    ReachableRegistry(fold, acts);
    var w := Exec(fold, EMPTY, acts);
    forall id | id in w.handles ensures id in Users(w.handles, token) <==> w.handles[id] == token { }
    var s := w.registry;
    var (rc, t) := Unlinked(s, token);
    hide Exec, Contains, Nested, Users, Counts;
    if rc == Ok {
      forall e ensures e in t.entries <==> e in s.entries && e.token != token {
        LeftIff(s, token, e);
      }
    }
  }

  lemma LeftIff(s: State, token: nat, e: Entry)
    requires Unlinked(s, token).0 == Ok
    requires forall i, j | 0 <= i < j < |s.entries| :: s.entries[i].token != s.entries[j].token
    ensures e in Unlinked(s, token).1.entries <==> e in s.entries && e.token != token
  {
    var k, t := Place(s.entries, token), Unlinked(s, token).1;
    assert s.entries[k].token == token;
    hide Place;
    if e in s.entries && e.token != token {
      var i :| 0 <= i < |s.entries| && s.entries[i] == e;
      assert t.entries[if i < k then i else i - 1] == e;
    }
    if e in t.entries {
      var i :| 0 <= i < |t.entries| && t.entries[i] == e;
      assert s.entries[if i < k then i else i + 1] == e;
    }
  }

  /** A file opens exactly if its own opening works and a root owns its path: it is
      then a file of that root, which has one more and stays until it is closed. */
  lemma OpenAnswers(fold: Fold, acts: seq<Action>, id: Id, path: seq<Wide>, ok: bool)
    requires Separates(fold) && id !in Exec(fold, EMPTY, acts).handles
    ensures var w := Exec(fold, EMPTY, acts);
      var t := Apply(fold, w, OpenFile(id, path, ok));
      && (id in t.handles <==> ok && exists e :: Owns(fold, w.registry, path, e))
      && (forall e | id in t.handles && Owns(fold, w.registry, path, e) ::
            && t.handles == w.handles[id := e.token]
            && multiset(t.registry.entries) == multiset(w.registry.entries) - multiset{e} + multiset{e.(files := e.files + 1)}
            && Unlinked(t.registry, e.token) == (Busy, t.registry)
            && Apply(fold, t, CloseFile(id)) == w)
      && (id !in t.handles ==> t == w)
  {
    var w := Exec(fold, EMPTY, acts);
    ReachableRegistry(fold, acts);
    hide Exec;
    var k, s := Find(fold, w.registry.entries, path), w.registry;
    forall e | Owns(fold, s, path, e) ensures k < |s.entries| && s.entries[k] == e {
      var i :| 0 <= i < |s.entries| && s.entries[i] == e;
      OneRootContains(fold, s, path, i);
    }
    if k < |s.entries| {
      assert Owns(fold, s, path, s.entries[k]);
      OpenThenClose(fold, w, id, path);
    }
    hide Inv, Counts, Contains, Find;
  }

  lemma OpenThenClose(fold: Fold, w: World, id: Id, path: seq<Wide>)
    requires Inv(fold, w.registry) && id !in w.handles && Find(fold, w.registry.entries, path) < |w.registry.entries|
    ensures var k, t := Find(fold, w.registry.entries, path), Apply(fold, w, OpenFile(id, path, true));
      var e := w.registry.entries[k];
      && multiset(t.registry.entries) == multiset(w.registry.entries) - multiset{e} + multiset{e.(files := e.files + 1)}
      && Unlinked(t.registry, e.token) == (Busy, t.registry)
      && Apply(fold, t, CloseFile(id)) == w
  {
    hide *;
    var k, t := Find(fold, w.registry.entries, path), Apply(fold, w, OpenFile(id, path, true));
    var e := w.registry.entries[k];
    CountedTwice(fold, w.registry, k);
    OpenIs(fold, w, id, path);
    assert w.handles[id := e.token] - {id} == w.handles;
    CloseIs(fold, t, id, k);
  }

  lemma OpenIs(fold: Fold, w: World, id: Id, path: seq<Wide>)
    requires id !in w.handles && Find(fold, w.registry.entries, path) < |w.registry.entries|
    ensures var e := w.registry.entries[Find(fold, w.registry.entries, path)];
      Apply(fold, w, OpenFile(id, path, true))
      == World(Counted(w.registry, Find(fold, w.registry.entries, path), e.files + 1), w.handles[id := e.token])
  {
    hide Find, Counted;
  }

  lemma CloseIs(fold: Fold, w: World, id: Id, k: nat)
    requires id in w.handles && Place(w.registry.entries, w.handles[id]) == k < |w.registry.entries|
    requires w.registry.entries[k].files > 0
    ensures Apply(fold, w, CloseFile(id)) == World(Counted(w.registry, k, w.registry.entries[k].files - 1), w.handles - {id})
  {
    hide Place, Counted;
  }

  lemma CountedTwice(fold: Fold, s: State, k: nat)
    requires Inv(fold, s) && k < |s.entries|
    ensures var e, t := s.entries[k], Counted(s, k, s.entries[k].files + 1);
      && multiset(t.entries) == multiset(s.entries) - multiset{e} + multiset{e.(files := e.files + 1)}
      && Place(t.entries, e.token) == k < |t.entries| && t.entries[k].files == e.files + 1
      && Unlinked(t, e.token) == (Busy, t)
      && Counted(t, k, e.files) == s
  {
    var e, t := s.entries[k], Counted(s, k, s.entries[k].files + 1);
    hide Nested;
    PlaceOf(t.entries, e.token, k);
    hide Place;
  }

  // ----------------------------------------------------- the list in memory

  class Root {
    var next: Root?
    const token: nat
    const path: seq<Wide>
    var files: nat

    constructor (token: nat, path: seq<Wide>, next: Root?)
      ensures this.token == token && this.path == path && this.next == next && files == 0
    {
      this.token, this.path, this.next, files := token, path, next, 0;
    }
  }

  /** The root at a place, or null behind the last. */
  ghost function Nth(spine: seq<Root>, k: nat): Root? {
    if k < |spine| then spine[k] else null
  }

  ghost function Values(spine: seq<Root>): (s: seq<Entry>)
    reads spine
    ensures |s| == |spine|
    ensures forall k | 0 <= k < |spine| :: s[k] == Entry(spine[k].token, spine[k].path, spine[k].files)
  {
    seq(|spine|, k requires 0 <= k < |spine| reads spine => Entry(spine[k].token, spine[k].path, spine[k].files))
  }

  lemma Unlinks<T>(before: seq<T>, k: nat)
    requires k < |before|
    ensures multiset(before[..k] + before[k + 1..]) <= multiset(before)
  {
    assert before == before[..k] + [before[k]] + before[k + 1..];
  }

  lemma ValuesCount(spine: seq<Root>, k: nat, was: seq<Entry>, files: nat)
    requires k < |spine| == |was| && spine[k].files == files
    requires forall i | 0 <= i < |spine| :: was[i].token == spine[i].token && was[i].path == spine[i].path
    requires forall i | 0 <= i < |spine| && i != k :: was[i].files == spine[i].files
    ensures Values(spine) == was[k := was[k].(files := files)]
  {
  }

  lemma ValuesCut(before: seq<Root>, after: seq<Root>, k: nat, was: seq<Entry>)
    requires k < |before| && after == before[..k] + before[k + 1..] && was == Values(before)
    ensures Values(after) == was[..k] + was[k + 1..]
  {
  }

  ghost function Cut(before: seq<Root>, k: nat): (after: seq<Root>)
    requires k < |before|
    ensures |after| == |before| - 1
  {
    before[..k] + before[k + 1..]
  }

  lemma CutIs(before: seq<Root>, k: nat)
    requires k < |before|
    ensures Cut(before, k) == before[..k] + before[k + 1..]
  {
  }

  lemma CutAt(before: seq<Root>, k: nat, i: nat)
    requires k < |before| && i < |before| - 1
    ensures Cut(before, k)[i] == before[if i < k then i else i + 1]
  {
  }

  lemma NthCut(before: seq<Root>, k: nat, i: nat)
    requires k < |before|
    ensures Nth(Cut(before, k), i) == Nth(before, if i < k then i else i + 1)
    ensures i < |before| - 1 ==> Cut(before, k)[i] == before[if i < k then i else i + 1]
  {
  }

  /** With the link to root `k` moved past it, the others are a list. */
  lemma CutIsLinked(before: seq<Root>, k: nat)
    requires k < |before| && forall i, j | 0 <= i < j < |before| :: before[i] != before[j]
    requires forall i | 0 <= i < |before| :: before[i].next == Nth(before, if i + 1 == k then k + 1 else i + 1)
    ensures var after := Cut(before, k);
      && (forall i, j | 0 <= i < j < |after| :: after[i] != after[j])
      && (forall i | 0 <= i < |after| :: after[i].next == Nth(after, i + 1))
      && Nth(after, 0) == Nth(before, if k == 0 then 1 else 0)
      && (forall r | r in after :: r in before)
  {
    hide Cut, Nth;
    var after := Cut(before, k);
    forall i | 0 <= i < |after| ensures after[i] == before[if i < k then i else i + 1] { CutAt(before, k, i); }
    forall i | 0 <= i < |after| ensures after[i].next == Nth(after, i + 1) { NthCut(before, k, i + 1); }
    NthCut(before, k, 0);
  }

  lemma PrependIsLinked(first: Root, before: seq<Root>)
    requires first !in before && first.next == Nth(before, 0)
    requires forall i, j | 0 <= i < j < |before| :: before[i] != before[j]
    requires forall i | 0 <= i < |before| :: before[i].next == Nth(before, i + 1)
    ensures var after := [first] + before;
      && (forall i, j | 0 <= i < j < |after| :: after[i] != after[j])
      && (forall i | 0 <= i < |after| :: after[i].next == Nth(after, i + 1))
      && Nth(after, 0) == first
      && Values(after) == [Entry(first.token, first.path, first.files)] + Values(before)
  {
    hide Values;
    var after := [first] + before;
    assert forall i | 0 < i < |after| :: after[i] == before[i - 1];
  }

  class Registry {
    var roots: Root?
    var nextToken: nat
    ghost var spine: seq<Root>

    ghost predicate Valid()
      reads this, spine
    {
      && roots == Nth(spine, 0)
      && (forall i, j | 0 <= i < j < |spine| :: spine[i] != spine[j])
      && (forall k | 0 <= k < |spine| :: spine[k].next == Nth(spine, k + 1))
    }

    ghost function Contents(): State
      reads this, spine
    {
      State(Values(spine), nextToken)
    }

    constructor ()
      ensures Valid() && Contents() == State([], 0)
    {
      roots, nextToken, spine := null, 0, [];
    }

    /** find_root */
    method FindRoot(fold: Fold, path: seq<Wide>) returns (r: Root?, ghost k: nat)
      requires Valid()
      ensures k == Find(fold, Contents().entries, path)
      ensures if k == |spine| then r == null else r == spine[k] && Contains(fold, r.path, path)
      ensures r != null ==> Contains(fold, r.path, path)
    {
      r, k := roots, 0;
      while r != null
        invariant k <= |spine| && r == Nth(spine, k)
        invariant forall i | 0 <= i < k :: !Contains(fold, spine[i].path, path)
        decreases |spine| - k
      {
        assert r == spine[k];
        var inside := CiContains(fold, r.path, path);
        if inside {
          FindIs(fold, Values(spine), path, k);
          return;
        }
        r, k := r.next, k + 1;
      }
      FindIs(fold, Values(spine), path, k);
    }

    /** The comparison with every root there is. */
    method Conflicts(fold: Fold, path: seq<Wide>) returns (clash: bool)
      requires Valid()
      ensures clash <==> Clashes(fold, Contents(), path)
    {
      hide Contains, Equal;
      var other, k: nat := roots, 0;
      while other != null
        invariant k <= |spine| && other == Nth(spine, k)
        invariant forall i | 0 <= i < k :: !Nested(fold, path, spine[i].path)
        decreases |spine| - k
      {
        var equal := SameText(fold, path, other.path);
        var inside := CiContains(fold, other.path, path);
        var around := CiContains(fold, path, other.path);
        if equal || inside || around {
          assert Nested(fold, path, Contents().entries[k].path);
          return true;
        }
        other, k := other.next, k + 1;
      }
      return false;
    }

    /** mordred_vfs_register_root, once the root itself is open. */
    method RegisterRoot(fold: Fold, path: seq<Wide>) returns (rc: Rc, token: nat)
      requires Valid()
      modifies this
      ensures Valid() && (rc, Contents()) == Register(fold, old(Contents()), path)
      ensures if rc == Ok then fresh(spine[0]) && spine[1..] == old(spine) && token == spine[0].token
        else rc == Busy && spine == old(spine) && token == 0
    {
      hide Clashes, Values, Nth;
      var clash := Conflicts(fold, path);
      if clash { return Busy, 0; }
      rc, token := Ok, nextToken + 1;
      nextToken := token;
      Prepend(token, path);
    }

    method Prepend(token: nat, path: seq<Wide>)
      requires Valid()
      modifies this
      ensures Valid() && nextToken == old(nextToken)
      ensures |spine| > 0 && fresh(spine[0]) && spine[1..] == old(spine) && token == spine[0].token
      ensures Values(spine) == [Entry(token, path, 0)] + old(Values(spine))
    {
      hide Nth, Values;
      ghost var before, was := spine, Values(spine);
      roots := new Root(token, path, roots);
      assert Values(before) == was;
      spine := [roots] + before;
      PrependIsLinked(roots, before);
    }

    /** The link to the root of this token, or to the end. */
    method Seek(token: nat) returns (previous: Root?, root: Root?, ghost k: nat)
      requires Valid()
      ensures k == Place(Contents().entries, token) && root == Nth(spine, k)
      ensures if k < |spine| then root == spine[k] else root == null
      ensures if k > 0 then previous == spine[k - 1] else previous == null
    {
      previous, root, k := null, roots, 0;
      while root != null && root.token != token
        invariant k <= |spine| && root == Nth(spine, k)
        invariant if k > 0 then previous == spine[k - 1] else previous == null
        invariant forall i | 0 <= i < k :: spine[i].token != token
        decreases |spine| - k
      {
        previous, root, k := root, root.next, k + 1;
      }
      PlaceOf(Values(spine), token, k);
    }

    /** mordred_vfs_close_root unlinks the root of this token if it is unused. */
    method CloseRoot(token: nat) returns (rc: Rc)
      requires Valid()
      modifies this, spine
      ensures Valid() && (rc, Contents()) == Unlinked(old(Contents()), token)
      ensures rc != Ok ==> spine == old(spine)
      ensures multiset(spine) <= multiset(old(spine))
    {
      hide Place, Cut, Nth, Values;
      var previous, root;
      ghost var k;
      previous, root, k := Seek(token);
      if root == null { return NotFound; }
      if root.files != 0 { return Busy; }
      rc := Ok;
      ghost var was, before := Values(spine), spine;
      assert was[k] == Entry(token, root.path, 0);
      Unlinks(spine, k);
      Unlink(previous, root, k);
      CutIs(before, k);
      ValuesCut(before, spine, k, was);
    }

    method Unlink(previous: Root?, root: Root, ghost k: nat)
      requires Valid() && k < |spine| && root == spine[k]
      requires if k > 0 then previous == spine[k - 1] else previous == null
      modifies this, spine
      ensures Valid() && spine == Cut(old(spine), k) && nextToken == old(nextToken)
      ensures Values(old(spine)) == old(Values(spine))
    {
      hide Cut;
      ghost var before := spine;
      if previous == null { roots := root.next; } else { previous.next := root.next; }
      spine := Cut(before, k);
      assert k > 0 ==> before[k - 1] != root;
      CutIsLinked(before, k);
    }

    /** The part of vOpen under the lock, once the file itself is open. */
    method Enter(fold: Fold, path: seq<Wide>) returns (root: Root?)
      requires Valid()
      modifies spine
      ensures Valid() && spine == old(spine)
      ensures var k := Find(fold, old(Contents()).entries, path);
        if k == |spine| then root == null && Contents() == old(Contents())
        else root == spine[k] && Contents() == Counted(old(Contents()), k, old(spine[k].files) + 1)
    {
      ghost var k;
      root, k := FindRoot(fold, path);
      if root != null { Count(root, k, root.files + 1); }
    }

    method Count(root: Root, ghost k: nat, files: nat)
      requires Valid() && k < |spine| && root == spine[k]
      modifies root
      ensures Valid() && spine == old(spine) && Contents() == Counted(old(Contents()), k, files)
    {
      ghost var was := Values(spine);
      root.files := files;
      ValuesCount(spine, k, was, files);
    }

    /** The end of fClose. */
    method Leave(root: Root, ghost k: nat)
      requires Valid() && k < |spine| && root == spine[k] && root.files > 0
      modifies root
      ensures Valid() && spine == old(spine) && Contents() == Counted(old(Contents()), k, old(root.files) - 1)
    {
      Count(root, k, root.files - 1);
    }
  }

  lemma {:induction false} FindIs(fold: Fold, entries: seq<Entry>, path: seq<Wide>, k: nat)
    requires k <= |entries| && (k < |entries| ==> Contains(fold, entries[k].path, path))
    requires forall i | 0 <= i < k :: !Contains(fold, entries[i].path, path)
    ensures Find(fold, entries, path) == k
    decreases k
  {
    if k > 0 {
      assert !Contains(fold, entries[0].path, path);
      forall i | 0 <= i < k - 1 ensures !Contains(fold, entries[1..][i].path, path) { assert entries[1..][i] == entries[i + 1]; }
      FindIs(fold, entries[1..], path, k - 1);
    }
    hide Contains;
  }

  lemma {:induction false} PlaceOf(entries: seq<Entry>, token: nat, k: nat)
    requires k <= |entries| && (k < |entries| ==> entries[k].token == token)
    requires forall i | 0 <= i < k :: entries[i].token != token
    ensures Place(entries, token) == k
    decreases k
  {
    if k > 0 { PlaceOf(entries[1..], token, k - 1); }
  }

  /** CompareStringOrdinal of whole texts, ignoring case. */
  method SameText(fold: Fold, a: seq<Wide>, b: seq<Wide>) returns (same: bool)
    ensures same <==> Equal(fold, a, b)
  {
    if |a| != |b| { return false; }
    var i := 0;
    while i < |a|
      invariant i <= |a| && forall k | 0 <= k < i :: fold(a[k]) == fold(b[k])
    {
      if fold(a[i]) != fold(b[i]) {
        assert Folded(fold, a)[i] != Folded(fold, b)[i];
        return false;
      }
      i := i + 1;
    }
    return true;
  }
}
