/** Opening a checked file pins every directory on the way; deleting one durably
    flushes its directory last. Every handle opened on the way is given back, and
    nothing fails for no reason. */
module CheckedOpen {
  import opened Options
  import opened CheckedPath

  const CI_DEPTH := 120
  const CI_NATIVE_PATH := 320

  type Handle = nat

  /** What CreateFileW answers. */
  datatype Opening = Came(handle: Handle) | Present | Missing | Refused

  /** What was asked of the system, and its answer. A check is one of identities,
      access lists and paths; marking and flushing have theirs with them. */
  datatype Step =
    | Opened(path: seq<Wide>, opening: Opening)
    | Checked(ok: bool)
    | Marked(handle: Handle, ok: bool)
    | Flushed(handle: Handle, ok: bool)
    | Closed(handle: Handle, ok: bool)

  predicate WentWell(s: Step) {
    match s
    case Opened(_, opening) => opening.Came?
    case Checked(ok) => ok
    case Marked(_, ok) => ok
    case Flushed(_, ok) => ok
    case Closed(_, ok) => ok
  }

  predicate AllWell(log: seq<Step>) {
    forall s | s in log :: WentWell(s)
  }

  /** The paths opened, in order. */
  function Paths(log: seq<Step>): seq<seq<Wide>> {
    if log == [] then []
    else Paths(log[..|log|-1]) + PathOf(log[|log|-1])
  }

  function PathOf(s: Step): seq<seq<Wide>> {
    match s case Opened(path, Came(_)) => [path] case _ => []
  }

  lemma PathsMore(log: seq<Step>, s: Step)
    ensures Paths(log + [s]) == Paths(log) + PathOf(s)
  {
    assert (log + [s])[..|log|] == log;
  }

  lemma {:induction false} PathsJoin(a: seq<Step>, b: seq<Step>)
    ensures Paths(a + b) == Paths(a) + Paths(b)
    decreases |b|
  {
    if b == [] {
      assert a + b == a;
    } else {
      PathsJoin(a, b[..|b|-1]);
      assert (a + b)[..|a + b|-1] == a + b[..|b|-1];
    }
  }

  /** The operating system: the handles this process has open, and what it was asked. */
  class System {
    var open: set<Handle>
    var next: Handle
    ghost var log: seq<Step>

    ghost predicate Valid()
      reads this
    {
      forall h | h in open :: h < next
    }

    constructor ()
      ensures Valid() && open == {} && log == []
    {
      open, next, log := {}, 0, [];
    }

    /** CreateFileW, of a new file or of one that is there. */
    method CreateFile(path: seq<Wide>, create: bool) returns (r: Opening)
      requires Valid()
      modifies this
      ensures Valid() && log == old(log) + [Opened(path, r)]
      ensures (r.Present? ==> create) && (r.Missing? ==> !create)
      ensures !r.Came? ==> open == old(open)
      ensures r.Came? ==> r.handle !in old(open) && open == old(open) + {r.handle}
    {
      r := *;
      if r.Came? || (r.Present? && !create) || (r.Missing? && create) {
        r := Came(next);
        open, next := open + {next}, next + 1;
      }
      log := log + [Opened(path, r)];
    }

    /** Whether an object is what it should be. */
    method Check() returns (ok: bool)
      modifies this`log
      ensures log == old(log) + [Checked(ok)]
    {
      ok := *;
      log := log + [Checked(ok)];
    }

    /** ci_delete */
    method MarkForDeletion(h: Handle) returns (ok: bool)
      requires h in open
      modifies this`log
      ensures log == old(log) + [Marked(h, ok)]
    {
      ok := *;
      log := log + [Marked(h, ok)];
    }

    /** barrier_flush */
    method Flush(h: Handle) returns (ok: bool)
      requires h in open
      modifies this`log
      ensures log == old(log) + [Flushed(h, ok)]
    {
      ok := *;
      log := log + [Flushed(h, ok)];
    }

    /** CloseHandle may report an error, but the handle is gone. */
    method CloseHandle(h: Handle) returns (ok: bool)
      requires Valid() && h in open
      modifies this
      ensures Valid() && open == old(open) - {h} && log == old(log) + [Closed(h, ok)]
    {
      ok := *;
      open := open - {h};
      log := log + [Closed(h, ok)];
    }
  }

  datatype Pin = Pin(handle: Handle, path: seq<Wide>)

  datatype Root = Root(path: seq<Wide>, native: seq<Wide>)

  /** The native path of the names under a directory. */
  function Under(native: seq<Wide>, names: seq<seq<Wide>>): seq<Wide> {
    if names == [] then native else native + [BACKSLASH] + Join(names)
  }

  lemma UnderMore(native: seq<Wide>, names: seq<seq<Wide>>, name: seq<Wide>)
    ensures Under(native, names + [name]) == Under(native, names) + [BACKSLASH] + name
  {
    if names != [] { JoinAppend(names, [name]); }
  }

  lemma UnderNone(native: seq<Wide>)
    ensures Under(native, []) == native
  {
  }

  lemma HeadOf(names: seq<seq<Wide>>, n: nat, x: seq<Wide>, rest: seq<seq<Wide>>)
    requires n < |names| && names[n..] == Cons(x, rest)
    ensures names[n] == x && n + 1 + |rest| == |names| && names[n + 1..] == rest
    ensures names[..n + 1] == names[..n] + [x]
  {
    var t := names[n..];
    assert names[n] == t[0] == x && |t| == |rest| + 1;
    assert names[n + 1..] == t[1..] == rest;
  }

  lemma FirstName(names: seq<seq<Wide>>, n: nat, path: seq<Wide>, start: nat, end: nat)
    requires n < |names| && start <= end <= |path| && end == End(path, start)
    requires names[n..] == Parts(path, start)
    ensures names[n] == path[start..end] && names[..n + 1] == names[..n] + [path[start..end]]
    ensures if end == |path| then n + 1 == |names| else n + 1 < |names| && names[n + 1..] == Parts(path, end + 1)
  {
    hide Parts, Cons;
    PartsIs(path, start);
    HeadOf(names, n, Piece(path, start, end), if end == |path| then [] else Parts(path, end + 1));
    hide End;
  }

  /** These are the directories of the first names, in order. */
  predicate Directories(paths: seq<seq<Wide>>, native: seq<Wide>, names: seq<seq<Wide>>) {
    |paths| <= |names| && forall k | 0 <= k < |paths| :: paths[k] == Under(native, names[..k + 1])
  }

  lemma NoDirectories(native: seq<Wide>, names: seq<seq<Wide>>)
    ensures Directories([], native, names)
  {
  }

  lemma OneMoreDirectory(paths: seq<seq<Wide>>, native: seq<Wide>, names: seq<seq<Wide>>, path: seq<Wide>)
    requires Directories(paths, native, names) && |paths| < |names| && path == Under(native, names[..|paths| + 1])
    ensures Directories(paths + [path], native, names)
  {
    hide Under;
  }

  lemma {:induction false} UnderGrows(native: seq<Wide>, names: seq<seq<Wide>>, k: nat)
    requires k <= |names|
    ensures |Under(native, names[..k])| <= |Under(native, names)|
    ensures k < |names| ==> |Under(native, names[..k])| < |Under(native, names)|
    decreases |names| - k
  {
    hide Under;
    if k == |names| {
      assert names[..k] == names;
    } else {
      UnderMore(native, names[..k], names[k]);
      assert names[..k + 1] == names[..k] + [names[k]];
      UnderGrows(native, names, k + 1);
    }
  }

  /** The native path does not fit its buffer, or there are too many directories. */
  predicate TooFar(native: seq<Wide>, names: seq<seq<Wide>>) {
    |Under(native, names)| >= CI_NATIVE_PATH || |names| > CI_DEPTH + 1
  }

  /** No path of this name was asked for. */
  predicate NotAt(steps: seq<Step>, path: seq<Wide>) {
    forall s | s in steps :: s.Opened? ==> s.path != path
  }

  /** Whatever came open was found in order before anything else was asked. */
  predicate Vetted(steps: seq<Step>) {
    forall i | 0 <= i < |steps| && steps[i].Opened? && steps[i].opening.Came? :: i + 1 < |steps| && steps[i + 1] == Checked(true)
  }

  /** No new file was asked for. */
  predicate NoneCreated(steps: seq<Step>) {
    forall s | s in steps :: s.Opened? ==> !s.opening.Present?
  }

  lemma NoneCreatedJoin(a: seq<Step>, b: seq<Step>)
    ensures NoneCreated(a + b) <==> NoneCreated(a) && NoneCreated(b)
  {
    assert forall s :: s in a + b <==> s in a || s in b;
  }

  lemma NothingOpened()
    ensures Vetted([]) && AllWell([]) && NoneCreated([]) && forall p :: NotAt([], p)
  {
  }

  lemma NotAtOther(steps: seq<Step>, path: seq<Wide>, other: seq<Wide>)
    requires path != other && forall s | s in steps && s.Opened? :: s.path == path
    ensures NotAt(steps, other)
  {
  }

  lemma RootIsVetted()
    ensures Vetted([Checked(true)]) && NoneCreated([Checked(true)])
  {
  }

  lemma OneChecked(ok: bool)
    ensures NoneCreated([Checked(ok)])
  {
  }

  lemma VettedJoin(a: seq<Step>, b: seq<Step>)
    requires Vetted(a) && Vetted(b)
    ensures Vetted(a + b)
  {
    var s := a + b;
    forall i | 0 <= i < |s| && s[i].Opened? && s[i].opening.Came? ensures i + 1 < |s| && s[i + 1] == Checked(true) {
      if i < |a| { assert a[i] == s[i] && s[i + 1] == a[i + 1]; } else { assert b[i - |a|] == s[i] && s[i + 1] == b[i + 1 - |a|]; }
    }
  }

  // -------------------------------------------------------- a durable delete

  /** The error the first failure of a delete of `f` is reported as. */
  function ErrorOf(s: Step, f: Handle): Rc {
    match s
    case Opened(_, _) => IoErrDirFsync
    case Checked(_) => IoErrDirFsync
    case Marked(_, _) => IoErrDelete
    case Flushed(_, _) => IoErrDirFsync
    case Closed(h, _) => if h == f then IoErrClose else IoErrDirClose
  }

  function FirstError(steps: seq<Step>, f: Handle): Rc {
    if steps == [] then Ok else if !WentWell(steps[0]) then ErrorOf(steps[0], f) else FirstError(steps[1..], f)
  }

  predicate Closes(s: Step, f: Handle) {
    s.Closed? && s.handle == f
  }

  /** All that has happened is that the directory came open and was found in order. */
  ghost predicate Behind(steps: seq<Step>, parent: seq<Wide>) {
    exists b :: steps == [Checked(true), Opened(parent, Came(b)), Checked(true)]
  }

  /** Deletion is marked, of the file, only when nothing failed, and behind the barrier,
      which is its directory, if there is to be one; the file is closed once; the
      directory is flushed, by the handle that came open, only after the file was
      marked and closed and nothing failed; that handle is closed last. */
  ghost predicate Ordered(steps: seq<Step>, f: Handle, parent: seq<Wide>, sync: bool) {
    && (forall i | 0 <= i < |steps| && steps[i].Marked? ::
          steps[i].handle == f && if sync then Behind(steps[..i], parent) else i == 0)
    && (exists i :: 0 <= i < |steps| && Closes(steps[i], f) && forall j | 0 <= j < |steps| && j != i :: !Closes(steps[j], f))
    && (forall i | 0 <= i < |steps| && steps[i].Flushed? ::
          sync && AllWell(steps[..i]) && Marked(f, true) in steps[..i] && Closed(f, true) in steps[..i]
          && Opened(parent, Came(steps[i].handle)) in steps[..i])
    && (forall s | s in steps && s.Opened? ::
          s.path == parent && (s.opening.Came? ==> Closes(steps[|steps|-1], s.opening.handle)))
    && (AllWell(steps) ==> Marked(f, true) in steps && (sync ==> exists b :: Flushed(b, true) in steps))
  }

  /** What became of the barrier. */
  datatype Barrier = NoBarrier | Unchecked | Unopened(opening: Opening) | Rejected(handle: Handle) | Ready(handle: Handle) {
    predicate Open() { Rejected? || Ready? }

    /** It is one for a delete of `f`. */
    predicate Of(f: Handle) {
      (Unopened? ==> !opening.Came? && !opening.Present?) && (Open() ==> handle != f)
    }
  }

  function OpeningSteps(b: Barrier, parent: seq<Wide>): seq<Step> {
    match b
    case NoBarrier => []
    case Unchecked => [Checked(false)]
    case Unopened(r) => [Checked(true), Opened(parent, r)]
    case Rejected(h) => [Checked(true), Opened(parent, Came(h)), Checked(false)]
    case Ready(h) => [Checked(true), Opened(parent, Came(h)), Checked(true)]
  }

  /** What the system answered to the steps that were taken. */
  datatype Answers = Answers(marked: bool, closed: bool, flushed: bool, barrier: bool)

  /** The steps of a delete, by their answers. */
  function Log(b: Barrier, parent: seq<Wide>, f: Handle, a: Answers): seq<Step> {
    OpeningSteps(b, parent)
    + (if b.NoBarrier? || b.Ready? then [Marked(f, a.marked)] else [])
    + [Closed(f, a.closed)]
    + (if b.Ready? && a.marked && a.closed then [Flushed(b.handle, a.flushed)] else [])
    + (if b.Open() then [Closed(b.handle, a.barrier)] else [])
  }

  lemma LogIsOrdered(b: Barrier, parent: seq<Wide>, f: Handle, a: Answers)
    requires b.Of(f)
    ensures Ordered(Log(b, parent, f, a), f, parent, !b.NoBarrier?)
  {
    match b {
      case NoBarrier => UnsyncedIsOrdered(parent, f, a);
      case Ready(h) => SyncedIsOrdered(h, parent, f, a);
      case _ => RefusedIsOrdered(b, parent, f, a);
    }
    hide Ordered, Log;
  }

  lemma UnsyncedIsOrdered(parent: seq<Wide>, f: Handle, a: Answers)
    ensures Ordered(Log(NoBarrier, parent, f, a), f, parent, false)
  {
    var log := Log(NoBarrier, parent, f, a);
    assert log == [Marked(f, a.marked), Closed(f, a.closed)];
    hide Log;
    assert Closes(log[1], f) && log[0] in log;
  }

  lemma RefusedIsOrdered(b: Barrier, parent: seq<Wide>, f: Handle, a: Answers)
    requires b.Of(f) && (b.Unchecked? || b.Unopened? || b.Rejected?)
    ensures Ordered(Log(b, parent, f, a), f, parent, true)
  {
    var log := Log(b, parent, f, a);
    hide Ordered;
    match b {
      case Unchecked =>
        assert log == [Checked(false), Closed(f, a.closed)];
        UncheckedIsOrdered(parent, f, a.closed);
      case Unopened(r) =>
        assert log == [Checked(true), Opened(parent, r), Closed(f, a.closed)];
        UnopenedIsOrdered(r, parent, f, a.closed);
      case Rejected(h) =>
        assert log == [Checked(true), Opened(parent, Came(h)), Checked(false), Closed(f, a.closed), Closed(h, a.barrier)];
        RejectedIsOrdered(h, parent, f, a.closed, a.barrier);
    }
  }

  /** Where the steps of each kind are, or -1. */
  ghost predicate Shape(steps: seq<Step>, f: Handle, o: int, m: int, c: int, w: int) {
    && 0 <= c < |steps| && -1 <= o < |steps| && -1 <= m < |steps| && -1 <= w < |steps|
    && forall i | 0 <= i < |steps| ::
         && (steps[i].Opened? <==> i == o) && (steps[i].Marked? <==> i == m)
         && (Closes(steps[i], f) <==> i == c) && (steps[i].Flushed? <==> i == w)
  }

  lemma ShapedIsOrdered(steps: seq<Step>, f: Handle, parent: seq<Wide>, sync: bool, o: int, m: int, c: int, w: int)
    requires Shape(steps, f, o, m, c, w)
    requires m >= 0 ==> steps[m].handle == f && if sync then Behind(steps[..m], parent) else m == 0
    requires w >= 0 ==> sync && AllWell(steps[..w]) && 0 <= o < w && 0 <= m < w && c < w
    requires w >= 0 ==> steps[o] == Opened(parent, Came(steps[w].handle))
    requires w >= 0 ==> steps[m] == Marked(f, true) && steps[c] == Closed(f, true)
    requires o >= 0 ==> steps[o].path == parent
    requires o >= 0 && steps[o].opening.Came? ==> Closes(steps[|steps|-1], steps[o].opening.handle)
    requires AllWell(steps) ==> m >= 0 && (sync ==> w >= 0)
    ensures Ordered(steps, f, parent, sync)
  {
    hide Behind;
    if w >= 0 {
      assert steps[..w][o] == steps[o] && steps[..w][m] == steps[m] && steps[..w][c] == steps[c];
      assert steps[w] in steps;
      assert WentWell(steps[w]) ==> steps[w] == Flushed(steps[w].handle, true);
    }
    if m >= 0 {
      assert steps[m] in steps;
      assert WentWell(steps[m]) ==> steps[m] == Marked(f, true);
    }
    assert Closes(steps[c], f);
  }

  lemma UncheckedIsOrdered(parent: seq<Wide>, f: Handle, closed: bool)
    ensures Ordered([Checked(false), Closed(f, closed)], f, parent, true)
  {
    var log := [Checked(false), Closed(f, closed)];
    assert log[0] in log && !WentWell(log[0]);
    hide Ordered;
    ShapedIsOrdered(log, f, parent, true, -1, -1, 1, -1);
  }

  lemma UnopenedIsOrdered(r: Opening, parent: seq<Wide>, f: Handle, closed: bool)
    requires !r.Came?
    ensures Ordered([Checked(true), Opened(parent, r), Closed(f, closed)], f, parent, true)
  {
    var log := [Checked(true), Opened(parent, r), Closed(f, closed)];
    assert log[1] in log && !WentWell(log[1]);
    hide Ordered;
    ShapedIsOrdered(log, f, parent, true, 1, -1, 2, -1);
  }

  lemma RejectedIsOrdered(h: Handle, parent: seq<Wide>, f: Handle, closed: bool, barrier: bool)
    requires h != f
    ensures Ordered([Checked(true), Opened(parent, Came(h)), Checked(false), Closed(f, closed), Closed(h, barrier)], f, parent, true)
  {
    var log := [Checked(true), Opened(parent, Came(h)), Checked(false), Closed(f, closed), Closed(h, barrier)];
    assert log[2] in log && !WentWell(log[2]);
    hide Ordered;
    ShapedIsOrdered(log, f, parent, true, 1, -1, 3, -1);
  }

  lemma SyncedIsOrdered(h: Handle, parent: seq<Wide>, f: Handle, a: Answers)
    requires h != f
    ensures Ordered(Log(Ready(h), parent, f, a), f, parent, true)
  {
    var log := Log(Ready(h), parent, f, a);
    hide Ordered;
    var opening := [Checked(true), Opened(parent, Came(h)), Checked(true)];
    if a.marked && a.closed {
      assert log == opening + [Marked(f, true), Closed(f, true), Flushed(h, a.flushed), Closed(h, a.barrier)];
      FlushedIsOrdered(h, parent, f, a.flushed, a.barrier);
    } else {
      assert log == opening + [Marked(f, a.marked), Closed(f, a.closed), Closed(h, a.barrier)];
      UnflushedIsOrdered(h, parent, f, a.marked, a.closed, a.barrier);
    }
  }

  function Open3(h: Handle, parent: seq<Wide>): seq<Step> {
    [Checked(true), Opened(parent, Came(h)), Checked(true)]
  }

  lemma FlushedIsOrdered(h: Handle, parent: seq<Wide>, f: Handle, flushed: bool, barrier: bool)
    requires h != f
    ensures Ordered([Checked(true), Opened(parent, Came(h)), Checked(true)]
                    + [Marked(f, true), Closed(f, true), Flushed(h, flushed), Closed(h, barrier)], f, parent, true)
  {
    var log := Open3(h, parent) + [Marked(f, true), Closed(f, true), Flushed(h, flushed), Closed(h, barrier)];
    assert log[..3] == Open3(h, parent);
    assert log[..5] == Open3(h, parent) + [Marked(f, true), Closed(f, true)];
    assert AllWell(log[..5]);
    hide Ordered;
    ShapedIsOrdered(log, f, parent, true, 1, 3, 4, 5);
  }

  lemma UnflushedIsOrdered(h: Handle, parent: seq<Wide>, f: Handle, marked: bool, closed: bool, barrier: bool)
    requires h != f && !(marked && closed)
    ensures Ordered([Checked(true), Opened(parent, Came(h)), Checked(true)]
                    + [Marked(f, marked), Closed(f, closed), Closed(h, barrier)], f, parent, true)
  {
    var log := Open3(h, parent) + [Marked(f, marked), Closed(f, closed), Closed(h, barrier)];
    assert log[..3] == Open3(h, parent);
    assert log[3] in log && log[4] in log && !(WentWell(log[3]) && WentWell(log[4]));
    hide Ordered;
    ShapedIsOrdered(log, f, parent, true, 1, 3, 4, -1);
  }

  lemma {:induction false} FirstErrorJoin(a: seq<Step>, b: seq<Step>, f: Handle)
    ensures FirstError(a + b, f) == if FirstError(a, f) == Ok then FirstError(b, f) else FirstError(a, f)
    decreases |a|
  {
    if a == [] {
      assert a + b == b;
    } else {
      assert (a + b)[1..] == a[1..] + b;
      FirstErrorJoin(a[1..], b, f);
    }
  }

  lemma LogError(b: Barrier, parent: seq<Wide>, f: Handle, a: Answers)
    requires b.Of(f)
    ensures FirstError(Log(b, parent, f, a), f) ==
      if !b.NoBarrier? && !b.Ready? then IoErrDirFsync
      else if !a.marked then IoErrDelete
      else if !a.closed then IoErrClose
      else if b.Ready? && !a.flushed then IoErrDirFsync
      else if b.Open() && !a.barrier then IoErrDirClose
      else Ok
  {
    var opening := OpeningSteps(b, parent);
    var marked := if b.NoBarrier? || b.Ready? then [Marked(f, a.marked)] else [];
    var closed := [Closed(f, a.closed)];
    var flushed := if b.Ready? && a.marked && a.closed then [Flushed(b.handle, a.flushed)] else [];
    var last := if b.Open() then [Closed(b.handle, a.barrier)] else [];
    OpeningError(b, parent, f);
    FirstErrorJoin(opening + marked + closed + flushed, last, f);
    FirstErrorJoin(opening + marked + closed, flushed, f);
    FirstErrorJoin(opening + marked, closed, f);
    FirstErrorJoin(opening, marked, f);
    hide OpeningSteps;
  }

  lemma LogCreatesNone(b: Barrier, parent: seq<Wide>, f: Handle, a: Answers)
    requires b.Of(f)
    ensures NoneCreated(Log(b, parent, f, a))
  {
  }

  lemma NoOpening(parent: seq<Wide>)
    ensures OpeningSteps(NoBarrier, parent) == []
  {
  }

  lemma OpeningError(b: Barrier, parent: seq<Wide>, f: Handle)
    requires b.Of(f)
    ensures FirstError(OpeningSteps(b, parent), f) == if b.NoBarrier? || b.Ready? then Ok else IoErrDirFsync
  {
    match b {
      case NoBarrier =>
      case Unchecked =>
      case Unopened(r) => FirstErrorJoin([Checked(true)], [Opened(parent, r)], f);
      case Rejected(h) =>
        FirstErrorJoin([Checked(true)], [Opened(parent, Came(h))], f);
        FirstErrorJoin([Checked(true), Opened(parent, Came(h))], [Checked(false)], f);
      case Ready(h) =>
        FirstErrorJoin([Checked(true)], [Opened(parent, Came(h))], f);
        FirstErrorJoin([Checked(true), Opened(parent, Came(h))], [Checked(true)], f);
    }
  }

  class CiFile {
    var handle: Option<Handle>
    var path: seq<Wide>
    var native: seq<Wide>
    var pins: array<Pin>
    var count: nat

    constructor ()
      ensures handle == None && count == 0 && fresh(pins) && pins.Length == CI_DEPTH
    {
      handle, path, native, count := None, [], [], 0;
      pins := new Pin[CI_DEPTH](_ => Pin(0, []));
    }

    ghost function Held(): set<Handle>
      reads this, pins
      requires count <= pins.Length
    {
      (set k | 0 <= k < count :: pins[k].handle) + if handle.Some? then {handle.value} else {}
    }

    /** Its handles are open and distinct. */
    ghost predicate Valid(sys: System)
      reads this, pins, sys
    {
      && sys.Valid() && pins.Length == CI_DEPTH && count <= pins.Length
      && (forall k | 0 <= k < count :: pins[k].handle in sys.open && (handle.Some? ==> pins[k].handle != handle.value))
      && (forall j, k | 0 <= j < k < count :: pins[j].handle != pins[k].handle)
      && (handle.Some? ==> handle.value in sys.open)
    }

    /** immediate_parent: the last directory pinned, or that of the root. */
    function Parent(): seq<Wide>
      reads this`count, this`native, this`pins, pins
      requires count <= pins.Length
    {
      if count > 0 then pins[count - 1].path else native
    }

    /** close_file_handle */
    method CloseFileHandle(sys: System) returns (ok: bool, ghost steps: seq<Step>)
      requires Valid(sys)
      modifies this`handle, sys
      ensures Valid(sys) && handle == None && sys.log == old(sys.log) + steps
      ensures sys.open == old(sys.open) - old(if handle.Some? then {handle.value} else {})
      ensures steps == if old(handle).Some? then [Closed(old(handle).value, ok)] else []
      ensures old(handle).None? ==> ok
    {
      ok, steps := true, [];
      if handle.Some? {
        ok := sys.CloseHandle(handle.value);
        steps := [Closed(handle.value, ok)];
      }
      handle := None;
    }

    /** The last pin is given back. */
    method Unpin(sys: System) returns (ok: bool, ghost h: Handle)
      requires Valid(sys) && handle == None && count > 0
      modifies this`count, sys
      ensures Valid(sys) && count == old(count) - 1 && h in old(Held())
      ensures sys.open == old(sys.open) - {h} && Held() == old(Held()) - {h}
      ensures sys.log == old(sys.log) + [Closed(h, ok)]
    {
      ghost var held := Held();
      count := count - 1;
      h := pins[count].handle;
      ok := sys.CloseHandle(pins[count].handle);
      assert held == (set k | 0 <= k < count :: pins[k].handle) + {h};
    }

    /** ci_close gives every handle back, and reports whether any close failed. */
    method CiClose(sys: System) returns (ok: bool, ghost steps: seq<Step>)
      requires Valid(sys)
      modifies this`handle, this`count, sys
      ensures Valid(sys) && handle == None && count == 0
      ensures sys.open == old(sys.open) - old(Held())
      ensures sys.log == old(sys.log) + steps && (ok <==> AllWell(steps)) && forall s | s in steps :: s.Closed?
    {
      ghost var all, held := sys.open, Held();
      ok, steps := CloseFileHandle(sys);
      if steps != [] { OneWell(steps[0]); } else { assert AllWell(steps); }
      assert Held() <= held && sys.open == all - (held - Held());
      hide AllWell;
      while count > 0
        invariant Valid(sys) && handle == None && Held() <= held && sys.open == all - (held - Held())
        invariant sys.log == old(sys.log) + steps && (ok <==> AllWell(steps)) && forall s | s in steps :: s.Closed?
      {
        hide CiFile.Held;
        var closed;
        ghost var h;
        closed, h := Unpin(sys);
        ok := ok && closed;
        WellJoin(steps, [Closed(h, closed)]);
        OneWell(Closed(h, closed));
        steps := steps + [Closed(h, closed)];
      }
    }

    /** pin_open: a directory that is not what it should be is closed again. */
    static method PinOpen(sys: System, path: seq<Wide>) returns (h: Option<Handle>, ghost steps: seq<Step>)
      requires sys.Valid()
      modifies sys
      ensures sys.Valid() && sys.log == old(sys.log) + steps
      ensures h.None? ==> sys.open == old(sys.open) && !AllWell(steps)
      ensures h.Some? ==> h.value !in old(sys.open) && sys.open == old(sys.open) + {h.value}
      ensures h.Some? ==> steps == [Opened(path, Came(h.value)), Checked(true)]
      ensures (forall s | s in steps && s.Opened? :: s.path == path) && NoneCreated(steps)
    {
      var r := sys.CreateFile(path, false);
      steps := [Opened(path, r)];
      if !r.Came? {
        assert steps[0] in steps;
        return None, steps;
      }
      var checked := sys.Check();
      steps := steps + [Checked(checked)];
      assert steps[1] in steps;
      if !checked {
        var closed := sys.CloseHandle(r.handle);
        steps := steps + [Closed(r.handle, closed)];
        assert steps[1] in steps && sys.open == old(sys.open);
        return None, steps;
      }
      return Some(r.handle), steps;
    }

    ghost function PinPaths(): (paths: seq<seq<Wide>>)
      reads this, pins
      requires count <= pins.Length
      ensures |paths| == count && forall k | 0 <= k < count :: paths[k] == pins[k].path
    {
      seq(count, k requires 0 <= k < count reads this, pins requires count <= pins.Length => pins[k].path)
    }

    /** The pins so far are the directories of the first names, in order. */
    ghost predicate Pinned(native: seq<Wide>, names: seq<seq<Wide>>)
      reads this, pins
    {
      count <= pins.Length && Directories(PinPaths(), native, names)
    }

    /** Where the name ends. */
    static method FindEnd(target: seq<Wide>, start: nat) returns (end: nat)
      requires start <= |target|
      ensures end == End(target, start)
    {
      end := start;
      while end < |target| && target[end] != BACKSLASH
        invariant start <= end <= |target| && forall k | start <= k < end :: target[k] != BACKSLASH
      {
        end := end + 1;
      }
      EndIs(target, start, end);
    }

    /** Between two names: where the walk stands. */
    ghost predicate Walking(sys: System, was: set<Handle>, native: seq<Wide>, names: seq<seq<Wide>>)
      reads this, pins, sys
    {
      && Valid(sys) && handle == None && sys.open == was + Held() && Held() !! was
      && count < |names| && path == Under(native, names[..count]) && Directories(PinPaths(), native, names)
    }

    /** One name: the last is only appended, a directory is pinned. */
    method Descend(
        sys: System, target: seq<Wide>, start: nat, end: nat, ghost was: set<Handle>, ghost native: seq<Wide>,
        ghost names: seq<seq<Wide>>)
        returns (ok: bool, ghost steps: seq<Step>)
      requires Walking(sys, was, native, names)
      requires start <= end <= |target| && names[count] == target[start..end]
      requires end < |target| <==> count + 1 < |names|
      modifies this`path, this`count, pins, sys
      ensures Valid(sys) && handle == None && sys.open == was + Held() && Held() !! was
      ensures sys.log == old(sys.log) + steps && NoneCreated(steps) && NotAt(steps, Under(native, names))
      ensures ok && end < |target| ==>
        count == old(count) + 1 && Walking(sys, was, native, names) && PinPaths() == old(PinPaths()) + Paths(steps)
      ensures ok && end == |target| ==>
        count == old(count) && path == Under(native, names[..count + 1]) && Directories(PinPaths(), native, names)
        && PinPaths() == old(PinPaths()) && steps == [] && |path| < CI_NATIVE_PATH
      ensures ok ==> Vetted(steps)
      ensures if ok then AllWell(steps) else !AllWell(steps) || TooFar(native, names)
    {
      hide Under, Directories, Paths, Vetted, AllWell, NotAt, NoneCreated;
      NothingOpened();
      steps := [];
      ghost var paths := PinPaths();
      assert names[..count + 1] == names[..count] + [target[start..end]];
      UnderMore(native, names[..count], target[start..end]);
      UnderGrows(native, names, count + 1);
      if |path| + (end - start) + 2 > CI_NATIVE_PATH { return false, []; }
      path := path + [BACKSLASH] + target[start..end];
      assert PinPaths() == paths;
      if end == |target| {
        assert names[..count + 1] == names;
        return true, [];
      }
      if count == CI_DEPTH { return false, []; }
      OneMoreDirectory(paths, native, names, path);
      ok, steps := PinNext(sys);
      NotAtOther(steps, path, Under(native, names));
    }

    /** The walk over the names: directories are pinned, the last name is left. */
    method Walk(sys: System, root: Root, target: seq<Wide>) returns (ok: bool, ghost steps: seq<Step>)
      requires Valid(sys) && handle == None && count == 0 && |root.path| < |target|
      modifies this`path, this`count, pins, sys
      ensures Valid(sys) && handle == None && sys.open == old(sys.open) + Held() && Held() !! old(sys.open)
      ensures sys.log == old(sys.log) + steps && NoneCreated(steps)
      ensures ok ==>
        var names := Parts(target, |root.path| + 1);
        count == |names| - 1 && path == Under(root.native, names) && Pinned(root.native, names)
        && |path| < CI_NATIVE_PATH && Paths(steps) == PinPaths() && Vetted(steps)
      ensures var names := Parts(target, |root.path| + 1);
        NotAt(steps, Under(root.native, names)) && if ok then AllWell(steps) else !AllWell(steps) || TooFar(root.native, names)
    {
      hide Parts, Under, End, Directories, TooFar, Paths, Vetted, NoneCreated;
      NothingOpened();
      var start := |root.path| + 1;
      ghost var names := Parts(target, start);
      path := root.native;
      UnderNone(root.native);
      NoDirectories(root.native, names);
      assert names[0..] == names && names[..0] == [] && PinPaths() == [];
      assert Held() == {};
      steps := [];
      NoPaths();
      while true
        invariant Walking(sys, old(sys.open), root.native, names)
        invariant start <= |target| && names[count..] == Parts(target, start)
        invariant sys.log == old(sys.log) + steps && Paths(steps) == PinPaths()
        invariant AllWell(steps) && Vetted(steps) && NoneCreated(steps) && NotAt(steps, Under(root.native, names))
        decreases |target| - start
      {
        var end := FindEnd(target, start);
        FirstName(names, count, target, start, end);
        ghost var more;
        ok, more := Descend(sys, target, start, end, old(sys.open), root.native, names);
        PathsJoin(steps, more);
        WellJoin(steps, more);
        NoneCreatedJoin(steps, more);
        ghost var before := steps;
        steps := steps + more;
        if !ok { return; }
        VettedJoin(before, more);
        if end == |target| {
          assert names[..count + 1] == names && steps == before;
          return;
        }
        start := end + 1;
      }
    }

    method PinNext(sys: System) returns (ok: bool, ghost steps: seq<Step>)
      requires Valid(sys) && handle == None && count < CI_DEPTH
      modifies this`count, pins, sys
      ensures Valid(sys) && sys.log == old(sys.log) + steps
      ensures !ok ==> count == old(count) && PinPaths() == old(PinPaths()) && Held() == old(Held()) && sys.open == old(sys.open)
      ensures ok ==> count == old(count) + 1 && PinPaths() == old(PinPaths()) + [path] && Paths(steps) == [path]
      ensures ok ==>
        exists h :: h !in old(sys.open) && sys.open == old(sys.open) + {h} && Held() == old(Held()) + {h}
      ensures (ok <==> AllWell(steps)) && (ok ==> Vetted(steps))
      ensures (forall s | s in steps && s.Opened? :: s.path == path) && NoneCreated(steps)
    {
      hide Paths;
      var h;
      h, steps := PinOpen(sys, path);
      ok := h.Some?;
      if ok {
        AddPin(sys, h.value);
        PathOfPin(path, h.value);
      }
    }

    method AddPin(sys: System, h: Handle)
      requires Valid(sys) && handle == None && count < CI_DEPTH && h in sys.open && h !in Held()
      modifies this`count, pins
      ensures Valid(sys) && count == old(count) + 1
      ensures PinPaths() == old(PinPaths()) + [path] && Held() == old(Held()) + {h}
    {
      ghost var before := pins[..count];
      pins[count] := Pin(h, path);
      count := count + 1;
      assert pins[..count] == before + [Pin(h, path)];
      assert forall k | 0 <= k < count - 1 :: pins[k] == before[k];
      assert (set k | 0 <= k < count :: pins[k].handle) == (set k | 0 <= k < count - 1 :: before[k].handle) + {h};
    }

    /** Creating never opens what was there; then that is opened like any other. */
    method Reach(sys: System, create: bool) returns (r: Opening, ghost steps: seq<Step>)
      requires sys.Valid()
      modifies sys
      ensures sys.Valid() && sys.log == old(sys.log) + steps
      ensures !r.Came? ==> sys.open == old(sys.open) && !AllWell(steps)
      ensures r.Came? ==> r.handle !in old(sys.open) && sys.open == old(sys.open) + {r.handle}
      ensures r.Came? ==> Paths(steps) == [path] && Opened(path, r) in steps && Vetted(steps + [Checked(true)])
      ensures Opened(path, Missing) in steps <==> r.Missing?
      ensures if create then r.Missing? ==> Opened(path, Present) in steps else NoneCreated(steps)
    {
      hide Paths;
      steps := [];
      r := Refused;
      if create {
        r := sys.CreateFile(path, true);
        steps := [Opened(path, r)];
        assert steps[0] in steps;
      }
      if !create || r.Present? {
        r := sys.CreateFile(path, false);
        steps := steps + [Opened(path, r)];
        assert steps[|steps|-1] in steps && [] + [Opened(path, r)] == [Opened(path, r)];
      }
      PathsOfTwo(path, r);
    }

    /** The file itself: it is opened, and then checked. */
    method OpenData(sys: System, create: bool) returns (rc: Rc, ghost steps: seq<Step>)
      requires Valid(sys) && handle == None
      modifies this`handle, sys
      ensures Valid(sys) && sys.log == old(sys.log) + steps
      ensures handle == None ==> sys.open == old(sys.open)
      ensures handle.Some? ==> handle.value !in old(sys.open) && sys.open == old(sys.open) + {handle.value}
      ensures rc == Ok ==> handle.Some? && Paths(steps) == [path] && Opened(path, Came(handle.value)) in steps && Vetted(steps)
      ensures rc == Ok || ((rc == CantOpen || rc == NotFound) && !AllWell(steps))
      ensures rc == NotFound <==> Opened(path, Missing) in steps
      ensures if create then rc == NotFound ==> Opened(path, Present) in steps else NoneCreated(steps)
    {
      hide Paths, AllWell, Vetted, NoneCreated;
      var r;
      r, steps := Reach(sys, create);
      if !r.Came? { return if r.Missing? then NotFound else CantOpen, steps; }
      handle := Some(r.handle);
      var checked := sys.Check();
      PathsMore(steps, Checked(checked));
      WellJoin(steps, [Checked(checked)]);
      NoneCreatedJoin(steps, [Checked(checked)]);
      OneWell(Checked(checked));
      OneChecked(checked);
      steps := steps + [Checked(checked)];
      rc := if checked then Ok else CantOpen;
    }

    /** It is held, with the directories, over what was open before. */
    method HoldData(sys: System, create: bool, ghost was: set<Handle>) returns (rc: Rc, ghost steps: seq<Step>)
      requires Valid(sys) && handle == None && sys.open == was + Held() && Held() !! was
      modifies this`handle, sys
      ensures Valid(sys) && sys.log == old(sys.log) + steps && sys.open == was + Held() && Held() !! was
      ensures PinPaths() == old(PinPaths())
      ensures rc == Ok ==> handle.Some? && Paths(steps) == [path] && Opened(path, Came(handle.value)) in steps && Vetted(steps)
      ensures rc == Ok || ((rc == CantOpen || rc == NotFound) && !AllWell(steps))
      ensures rc == NotFound <==> Opened(path, Missing) in steps
      ensures if create then rc == NotFound ==> Opened(path, Present) in steps else NoneCreated(steps)
    {
      hide Paths, AllWell, Vetted, NoneCreated;
      ghost var paths := PinPaths();
      rc, steps := OpenData(sys, create);
      assert PinPaths() == paths;
    }

    /** ci_open pins exactly the directories between root and file, in order, and opens
        nothing else but the file. It fails only if the path is not under the root, is
        too long or too deep, or if something that was asked failed; and then everything
        it opened is closed again. */
    method CiOpen(sys: System, fold: Fold, root: Root, target: seq<Wide>, create: bool)
        returns (rc: Rc, ghost steps: seq<Step>)
      requires sys.Valid() && pins.Length == CI_DEPTH && IsText(target)
      modifies this`handle, this`path, this`native, this`count, pins, sys
      ensures Valid(sys) && sys.log == old(sys.log) + steps
      ensures rc != Ok ==> sys.open == old(sys.open) && handle == None && count == 0
      ensures rc == Ok ==>
        Contains(fold, root.path, target) && handle.Some?
        && sys.open == old(sys.open) + Held() && Held() !! old(sys.open)
      ensures rc == Ok ==>
        var names := Parts(target, |root.path| + 1);
        count == |names| - 1 && path == Under(root.native, names) && Pinned(root.native, names)
        && Paths(steps) == PinPaths() + [path] && Opened(path, Came(handle.value)) in steps
        && Parent() == Under(root.native, names[..|names|-1]) && |path| < CI_NATIVE_PATH
      // The root was found in order first, and each object as it came open.
      ensures rc == Ok ==> |steps| > 0 && steps[0] == Checked(true) && Vetted(steps)
      ensures rc == Ok || rc == CantOpen || rc == NotFound
      ensures rc != Ok ==>
        !Contains(fold, root.path, target) || !AllWell(steps) || TooFar(root.native, Parts(target, |root.path| + 1))
      ensures Contains(fold, root.path, target) ==>
        (rc == NotFound <==> Opened(Under(root.native, Parts(target, |root.path| + 1)), Missing) in steps)
      ensures !Contains(fold, root.path, target) ==> rc == CantOpen && steps == []
      // A new file is asked for just if one may be created, and then first.
      ensures !create ==> NoneCreated(steps)
      ensures create && rc == NotFound ==> Opened(Under(root.native, Parts(target, |root.path| + 1)), Present) in steps
    {
      hide Parts, Under, Contains, TooFar, Directories, Paths, Vetted, NoneCreated, CiFile.Held, CiFile.PinPaths, CiFile.Parent;
      handle, count, path, native := None, 0, [], root.native;
      steps := [];
      NothingOpened();
      var contains := CiContains(fold, root.path, target);
      if !contains { return CantOpen, []; }
      var checked := sys.Check();
      steps := [Checked(checked)];
      OneChecked(checked);
      assert steps[0] in steps;
      if !checked { return CantOpen, steps; }
      assert |root.path| < |target| by { ContainsIsLonger(fold, root.path, target); }
      ghost var more;
      rc, more := OpenUnder(sys, root, target, create);
      PathsJoin(steps, more);
      FirstPaths();
      WellJoin(steps, more);
      RootIsVetted();
      NoneCreatedJoin(steps, more);
      if rc == Ok { VettedJoin(steps, more); }
      steps := steps + more;
    }

    /** The walk, and the file at its end. */
    method OpenUnder(sys: System, root: Root, target: seq<Wide>, create: bool) returns (rc: Rc, ghost steps: seq<Step>)
      requires Valid(sys) && handle == None && count == 0 && |root.path| < |target| && native == root.native
      modifies this`handle, this`path, this`count, pins, sys
      ensures Valid(sys) && sys.log == old(sys.log) + steps
      ensures rc != Ok ==> sys.open == old(sys.open) && handle == None && count == 0
      ensures rc == Ok ==> handle.Some? && sys.open == old(sys.open) + Held() && Held() !! old(sys.open)
      ensures rc == Ok ==>
        var names := Parts(target, |root.path| + 1);
        count == |names| - 1 && path == Under(root.native, names) && Pinned(root.native, names)
        && Paths(steps) == PinPaths() + [path] && Opened(path, Came(handle.value)) in steps
        && Parent() == Under(root.native, names[..|names|-1]) && |path| < CI_NATIVE_PATH && Vetted(steps)
      ensures rc == Ok || rc == CantOpen || rc == NotFound
      ensures rc != Ok ==> !AllWell(steps) || TooFar(root.native, Parts(target, |root.path| + 1))
      ensures rc == NotFound <==> Opened(Under(root.native, Parts(target, |root.path| + 1)), Missing) in steps
      ensures if create then rc == NotFound ==> Opened(Under(root.native, Parts(target, |root.path| + 1)), Present) in steps
        else NoneCreated(steps)
    {
      hide Parts, Under, TooFar, Directories, Paths, Vetted, NoneCreated, AllWell, NotAt, CiFile.Held, CiFile.PinPaths, CiFile.Parent, IsText;
      ghost var names := Parts(target, |root.path| + 1);
      var walked;
      walked, steps := Walk(sys, root, target);
      NotAtIs(steps, Under(root.native, names));
      rc := CantOpen;
      if walked {
        ghost var data;
        rc, data := HoldData(sys, create, old(sys.open));
        PathsJoin(steps, data);
        WellJoin(steps, data);
        NoneCreatedJoin(steps, data);
        if rc == Ok { VettedJoin(steps, data); }
        steps := steps + data;
        ParentIs(root.native, names);
      }
      if rc != Ok { steps := GiveUp(sys, steps, old(sys.open)); }
    }

    /** Whatever was opened on the way is closed again. */
    method GiveUp(sys: System, ghost steps: seq<Step>, ghost was: set<Handle>) returns (ghost all: seq<Step>)
      requires Valid(sys) && sys.open == was + Held() && Held() !! was
      modifies this`handle, this`count, sys
      ensures Valid(sys) && sys.open == was && handle == None && count == 0
      ensures steps <= all && sys.log == old(sys.log) + all[|steps|..] && (!AllWell(steps) ==> !AllWell(all))
      ensures forall p :: Opened(p, Missing) in all <==> Opened(p, Missing) in steps
      ensures (NoneCreated(all) <==> NoneCreated(steps)) && forall s | s in steps :: s in all
    {
      var _, closes := CiClose(sys);
      WellJoin(steps, closes);
      NoneCreatedJoin(steps, closes);
      all := steps + closes;
    }

    /** The parent of a file opened is its directory. */
    lemma ParentIs(root: seq<Wide>, names: seq<seq<Wide>>)
      requires Pinned(root, names) && native == root && count == |names| - 1
      ensures Parent() == Under(root, names[..|names|-1])
    {
      hide Under;
      UnderNone(root);
      if count > 0 { assert PinPaths()[count - 1] == pins[count - 1].path; }
      assert count == 0 ==> names[..count] == [];
    }

    // ------------------------------------------------------------- deleting

    /** barrier_open: a second handle of the directory, checked; a failed check
        leaves it open for the caller to close. */
    method BarrierOpen(sys: System) returns (ok: bool, barrier: Option<Handle>, ghost b: Barrier)
      requires Valid(sys) && handle.Some?
      modifies sys
      ensures Valid(sys) && sys.log == old(sys.log) + OpeningSteps(b, Parent())
      ensures barrier.None? ==> sys.open == old(sys.open)
      ensures barrier.Some? ==> barrier.value !in old(sys.open) && sys.open == old(sys.open) + {barrier.value}
      ensures !b.NoBarrier? && b.Of(handle.value) && (ok <==> b.Ready?) && (barrier.Some? <==> b.Open())
      ensures barrier.Some? ==> barrier.value == b.handle
    {
      barrier, b := None, Unchecked;
      ok := sys.Check();
      if ok {
        var r := sys.CreateFile(Parent(), false);
        ok, b := r.Came?, Unopened(r);
        if ok {
          barrier := Some(r.handle);
          ok := sys.Check();
          b := if ok then Ready(r.handle) else Rejected(r.handle);
        }
      }
    }

    /** ci_delete_and_sync: what it did, in order, is `steps`. */
    method CiDeleteAndSync(sys: System, sync: bool) returns (rc: Rc, ghost steps: seq<Step>)
      requires Valid(sys) && handle.Some?
      modifies this`handle, sys
      ensures Valid(sys) && handle == None && sys.open == old(sys.open) - {old(handle).value}
      ensures count == old(count) && pins[..] == old(pins[..])
      ensures sys.log == old(sys.log) + steps
      ensures rc == FirstError(steps, old(handle).value)
      ensures Ordered(steps, old(handle).value, Parent(), sync) && NoneCreated(steps)
    {
      hide Ordered, NoneCreated, FirstError, OpeningSteps, Log, CiFile.Parent;
      ghost var f, parent := handle.value, Parent();
      var barrier: Option<Handle> := None;
      var ready := true;
      ghost var b, a := NoBarrier, Answers(false, false, false, false);
      NoOpening(parent);
      if sync { ready, barrier, b := BarrierOpen(sys); }
      rc := if ready then Ok else IoErrDirFsync;
      rc, a := MarkAndClose(sys, rc);
      rc, a := FlushAndRelease(sys, f, sync, barrier, b, rc, a);
      steps := Log(b, parent, f, a);
      LogIs(b, parent, f, a);
      LogIsOrdered(b, parent, f, a);
      LogCreatesNone(b, parent, f, a);
      LogError(b, parent, f, a);
    }

    /** The file is marked, unless the barrier failed, and closed either way. */
    method MarkAndClose(sys: System, first: Rc) returns (rc: Rc, ghost a: Answers)
      requires Valid(sys) && handle.Some? && (first == Ok || first == IoErrDirFsync)
      modifies this`handle, sys
      ensures Valid(sys) && handle == None && sys.open == old(sys.open) - {old(handle).value}
      ensures sys.log == old(sys.log)
        + (if first == Ok then [Marked(old(handle).value, a.marked)] else []) + [Closed(old(handle).value, a.closed)]
      ensures rc == if first != Ok then first else if !a.marked then IoErrDelete else if !a.closed then IoErrClose else Ok
    {
      rc, a := first, Answers(false, false, false, false);
      if rc == Ok {
        var marked := sys.MarkForDeletion(handle.value);
        a := a.(marked := marked);
        if !marked { rc := IoErrDelete; }
      }
      var closing, _ := CloseFileHandle(sys);
      a := a.(closed := closing);
      if rc == Ok && !closing { rc := IoErrClose; }
    }

    /** The directory is flushed if nothing failed, and the barrier given back. */
    method FlushAndRelease(
        sys: System, ghost f: Handle, sync: bool, barrier: Option<Handle>, ghost b: Barrier, first: Rc, ghost a: Answers)
        returns (rc: Rc, ghost a': Answers)
      requires Valid(sys) && (barrier.Some? ==> barrier.value in sys.open && barrier.value !in Held())
      requires (barrier.Some? <==> b.Open()) && (barrier.Some? ==> barrier.value == b.handle) && (sync <==> !b.NoBarrier?)
      requires first == Ok ==> (sync ==> b.Ready?) && a.marked && a.closed
      requires first != Ok && b.Ready? ==> !(a.marked && a.closed)
      modifies sys
      ensures Valid(sys) && sys.open == old(sys.open) - (if barrier.Some? then {barrier.value} else {})
      ensures a' == a.(flushed := a'.flushed, barrier := a'.barrier)
      ensures sys.log == old(sys.log)
        + (if b.Ready? && a.marked && a.closed then [Flushed(b.handle, a'.flushed)] else [])
        + (if b.Open() then [Closed(b.handle, a'.barrier)] else [])
      ensures rc ==
        if first != Ok then first
        else if b.Ready? && !a'.flushed then IoErrDirFsync
        else if b.Open() && !a'.barrier then IoErrDirClose else Ok
    {
      rc, a' := first, a;
      if rc == Ok && sync {
        var flushed := sys.Flush(barrier.value);
        a' := a'.(flushed := flushed);
        if !flushed { rc := IoErrDirFsync; }
      }
      if barrier.Some? {
        var closed := sys.CloseHandle(barrier.value);
        a' := a'.(barrier := closed);
        if rc == Ok && !closed { rc := IoErrDirClose; }
      }
    }

    /** vDelete gives every handle back and creates nothing. It reports no error only if
        the file at the path came open and was deleted, durably if asked; otherwise the
        first error of the delete, and it fails only for a reason. */
    method VDelete(sys: System, fold: Fold, root: Option<Root>, target: seq<Wide>, sync: bool)
        returns (rc: Rc, ghost steps: seq<Step>)
      requires sys.Valid() && pins.Length == CI_DEPTH && IsText(target)
      modifies this`handle, this`path, this`native, this`count, pins, sys
      ensures sys.Valid() && (root.Some? ==> sys.open == old(sys.open) && handle == None && count == 0)
      ensures sys.log == old(sys.log) + steps && NoneCreated(steps)
      ensures root.None? ==> rc == IoErrDelete && steps == []
      ensures root.Some? && !Contains(fold, root.value.path, target) ==> rc == CantOpen && steps == []
      ensures root.Some? && Contains(fold, root.value.path, target) ==>
        var native, names := root.value.native, Parts(target, |root.value.path| + 1);
        rc == CantOpen || rc == IoErrDeleteNoEnt
        || Attempted(steps, Under(native, names), Under(native, names[..|names|-1]), sync, rc)
      ensures rc == Ok ==>
        root.Some? && Contains(fold, root.value.path, target)
        && Deleted(steps, Under(root.value.native, Parts(target, |root.value.path| + 1)), sync)
      ensures root.Some? && rc != Ok ==>
        || !Contains(fold, root.value.path, target) || !AllWell(steps)
        || TooFar(root.value.native, Parts(target, |root.value.path| + 1))
      ensures root.Some? && Contains(fold, root.value.path, target) ==>
        (rc == IoErrDeleteNoEnt <==> Opened(Under(root.value.native, Parts(target, |root.value.path| + 1)), Missing) in steps)
    {
      rc, steps := IoErrDelete, [];
      if root.Some? { rc, steps := DeleteUnder(sys, fold, root.value, target, sync); }
    }

    method DeleteUnder(sys: System, fold: Fold, root: Root, target: seq<Wide>, sync: bool)
        returns (rc: Rc, ghost steps: seq<Step>)
      requires sys.Valid() && pins.Length == CI_DEPTH && IsText(target)
      modifies this`handle, this`path, this`native, this`count, pins, sys
      ensures sys.Valid() && sys.open == old(sys.open) && handle == None && count == 0
      ensures sys.log == old(sys.log) + steps && NoneCreated(steps)
      ensures !Contains(fold, root.path, target) ==> rc == CantOpen && steps == []
      ensures Contains(fold, root.path, target) ==>
        var names := Parts(target, |root.path| + 1);
        rc == CantOpen || rc == IoErrDeleteNoEnt
        || Attempted(steps, Under(root.native, names), Under(root.native, names[..|names|-1]), sync, rc)
      ensures rc == Ok ==>
        Contains(fold, root.path, target) && Deleted(steps, Under(root.native, Parts(target, |root.path| + 1)), sync)
      ensures rc != Ok ==>
        !Contains(fold, root.path, target) || !AllWell(steps) || TooFar(root.native, Parts(target, |root.path| + 1))
      ensures Contains(fold, root.path, target) ==>
        (rc == IoErrDeleteNoEnt <==> Opened(Under(root.native, Parts(target, |root.path| + 1)), Missing) in steps)
    {
      hide Parts, Under, Contains, TooFar, Directories, Paths, AllWell, IsText, Deleted, Attempted, NoneCreated;
      hide CiFile.Held, CiFile.PinPaths, CiFile.Parent;
      rc, steps := CiOpen(sys, fold, root, target, false);
      if rc == Ok {
        ContainsIsLonger(fold, root.path, target);
        ghost var names := Parts(target, |root.path| + 1);
        UnderGrows(root.native, names, |names| - 1);
        rc, steps := DeleteOpened(sys, sync, steps);
      } else if rc == NotFound {
        rc := IoErrDeleteNoEnt;
      }
    }

    /** The file that came open is deleted, and everything given back. */
    method DeleteOpened(sys: System, sync: bool, ghost opening: seq<Step>) returns (rc: Rc, ghost steps: seq<Step>)
      requires Valid(sys) && handle.Some? && Opened(path, Came(handle.value)) in opening
      modifies this`handle, this`count, sys
      ensures Valid(sys) && handle == None && count == 0 && sys.open == old(sys.open) - old(Held())
      ensures opening <= steps && sys.log == old(sys.log) + steps[|opening|..]
      ensures NoneCreated(opening) ==> NoneCreated(steps)
      ensures Attempted(steps, path, old(Parent()), sync, rc)
      ensures rc == Ok ==> Deleted(steps, path, sync)
      ensures rc != Ok ==> !AllWell(steps)
      ensures rc != IoErrDeleteNoEnt && (Opened(path, Missing) in steps ==> Opened(path, Missing) in opening || path == old(Parent()))
    {
      hide Ordered, FirstError;
      ghost var f, parent := handle.value, Parent();
      ghost var deletes, closes;
      rc, deletes := CiDeleteAndSync(sys, sync);
      OkIsComplete(deletes, f, parent, sync);
      var closing;
      closing, closes := CiClose(sys);
      if rc == Ok && !closing { rc := IoErrClose; }
      NoneCreatedJoin(opening, deletes);
      NoneCreatedJoin(opening + deletes, closes);
      steps := opening + deletes + closes;
      assert steps[|opening|..] == deletes + closes;
      WasAttempted(opening, deletes, closes, f, path, parent, sync, rc);
    }
  }

  /** The file came open, then it was deleted in order, and then every directory was
      given back; the answer is the first error of the delete, or that of the closing. */
  ghost predicate Attempted(steps: seq<Step>, path: seq<Wide>, parent: seq<Wide>, sync: bool, rc: Rc) {
    exists f: Handle, opening: seq<Step>, deletes: seq<Step>, closes: seq<Step> ::
      && steps == opening + deletes + closes && Opened(path, Came(f)) in opening && Ordered(deletes, f, parent, sync)
      && (forall s | s in closes :: s.Closed?)
      && rc == if FirstError(deletes, f) == Ok && !AllWell(closes) then IoErrClose else FirstError(deletes, f)
  }

  /** The file at this path came open and was marked, and its directory flushed if asked. */
  ghost predicate Deleted(steps: seq<Step>, path: seq<Wide>, sync: bool) {
    (exists h :: Opened(path, Came(h)) in steps && Marked(h, true) in steps)
    && (sync ==> exists b :: Flushed(b, true) in steps)
  }

  lemma WasAttempted(
      opening: seq<Step>, deletes: seq<Step>, closes: seq<Step>, f: Handle, path: seq<Wide>, parent: seq<Wide>, sync: bool, rc: Rc)
    requires Opened(path, Came(f)) in opening && Ordered(deletes, f, parent, sync) && forall s | s in closes :: s.Closed?
    requires rc == if FirstError(deletes, f) == Ok && !AllWell(closes) then IoErrClose else FirstError(deletes, f)
    ensures Attempted(opening + deletes + closes, path, parent, sync, rc)
  {
    hide Ordered, FirstError, AllWell;
  }

  lemma WellJoin(a: seq<Step>, b: seq<Step>)
    ensures AllWell(a + b) <==> AllWell(a) && AllWell(b)
  {
    assert forall s :: s in a + b <==> s in a || s in b;
  }

  lemma OneWell(s: Step)
    ensures AllWell([s]) <==> WentWell(s)
  {
    assert [s][0] in [s];
  }

  lemma PathsOfTwo(path: seq<Wide>, r: Opening)
    ensures r.Came? ==> Paths([Opened(path, r)]) == [path] && Paths([Opened(path, Present)] + [Opened(path, r)]) == [path]
  {
    PathsMore([], Opened(path, Present));
    PathsMore([], Opened(path, r));
    PathsMore([Opened(path, Present)], Opened(path, r));
    assert [] + [Opened(path, r)] == [Opened(path, r)] && [] + [Opened(path, Present)] == [Opened(path, Present)];
  }

  lemma LogIs(b: Barrier, parent: seq<Wide>, f: Handle, a: Answers)
    ensures Log(b, parent, f, a) ==
      OpeningSteps(b, parent)
      + ((if b.NoBarrier? || b.Ready? then [Marked(f, a.marked)] else []) + [Closed(f, a.closed)])
      + ((if b.Ready? && a.marked && a.closed then [Flushed(b.handle, a.flushed)] else [])
         + (if b.Open() then [Closed(b.handle, a.barrier)] else []))
  {
  }

  lemma NotAtIs(steps: seq<Step>, path: seq<Wide>)
    requires NotAt(steps, path)
    ensures Opened(path, Missing) !in steps
  {
  }

  lemma NoPaths()
    ensures Paths([]) == []
  {
  }

  lemma FirstPaths()
    ensures Paths([Checked(true)]) == []
  {
    PathsMore([], Checked(true));
    assert [] + [Checked(true)] == [Checked(true)];
  }

  lemma PathOfPin(path: seq<Wide>, h: Handle)
    ensures Paths([Opened(path, Came(h)), Checked(true)]) == [path]
  {
    PathsMore([], Opened(path, Came(h)));
    PathsMore([Opened(path, Came(h))], Checked(true));
    assert [] + [Opened(path, Came(h))] == [Opened(path, Came(h))];
    assert [Opened(path, Came(h))] + [Checked(true)] == [Opened(path, Came(h)), Checked(true)];
  }

  lemma {:induction false} NoErrorIsAllWell(steps: seq<Step>, f: Handle)
    ensures FirstError(steps, f) == Ok <==> AllWell(steps)
    ensures FirstError(steps, f) != IoErrDeleteNoEnt
    decreases |steps|
  {
    if steps != [] && WentWell(steps[0]) {
      NoErrorIsAllWell(steps[1..], f);
      assert steps == [steps[0]] + steps[1..];
    }
  }

  /** A durable delete that reports no error was marked, and flushed if asked. */
  lemma OkIsComplete(steps: seq<Step>, f: Handle, parent: seq<Wide>, sync: bool)
    requires Ordered(steps, f, parent, sync)
    ensures FirstError(steps, f) == Ok <==> AllWell(steps)
    ensures FirstError(steps, f) != IoErrDeleteNoEnt
    ensures FirstError(steps, f) == Ok ==> Marked(f, true) in steps && (sync ==> exists b :: Flushed(b, true) in steps)
    ensures forall s | s in steps && s.Opened? :: s.path == parent
  {
    NoErrorIsAllWell(steps, f);
  }

  lemma ContainsIsLonger(fold: Fold, root: seq<Wide>, path: seq<Wide>)
    requires Contains(fold, root, path)
    ensures |root| < |path|
  {
  }
}
