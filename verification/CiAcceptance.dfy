/** Which workers a CI policy asks for, what each must show, and the acceptance
    made of them: one canonical record, however the workers come in. */
module CiAcceptance {
  import opened Options

  datatype Mode = Critical | Ordinary | Docs | Final
  datatype Os = Linux | Macos | Windows
  datatype Python = Py311 | Py312 | Py313
  datatype Role = Main | FloorRole
  datatype Tier = Full | Routine | NoTier
  datatype Pack =
    | MainPack | StaticPack | FeaturesPack | FloorPack | PackagePack | TorPack | TpmPack | SwtpmPack | SwiftPack
    | WinkeyPack | WheelPack

  type Path = string

  /** The fields of validate_context, and whether they are in order. */
  datatype Context = Context(event: string, ref: string, sound: bool)

  datatype Policy = Policy(
    mode: Mode, context: Context, linuxVersions: seq<Python>, platformPython: Python, supportPython: Python,
    macos: bool, windows: bool, linuxPacks: seq<Pack>, macosPacks: seq<Pack>, windowsPacks: seq<Pack>,
    windowsModules: seq<Path>, windowsShards: seq<int>, tier: Tier, exclusions: nat, reason: string)

  const FINAL_LINUX := [MainPack, StaticPack, FeaturesPack, FloorPack, PackagePack, TorPack, TpmPack, SwtpmPack]
  const FINAL_MACOS := [MainPack, SwiftPack, TpmPack]
  const FINAL_WINDOWS := [MainPack, WinkeyPack, WheelPack]

  /** The native selector and its families, and the digest of a tier's exclusions. */
  datatype Selector = Selector(native: seq<Path>, families: seq<set<Path>>, digest: Tier -> nat)

  // -------------------------------------------------------- validate_policy

  predicate Distinct<T(==)>(s: seq<T>) {
    forall i, j | 0 <= i < j < |s| :: s[i] != s[j]
  }

  /** [item for item in all if item in chosen] */
  function Kept<T(==,!new)>(all: seq<T>, chosen: set<T>): (r: seq<T>)
    ensures forall x :: x in r <==> x in all && x in chosen
  {
    if all == [] then []
    else
      assert forall x :: x in all <==> x == all[0] || x in all[1..];
      (if all[0] in chosen then [all[0]] else []) + Kept(all[1..], chosen)
  }

  function Elements<T(==,!new)>(s: seq<T>): set<T> {
    set x | x in s
  }

  predicate ValidPacks(mode: Mode, packs: seq<Pack>, selected: bool, required: seq<Pack>, full: seq<Pack>) {
    Distinct(packs)
    && if !selected then packs == []
       else match mode {
         case Final => packs == full
         case Critical => packs == required
         case _ => (forall p | p in required :: p in packs) && packs == Kept(full, Elements(packs))
       }
  }

  /** The union of those families that are wholly among the modules. */
  function Complete(families: seq<set<Path>>, modules: set<Path>): set<Path> {
    if families == [] then {}
    else (if families[0] <= modules then families[0] else {}) + Complete(families[1..], modules)
  }

  predicate ValidModules(p: Policy, s: Selector) {
    && Distinct(p.windowsModules) && (p.windows || p.windowsModules == [])
    && (p.windowsModules != [] || p.mode == Final ==>
          && p.windowsModules == Kept(s.native, Elements(p.windowsModules))
          && (p.mode == Final ==> p.windowsModules == s.native)
          && (p.mode == Ordinary ==> Elements(p.windowsModules) == Complete(s.families, Elements(p.windowsModules)))
          && (p.mode == Critical || p.mode == Docs ==> p.windowsModules == []))
  }

  /** validate_policy */
  predicate ValidPolicy(p: Policy, s: Selector) {
    && p.context.sound
    && p.linuxVersions == (match p.mode case Docs => [] case Final => [Py311, Py313] case _ => [Py312])
    && p.platformPython == (if p.mode == Final then Py311 else Py312) && p.supportPython == p.platformPython
    && (p.mode == Docs || p.mode == Final ==> p.macos == (p.mode == Final) && p.windows == (p.mode == Final))
    && p.reason != ""
    && ValidPacks(p.mode, p.linuxPacks, p.linuxVersions != [], [MainPack, StaticPack], FINAL_LINUX)
    && ValidPacks(p.mode, p.macosPacks, p.macos, [MainPack], FINAL_MACOS)
    && ValidPacks(p.mode, p.windowsPacks, p.windows, [MainPack], FINAL_WINDOWS)
    && p.windowsShards == (if p.mode == Final then [1, 2, 3, 4] else if p.windows then [1] else [])
    && (if p.mode == Final then p.tier != NoTier else p.tier == if p.windows then Full else NoTier)
    && (p.tier == Routine ==>
          p.context.event == "pull_request" || (p.context.event == "push" && p.context.ref == "refs/heads/dev"))
    && p.exclusions == s.digest(if p.tier == NoTier then Full else p.tier)
    && ValidModules(p, s)
  }

  ghost predicate Same<T(!new)>(a: seq<T>, b: seq<T>) {
    forall x :: x in a <==> x in b
  }

  /** There is one valid policy of each kind: a final one is settled by event, tier and
      reason, that of documentation by event and reason, draft feedback by the systems
      it runs on, and an ordinary one by these and by which packs and modules it runs. */
  lemma ValidPolicyIsCanonical(p: Policy, q: Policy, s: Selector)
    requires ValidPolicy(p, s) && ValidPolicy(q, s) && p.mode == q.mode && p.context == q.context && p.reason == q.reason
    requires p.mode == Final ==> p.tier == q.tier
    requires p.mode == Critical || p.mode == Ordinary ==> p.macos == q.macos && p.windows == q.windows
    requires p.mode == Ordinary ==>
      Same(p.linuxPacks, q.linuxPacks) && Same(p.macosPacks, q.macosPacks)
      && Same(p.windowsPacks, q.windowsPacks) && Same(p.windowsModules, q.windowsModules)
    ensures p == q
  {
    SamePacks(p.mode, p.linuxPacks, q.linuxPacks, p.linuxVersions != [], [MainPack, StaticPack], FINAL_LINUX);
    SamePacks(p.mode, p.macosPacks, q.macosPacks, p.macos, [MainPack], FINAL_MACOS);
    SamePacks(p.mode, p.windowsPacks, q.windowsPacks, p.windows, [MainPack], FINAL_WINDOWS);
    SameModules(p, q, s);
    hide ValidPacks, ValidModules, Same;
  }

  lemma SamePacks(mode: Mode, a: seq<Pack>, b: seq<Pack>, selected: bool, required: seq<Pack>, full: seq<Pack>)
    requires ValidPacks(mode, a, selected, required, full) && ValidPacks(mode, b, selected, required, full)
    requires mode == Ordinary ==> Same(a, b)
    requires mode == Docs ==> !selected
    ensures a == b
  {
    if mode == Ordinary && selected { assert Elements(a) == Elements(b); }
    hide Kept;
  }

  lemma SameModules(p: Policy, q: Policy, s: Selector)
    requires ValidModules(p, s) && ValidModules(q, s) && p.mode == q.mode
    requires p.mode == Ordinary ==> Same(p.windowsModules, q.windowsModules)
    ensures p.windowsModules == q.windowsModules
  {
    var a, b := p.windowsModules, q.windowsModules;
    if p.mode == Ordinary {
      assert Elements(a) == Elements(b);
      assert (a != [] ==> a[0] in b) && (b != [] ==> b[0] in a);
    }
    hide Kept, Complete;
  }

  // ------------------------------------------------------ expected workers

  datatype Id = Id(os: Os, python: Python, shard: int, role: Role)

  /** expected_workers */
  predicate Expected(p: Policy, id: Id) {
    match id.os
    case Linux =>
      id.shard == 1
      && if id.role == FloorRole then FloorPack in p.linuxPacks && id.python == p.supportPython
         else id.python in p.linuxVersions
    case Macos => p.macos && id == Id(Macos, p.platformPython, 1, Main)
    case Windows => p.windows && id.python == p.platformPython && id.role == Main && id.shard in p.windowsShards
  }

  function Packs(p: Policy, id: Id): set<Pack> {
    match id.os
    case Linux =>
      if id.role == FloorRole then {FloorPack}
      else if id.python == p.supportPython then Elements(p.linuxPacks) - {FloorPack} else {MainPack}
    case Macos => Elements(p.macosPacks)
    case Windows => if id.shard == 1 then Elements(p.windowsPacks) else {MainPack}
  }

  /** The loops of expected_workers: just the identities expected, each with its packs. */
  method ExpectedWorkers(p: Policy) returns (expected: map<Id, set<Pack>>)
    ensures forall id :: id in expected <==> Expected(p, id)
    ensures forall id | id in expected :: expected[id] == Packs(p, id)
  {
    expected := map[];
    for i := 0 to |p.linuxVersions|
      invariant forall id :: id in expected <==> id in LinuxIds(p.linuxVersions[..i])
      invariant forall id | id in expected :: expected[id] == Packs(p, id)
    {
      var version := p.linuxVersions[i];
      OneMoreVersion(p.linuxVersions, i);
      expected := expected[Id(Linux, version, 1, Main) :=
                             if version == p.supportPython then Elements(p.linuxPacks) - {FloorPack} else {MainPack}];
    }
    assert p.linuxVersions[..|p.linuxVersions|] == p.linuxVersions;
    if FloorPack in p.linuxPacks { expected := expected[Id(Linux, p.supportPython, 1, FloorRole) := {FloorPack}]; }
    if p.macos { expected := expected[Id(Macos, p.platformPython, 1, Main) := Elements(p.macosPacks)]; }
    ghost var before := expected;
    if p.windows {
      for i := 0 to |p.windowsShards|
        invariant forall id :: id in expected <==>
          id in before || (id in WindowsIds(p.platformPython, p.windowsShards[..i]))
        invariant forall id | id in expected :: expected[id] == Packs(p, id)
      {
        var shard := p.windowsShards[i];
        assert p.windowsShards[..i + 1] == p.windowsShards[..i] + [shard];
        expected := expected[Id(Windows, p.platformPython, shard, Main) :=
                               if shard == 1 then Elements(p.windowsPacks) else {MainPack}];
      }
      assert p.windowsShards[..|p.windowsShards|] == p.windowsShards;
    }
  }

  function LinuxIds(versions: seq<Python>): set<Id> {
    set v | v in versions :: Id(Linux, v, 1, Main)
  }

  function WindowsIds(python: Python, shards: seq<int>): set<Id> {
    set k | k in shards :: Id(Windows, python, k, Main)
  }

  lemma OneMoreVersion(versions: seq<Python>, i: nat)
    requires i < |versions|
    ensures LinuxIds(versions[..i + 1]) == LinuxIds(versions[..i]) + {Id(Linux, versions[i], 1, Main)}
  {
    assert versions[..i + 1] == versions[..i] + [versions[i]];
  }

  /** pack_steps */
  function Steps(pack: Pack, os: Os, mode: Mode): set<string> {
    match pack
    case MainPack =>
      (match os
       case Windows => {"install", "private_home", "native"}
       case Macos => if mode == Critical then {"install", "pytest", "status"} else {"install", "mypy", "pytest", "status"}
       case Linux => {"install", "mypy", "pytest"})
    case TpmPack =>
      {"rust_tools", "tpm_fmt", "tpm_clippy", "tpm_test"} + if os == Linux then {"tpm_system", "tpm_msrv"} else {}
    case StaticPack => {"ruff", "import_linter", "shellcheck", "status"}
    case FeaturesPack => {"feature_install", "feature_imports", "feature_tests"}
    case FloorPack => {"floor_install", "floor_guard", "floor_tests"}
    case PackagePack => {"package_build", "package_smoke"}
    case TorPack => {"integration_install", "docker_verify", "tor_build", "tor_tests"}
    case SwiftPack => {"swift_info", "swift_build"}
    case SwtpmPack => {"tpm_system", "swtpm_start", "swtpm_rust", "swtpm_python"}
    case WinkeyPack => {"winkey_fmt", "winkey_clippy", "winkey_test", "winkey_msrv_install", "winkey_msrv_test", "winkey_python"}
    case WheelPack => {"wheel"}
  }

  // --------------------------------------------------------------- workers

  datatype Step = Step(outcome: string, conclusion: string)

  const SUCCESS := Step("success", "success")
  const MISSING := Step("missing", "missing")

  type Record = map<Pack, map<string, Step>>

  /** A manifest of the native tests, by number. */
  type Manifest = nat

  datatype Worker = Worker(
    context: Context, id: Id, actual: Python, native: Option<Manifest>, packs: Record, success: bool)

  function StepOf(steps: map<string, Step>, name: string): Step {
    if name in steps then steps[name] else MISSING
  }

  predicate AllSucceeded(packs: Record) {
    forall pack | pack in packs :: forall name | name in packs[pack] :: packs[pack][name] == SUCCESS
  }

  function Built(p: Policy, id: Id, steps: map<string, Step>): Record {
    map pack | pack in Packs(p, id) :: map name | name in Steps(pack, id.os, p.mode) :: StepOf(steps, name)
  }

  function AllGreen(p: Policy, id: Id): Record {
    map pack | pack in Packs(p, id) :: map name | name in Steps(pack, id.os, p.mode) :: SUCCESS
  }

  /** build_worker; `complete` judges a native manifest against the shared plan. */
  function BuildWorker(
      p: Policy, s: Selector, id: Id, steps: map<string, Step>, actual: Python, native: Option<Manifest>,
      complete: (Manifest, int) -> bool): Option<Worker>
  {
    if !ValidPolicy(p, s) || !Expected(p, id) || actual != id.python then None
    else
      var manifest := id.os == Windows && p.mode == Final;
      if !manifest && native != None then None
      else
        var packs := Built(p, id, steps);
        var nativeOk := manifest ==> native.Some? && complete(native.value, id.shard);
        Some(Worker(p.context, id, actual, native, packs, nativeOk && AllSucceeded(packs)))
  }

  /** The steps of all packs of a worker, if no two packs disagree on one. */
  ghost predicate Merges(packs: Record, steps: map<string, Step>) {
    && (forall pack, name | Shows(packs, pack, name) :: name in steps && steps[name] == packs[pack][name])
    && (forall name | name in steps :: exists pack :: Shows(packs, pack, name))
  }

  predicate Shows(packs: Record, pack: Pack, name: string) {
    pack in packs && name in packs[pack]
  }

  /** _validate_worker: the worker is what build_worker makes of its own steps. */
  ghost predicate ValidWorker(p: Policy, s: Selector, w: Worker, complete: (Manifest, int) -> bool) {
    exists steps ::
      && Merges(w.packs, steps)
      && BuildWorker(p, s, w.id, steps, w.actual, w.native, complete) == Some(w)
      && w.success
  }

  /** The loop of _validate_worker over one pack. */
  method MergePack(steps: map<string, Step>, pack: map<string, Step>) returns (merged: Option<map<string, Step>>)
    ensures merged.Some? <==> forall name | name in pack && name in steps :: steps[name] == pack[name]
    ensures merged.Some? ==> merged.value == steps + pack
  {
    var all, left := steps, pack.Keys;
    while left != {}
      invariant left <= pack.Keys && all.Keys == steps.Keys + (pack.Keys - left)
      invariant forall name | name in all :: all[name] == if name in steps then steps[name] else pack[name]
      invariant forall name | name in pack && name !in left && name in steps :: steps[name] == pack[name]
      decreases |left|
    {
      var name :| name in left;
      if name in all && pack[name] != all[name] { return None; }
      all, left := all[name := pack[name]], left - {name};
    }
    assert all == steps + pack;
    return Some(all);
  }

  /** And over all of them: the steps of the packs, unless two packs disagree. */
  method MergePacks(packs: Record) returns (merged: Option<map<string, Step>>)
    ensures merged.Some? ==> Merges(packs, merged.value)
    ensures merged == None ==> forall steps :: !Merges(packs, steps)
  {
    var all: map<string, Step>, left := map[], packs.Keys;
    while left != {}
      invariant left <= packs.Keys && Merges(packs - left, all)
      decreases |left|
    {
      var pack :| pack in left;
      var more := MergePack(all, packs[pack]);
      if more == None {
        Disagree(packs, packs - left, all, pack);
        return None;
      }
      MergesMore(packs, left, all, pack);
      all, left := more.value, left - {pack};
    }
    assert packs - {} == packs;
    return Some(all);
  }

  lemma MergesMore(packs: Record, left: set<Pack>, steps: map<string, Step>, pack: Pack)
    requires left <= packs.Keys && pack in left && Merges(packs - left, steps)
    requires forall name | name in packs[pack] && name in steps :: steps[name] == packs[pack][name]
    ensures Merges(packs - (left - {pack}), steps + packs[pack])
  {
    var done, after, all := packs - left, packs - (left - {pack}), steps + packs[pack];
    forall x, name ensures Shows(after, x, name) <==> Shows(done, x, name) || (x == pack && name in packs[pack]) {
    }
    forall name | name in all ensures exists x :: Shows(after, x, name) {
      if name in packs[pack] { assert Shows(after, pack, name); } else { var x :| Shows(done, x, name); assert Shows(after, x, name); }
    }
    forall x, name | Shows(after, x, name) ensures all[name] == after[x][name] {
      if x != pack { assert Shows(done, x, name) && steps[name] == done[x][name]; }
    }
  }

  lemma Agree(packs: Record, steps: map<string, Step>, x: Pack, y: Pack, name: string)
    requires Merges(packs, steps) && Shows(packs, x, name) && Shows(packs, y, name)
    ensures packs[x][name] == packs[y][name]
  {
  }

  lemma Disagree(packs: Record, done: Record, steps: map<string, Step>, pack: Pack)
    requires pack in packs && Merges(done, steps) && forall x | x in done :: x in packs && done[x] == packs[x]
    requires exists name :: name in packs[pack] && name in steps && steps[name] != packs[pack][name]
    ensures forall all :: !Merges(packs, all)
  {
    var name :| name in packs[pack] && name in steps && steps[name] != packs[pack][name];
    var x :| Shows(done, x, name);
    assert Shows(packs, x, name) && Shows(packs, pack, name) && packs[x][name] == steps[name];
    hide Merges;
    forall all ensures !Merges(packs, all) {
      if Merges(packs, all) { Agree(packs, all, x, pack, name); }
    }
  }

  lemma SameStep(packs: Record, a: map<string, Step>, b: map<string, Step>, name: string)
    requires Merges(packs, a) && Merges(packs, b) && name in a
    ensures name in b && a[name] == b[name]
  {
    var x :| Shows(packs, x, name);
  }

  lemma MergesOnce(packs: Record, a: map<string, Step>, b: map<string, Step>)
    requires Merges(packs, a) && Merges(packs, b)
    ensures a == b
  {
    hide Merges;
    forall name | name in a ensures name in b && a[name] == b[name] { SameStep(packs, a, b, name); }
    forall name | name in b ensures name in a { SameStep(packs, b, a, name); }
  }

  /** _validate_worker */
  method ValidateWorker(p: Policy, s: Selector, w: Worker, complete: (Manifest, int) -> bool) returns (valid: bool)
    ensures valid <==> ValidWorker(p, s, w, complete)
  {
    hide Merges, BuildWorker;
    var steps := MergePacks(w.packs);
    if steps == None { return false; }
    valid := BuildWorker(p, s, w.id, steps.value, w.actual, w.native, complete) == Some(w) && w.success;
    if ValidWorker(p, s, w, complete) {
      ghost var others :| Merges(w.packs, others)
        && BuildWorker(p, s, w.id, others, w.actual, w.native, complete) == Some(w) && w.success;
      MergesOnce(w.packs, steps.value, others);
    }
  }

  /** A worker that was asked for and shows every step of its packs done well. */
  predicate Green(p: Policy, w: Worker, complete: (Manifest, int) -> bool) {
    && Expected(p, w.id) && w.actual == w.id.python && w.context == p.context && w.success
    && (if w.id.os == Windows && p.mode == Final then w.native.Some? && complete(w.native.value, w.id.shard) else w.native == None)
    && w.packs == AllGreen(p, w.id)
  }

  lemma GreenMerges(p: Policy, id: Id) returns (steps: map<string, Step>)
    ensures Merges(AllGreen(p, id), steps)
    ensures forall name | name in steps :: steps[name] == SUCCESS
    ensures forall pack | pack in Packs(p, id) :: forall name | name in Steps(pack, id.os, p.mode) :: name in steps
  {
    var names := set pack, name | pack in Packs(p, id) && name in Steps(pack, id.os, p.mode) :: name;
    steps := map name | name in names :: SUCCESS;
    hide Steps, Packs;
    forall name | name in steps ensures exists pack :: Shows(AllGreen(p, id), pack, name) {
      var pack :| pack in Packs(p, id) && name in Steps(pack, id.os, p.mode);
      assert Shows(AllGreen(p, id), pack, name);
    }
  }

  lemma SucceededIsGreen(p: Policy, id: Id, steps: map<string, Step>)
    requires AllSucceeded(Built(p, id, steps))
    ensures Built(p, id, steps) == AllGreen(p, id)
  {
    hide Steps, Packs;
    var a, b := Built(p, id, steps), AllGreen(p, id);
    forall pack | pack in a ensures a[pack] == b[pack] {
    }
  }

  lemma GreenIsBuilt(p: Policy, id: Id, steps: map<string, Step>)
    requires forall name | name in steps :: steps[name] == SUCCESS
    requires forall pack | pack in Packs(p, id) :: forall name | name in Steps(pack, id.os, p.mode) :: name in steps
    ensures Built(p, id, steps) == AllGreen(p, id) && AllSucceeded(AllGreen(p, id))
  {
    hide Steps, Packs;
    var a, b := Built(p, id, steps), AllGreen(p, id);
    forall pack | pack in a ensures a[pack] == b[pack] {
    }
  }

  lemma ValidIsGreen(p: Policy, s: Selector, w: Worker, complete: (Manifest, int) -> bool)
    requires ValidWorker(p, s, w, complete)
    ensures Green(p, w, complete)
  {
    hide ValidPolicy, Expected, Merges, AllSucceeded, Built, AllGreen;
    var steps :| Merges(w.packs, steps) && BuildWorker(p, s, w.id, steps, w.actual, w.native, complete) == Some(w) && w.success;
    SucceededIsGreen(p, w.id, steps);
  }

  lemma GreenIsValid(p: Policy, s: Selector, w: Worker, complete: (Manifest, int) -> bool)
    requires ValidPolicy(p, s) && Green(p, w, complete)
    ensures ValidWorker(p, s, w, complete)
  {
    hide ValidPolicy, Expected, Merges, AllSucceeded, Built, AllGreen;
    var steps := GreenMerges(p, w.id);
    GreenIsBuilt(p, w.id, steps);
    assert BuildWorker(p, s, w.id, steps, w.actual, w.native, complete) == Some(w);
  }

  /** A worker passes validation exactly when it was asked for and every step of
      every pack required of it succeeded. */
  lemma ValidIffGreen(p: Policy, s: Selector, w: Worker, complete: (Manifest, int) -> bool)
    requires ValidPolicy(p, s)
    ensures ValidWorker(p, s, w, complete) <==> Green(p, w, complete)
  {
    hide ValidWorker, Green;
    if ValidWorker(p, s, w, complete) { ValidIsGreen(p, s, w, complete); }
    if Green(p, w, complete) { GreenIsValid(p, s, w, complete); }
  }

  // ---------------------------------------------------------------- accept

  /** A job result as GitHub gives it, with whatever else it carries. */
  datatype Need = Need(result: string, other: nat)

  function ExpectedNeeds(p: Policy): map<string, string> {
    map["ci-policy" := "success",
        "linux" := if p.linuxVersions != [] then "success" else "skipped",
        "linux-floor" := if FloorPack in p.linuxPacks then "success" else "skipped",
        "macos" := if p.macos then "success" else "skipped",
        "windows-private-fs" := if p.windows then "success" else "skipped"]
  }

  predicate NeedsMet(p: Policy, needs: map<string, Need>) {
    needs.Keys == ExpectedNeeds(p).Keys && forall name | name in needs :: needs[name].result == ExpectedNeeds(p)[name]
  }

  /** The sort key: os, python, shard, and the main role first. */
  function Key(id: Id): seq<int> {
    [match id.os case Linux => 0 case Macos => 1 case Windows => 2,
     match id.python case Py311 => 0 case Py312 => 1 case Py313 => 2,
     id.shard, if id.role == Main then 0 else 1]
  }

  predicate Before(a: Id, b: Id) {
    var x, y := Key(a), Key(b);
    x[0] < y[0]
    || (x[0] == y[0] && (x[1] < y[1] || (x[1] == y[1] && (x[2] < y[2] || (x[2] == y[2] && x[3] < y[3])))))
  }

  lemma KeyIsId(a: Id, b: Id)
    ensures a == b || Before(a, b) || Before(b, a)
    ensures !(Before(a, b) && Before(b, a)) && !Before(a, a)
  {
  }

  function Insert(s: seq<Worker>, w: Worker): (r: seq<Worker>)
    ensures multiset(r) == multiset(s) + multiset{w}
  {
    if s == [] || !Before(w.id, s[|s|-1].id) then
      assert multiset(s + [w]) == multiset(s) + multiset{w};
      s + [w]
    else
      assert s == s[..|s|-1] + [s[|s|-1]];
      Insert(s[..|s|-1], w) + [s[|s|-1]]
  }

  /** sorted(workers, key=...) */
  function Sorted(ws: seq<Worker>): (r: seq<Worker>)
    ensures multiset(r) == multiset(ws)
  {
    if ws == [] then []
    else
      assert ws == ws[..|ws|-1] + [ws[|ws|-1]];
      Insert(Sorted(ws[..|ws|-1]), ws[|ws|-1])
  }

  predicate DistinctIds(ws: seq<Worker>) {
    forall i, j | 0 <= i < j < |ws| :: ws[i].id != ws[j].id
  }

  datatype Evidence = Evidence(
    policy: Policy, workers: seq<Worker>, needs: map<string, Need>, docs: map<string, Step>, accepted: bool, feedback: bool)

  function DocsSteps(p: Policy, steps: map<string, Step>): map<string, Step> {
    if p.mode == Docs then map["docs_tests" := StepOf(steps, "docs_tests")] else map[]
  }

  /** The identities are those expected, each once. */
  ghost predicate Exactly(p: Policy, ws: seq<Worker>) {
    DistinctIds(ws) && (forall w | w in ws :: Expected(p, w.id)) && forall id | Expected(p, id) :: HasId(ws, id)
  }

  predicate HasId(ws: seq<Worker>, id: Id) {
    exists w | w in ws :: w.id == id
  }

  /** The job results without what else they carried. */
  function Bare(needs: map<string, Need>): map<string, Need> {
    map name | name in needs :: Need(needs[name].result, 0)
  }

  /** accept */
  ghost function Accept(
      p: Policy, s: Selector, ws: seq<Worker>, needs: map<string, Need>, steps: map<string, Step>,
      complete: (Manifest, int) -> bool): Option<Evidence>
  {
    if !ValidPolicy(p, s) || !NeedsMet(p, needs) || !(forall w | w in ws :: ValidWorker(p, s, w, complete)) || !Exactly(p, ws)
       || !(forall name | name in DocsSteps(p, steps) :: DocsSteps(p, steps)[name] == SUCCESS)
    then None
    else
      Some(Evidence(p, Sorted(ws), Bare(needs), DocsSteps(p, steps),
                    p.mode != Critical, p.mode == Critical))
  }

  /** validate_acceptance */
  ghost predicate ValidAcceptance(e: Evidence, s: Selector, complete: (Manifest, int) -> bool) {
    Accept(e.policy, s, e.workers, e.needs, e.docs, complete) == Some(e)
  }

  // ---- the canonical form

  predicate Rising(ws: seq<Worker>) {
    forall i, j | 0 <= i < j < |ws| :: Before(ws[i].id, ws[j].id)
  }

  lemma BeforeTransitive(a: Id, b: Id, c: Id)
    requires Before(a, b) && Before(b, c)
    ensures Before(a, c)
  {
  }

  lemma {:induction false} InsertRises(s: seq<Worker>, w: Worker)
    requires Rising(s) && forall x | x in s :: x.id != w.id
    ensures Rising(Insert(s, w))
    decreases |s|
  {
    hide Before;
    if s == [] {
    } else {
      var t, y := s[..|s|-1], s[|s|-1];
      KeyIsId(w.id, y.id);
      assert y in s && forall x | x in t :: x in s;
      if Before(w.id, y.id) {
        InsertRises(t, w);
        var r := Insert(t, w);
        forall i | 0 <= i < |r| ensures Before(r[i].id, y.id) {
          assert r[i] in multiset(r);
          assert r[i] in t || r[i] == w;
          if r[i] in t { var k :| 0 <= k < |t| && t[k] == r[i]; assert t[k] == s[k]; }
        }
      } else {
        forall i | 0 <= i < |s| ensures Before(s[i].id, w.id) {
          if i < |s| - 1 { BeforeTransitive(s[i].id, y.id, w.id); }
        }
      }
    }
  }

  lemma {:induction false} SortedRises(ws: seq<Worker>)
    requires DistinctIds(ws)
    ensures Rising(Sorted(ws))
    decreases |ws|
  {
    if ws != [] {
      var t, w := ws[..|ws|-1], ws[|ws|-1];
      SortedRises(t);
      forall x | x in Sorted(t) ensures x.id != w.id {
        assert x in multiset(Sorted(t));
        assert x in t;
        var k :| 0 <= k < |t| && t[k] == x;
        assert t[k] == ws[k];
      }
      InsertRises(Sorted(t), w);
    }
  }

  lemma WithoutLast(a: seq<Worker>)
    requires a != []
    ensures multiset(a[..|a|-1]) == multiset(a) - multiset{a[|a|-1]} && (Rising(a) ==> Rising(a[..|a|-1]))
  {
    hide Before;
    assert a == a[..|a|-1] + [a[|a|-1]];
  }

  lemma SameLength(a: seq<Worker>, b: seq<Worker>)
    requires multiset(a) == multiset(b)
    ensures |a| == |b|
  {
    assert |a| == |multiset(a)| && |b| == |multiset(b)|;
  }

  lemma Relast(a: seq<Worker>, b: seq<Worker>)
    requires a != [] && b != [] && a[..|a|-1] == b[..|b|-1] && a[|a|-1] == b[|b|-1]
    ensures a == b
  {
    assert a == a[..|a|-1] + [a[|a|-1]] && b == b[..|b|-1] + [b[|b|-1]];
  }

  /** Two rising lists of the same workers are one. */
  lemma {:induction false} RisingIsUnique(a: seq<Worker>, b: seq<Worker>)
    requires Rising(a) && Rising(b) && multiset(a) == multiset(b)
    ensures a == b
    decreases |a|
  {
    hide Rising;
    SameLength(a, b);
    if a != [] {
      LastIsSame(a, b);
      WithoutLast(a);
      WithoutLast(b);
      RisingIsUnique(a[..|a|-1], b[..|b|-1]);
      Relast(a, b);
    }
  }

  lemma LastIsSame(a: seq<Worker>, b: seq<Worker>)
    requires Rising(a) && Rising(b) && multiset(a) == multiset(b) && a != [] && b != []
    ensures a[|a|-1] == b[|b|-1]
  {
    hide Before;
    var x, y := a[|a|-1], b[|b|-1];
    assert x in multiset(a) && y in multiset(b);
    assert x in b && y in a;
    var i :| 0 <= i < |b| && b[i] == x;
    var j :| 0 <= j < |a| && a[j] == y;
    if x != y {
      assert Before(x.id, y.id);
      assert Before(y.id, x.id);
      KeyIsId(x.id, y.id);
    }
  }

  lemma SameWorkers(a: seq<Worker>, b: seq<Worker>)
    requires multiset(a) == multiset(b)
    ensures forall w :: w in a <==> w in b
  {
    assert forall w :: w in a <==> w in multiset(a);
    assert forall w :: w in b <==> w in multiset(b);
  }

  lemma DistinctIdsIsOnce(ws: seq<Worker>)
    ensures DistinctIds(ws) <==> (forall x, y | x in ws && y in ws && x != y :: x.id != y.id) && forall x | x in ws :: multiset(ws)[x] == 1
  {
    if DistinctIds(ws) {
      forall x | x in ws ensures multiset(ws)[x] == 1 { OnceEach(ws, x); }
    } else {
      var i, j :| 0 <= i < j < |ws| && ws[i].id == ws[j].id;
      if ws[i] == ws[j] { TwiceIsTwo(ws, i, j); }
      assert ws[i] in ws && ws[j] in ws;
    }
  }

  lemma {:induction false} OnceEach(ws: seq<Worker>, x: Worker)
    requires DistinctIds(ws) && x in ws
    ensures multiset(ws)[x] == 1
    decreases |ws|
  {
    var t, y := ws[..|ws|-1], ws[|ws|-1];
    assert ws == t + [y];
    if x != y { OnceEach(t, x); } else { assert x !in multiset(t); }
  }

  lemma TwiceIsTwo(ws: seq<Worker>, i: nat, j: nat)
    requires i < j < |ws| && ws[i] == ws[j]
    ensures multiset(ws)[ws[i]] >= 2
  {
    assert ws == ws[..j] + ws[j..];
    assert ws[..j][i] == ws[i] && ws[j..][0] == ws[j];
    assert ws[i] in multiset(ws[..j]) && ws[i] in multiset(ws[j..]);
  }

  lemma SameIds(a: seq<Worker>, b: seq<Worker>)
    requires multiset(a) == multiset(b)
    ensures DistinctIds(a) <==> DistinctIds(b)
  {
    SameWorkers(a, b);
    DistinctIdsIsOnce(a);
    DistinctIdsIsOnce(b);
    hide DistinctIds;
  }

  lemma SortedIsCanonical(a: seq<Worker>, b: seq<Worker>)
    requires multiset(a) == multiset(b) && DistinctIds(a)
    ensures Sorted(a) == Sorted(b)
  {
    SameIds(a, b);
    SortedRises(a);
    SortedRises(b);
    RisingIsUnique(Sorted(a), Sorted(b));
  }

  lemma SameExactly(p: Policy, a: seq<Worker>, b: seq<Worker>)
    requires multiset(a) == multiset(b)
    ensures Exactly(p, a) <==> Exactly(p, b)
  {
    SameWorkers(a, b);
    SameIds(a, b);
    hide DistinctIds, Expected;
    forall id ensures HasId(a, id) <==> HasId(b, id) {
    }
  }

  /** In whatever order the workers come, the acceptance is the same, or there
      is none. */
  lemma OrderDoesNotMatter(
      p: Policy, s: Selector, a: seq<Worker>, b: seq<Worker>, needs: map<string, Need>, steps: map<string, Step>,
      complete: (Manifest, int) -> bool)
    requires multiset(a) == multiset(b)
    ensures Accept(p, s, a, needs, steps, complete) == Accept(p, s, b, needs, steps, complete)
  {
    SameWorkers(a, b);
    SameExactly(p, a, b);
    if DistinctIds(a) { SortedIsCanonical(a, b); }
    hide ValidPolicy, NeedsMet, ValidWorker, Sorted, DocsSteps, Expected, Bare;
  }

  /** An acceptance is accepted again, and gives itself. */
  lemma AcceptanceIsValid(
      p: Policy, s: Selector, ws: seq<Worker>, needs: map<string, Need>, steps: map<string, Step>,
      complete: (Manifest, int) -> bool)
    requires Accept(p, s, ws, needs, steps, complete).Some?
    ensures ValidAcceptance(Accept(p, s, ws, needs, steps, complete).value, s, complete)
  {
    hide ValidPolicy, NeedsMet, ValidWorker, Sorted, DocsSteps, Expected, Exactly, Bare;
    OrderDoesNotMatter(p, s, ws, Sorted(ws), needs, steps, complete);
    BareTwice(p, needs);
    DocsTwice(p, steps);
  }

  lemma BareTwice(p: Policy, needs: map<string, Need>)
    ensures Bare(Bare(needs)) == Bare(needs) && NeedsMet(p, Bare(needs)) == NeedsMet(p, needs)
  {
    hide ExpectedNeeds;
    assert Bare(needs).Keys == needs.Keys;
  }

  lemma DocsTwice(p: Policy, steps: map<string, Step>)
    ensures DocsSteps(p, DocsSteps(p, steps)) == DocsSteps(p, steps)
  {
  }

  /** There is an acceptance exactly when the policy is valid, the jobs ended as
      it says, the documentation checks passed where they count, and the workers
      are the expected ones, each once and each with every required step a success. */
  lemma AcceptedIff(
      p: Policy, s: Selector, ws: seq<Worker>, needs: map<string, Need>, steps: map<string, Step>,
      complete: (Manifest, int) -> bool)
    ensures Accept(p, s, ws, needs, steps, complete).Some? <==>
      && ValidPolicy(p, s) && NeedsMet(p, needs) && (p.mode == Docs ==> StepOf(steps, "docs_tests") == SUCCESS)
      && Exactly(p, ws) && forall w | w in ws :: Green(p, w, complete)
  {
    hide Exactly, NeedsMet, Green, ValidWorker, Sorted, ValidPolicy, Bare;
    if ValidPolicy(p, s) {
      forall w ensures ValidWorker(p, s, w, complete) <==> Green(p, w, complete) { ValidIffGreen(p, s, w, complete); }
    }
    assert p.mode == Docs ==> DocsSteps(p, steps)["docs_tests"] == StepOf(steps, "docs_tests");
  }

  // ------------------------------------------------- what an acceptance means

  function PacksFor(p: Policy, os: Os): seq<Pack> {
    match os case Linux => p.linuxPacks case Macos => p.macosPacks case Windows => p.windowsPacks
  }

  function AllPacks(os: Os): seq<Pack> {
    match os case Linux => FINAL_LINUX case Macos => FINAL_MACOS case Windows => FINAL_WINDOWS
  }

  predicate Runs(p: Policy, id: Id, os: Os, pack: Pack) {
    id.os == os && Expected(p, id) && pack in Packs(p, id)
  }

  /** Of a valid policy every pack it lists is run, on its system, by a worker that is
      expected; and no worker runs a pack that is not listed. A final policy lists
      them all. */
  lemma EveryPackIsRun(p: Policy, s: Selector, os: Os, pack: Pack)
    requires ValidPolicy(p, s)
    ensures pack in PacksFor(p, os) <==> exists id :: Runs(p, id, os, pack)
    ensures p.mode == Final ==> (pack in PacksFor(p, os) <==> pack in AllPacks(os))
  {
    PacksAreSelected(p, s, os);
    hide ValidPolicy, Runs;
    if pack in PacksFor(p, os) { var id := ListedIsRun(p, os, pack); }
    if id :| Runs(p, id, os, pack) { RunIsListed(p, id, os, pack); }
  }

  lemma ListedIsRun(p: Policy, os: Os, pack: Pack) returns (id: Id)
    requires pack in PacksFor(p, os)
    requires match os
      case Linux => p.supportPython in p.linuxVersions
      case Macos => p.macos
      case Windows => p.windows && 1 in p.windowsShards
    ensures Runs(p, id, os, pack)
  {
    id := Id(os, if os == Linux then p.supportPython else p.platformPython, 1,
             if os == Linux && pack == FloorPack then FloorRole else Main);
  }

  lemma RunIsListed(p: Policy, id: Id, os: Os, pack: Pack)
    requires Runs(p, id, os, pack)
    requires (match os case Linux => p.linuxVersions != [] case Macos => p.macos case Windows => p.windows) ==>
      MainPack in PacksFor(p, os)
    ensures pack in PacksFor(p, os)
  {
  }

  /** Where packs are listed the system is asked for, with the main pack among them. */
  lemma PacksAreSelected(p: Policy, s: Selector, os: Os)
    requires ValidPolicy(p, s)
    ensures PacksFor(p, os) != [] <==> match os case Linux => p.linuxVersions != [] case Macos => p.macos case Windows => p.windows
    ensures PacksFor(p, os) != [] ==> MainPack in PacksFor(p, os)
    ensures p.linuxVersions != [] ==> p.supportPython in p.linuxVersions
    ensures p.windows ==> 1 in p.windowsShards
    ensures p.mode == Final ==> p.linuxPacks == FINAL_LINUX && p.macosPacks == FINAL_MACOS && p.windowsPacks == FINAL_WINDOWS
  {
    hide ValidModules, Distinct;
    assert MainPack in [MainPack, StaticPack] && MainPack in [MainPack];
    assert FINAL_LINUX[0] == MainPack && FINAL_MACOS[0] == MainPack && FINAL_WINDOWS[0] == MainPack;
    assert p.windows ==> p.windowsShards[0] == 1;
    assert p.linuxVersions != [] ==> p.linuxVersions[0] == p.supportPython;
    assert p.linuxVersions != [] ==> |p.linuxPacks| > 0 && MainPack in p.linuxPacks;
    assert p.macos ==> |p.macosPacks| > 0 && MainPack in p.macosPacks;
    assert p.windows ==> |p.windowsPacks| > 0 && MainPack in p.windowsPacks;
  }

  predicate IsRole(p: Policy, id: Id, os: Os, role: Role) {
    id.os == os && id.role == role && Expected(p, id)
  }

  /** Of a valid policy a job must succeed exactly if a worker of it is expected, and
      must be skipped otherwise. */
  lemma NeedsFollowWorkers(p: Policy, s: Selector)
    requires ValidPolicy(p, s)
    ensures var needs := ExpectedNeeds(p);
      && needs.Keys == {"ci-policy", "linux", "linux-floor", "macos", "windows-private-fs"} && needs["ci-policy"] == "success"
      && (forall name | name in needs :: needs[name] == "success" || needs[name] == "skipped")
      && (needs["linux"] == "success" <==> exists id :: IsRole(p, id, Linux, Main))
      && (needs["linux-floor"] == "success" <==> exists id :: IsRole(p, id, Linux, FloorRole))
      && (needs["macos"] == "success" <==> exists id :: IsRole(p, id, Macos, Main))
      && (needs["windows-private-fs"] == "success" <==> exists id :: IsRole(p, id, Windows, Main))
  {
    PacksAreSelected(p, s, Linux);
    NeedsAre(p);
    hide ValidPolicy, IsRole, ExpectedNeeds;
    RoleIff(p, Linux, Main);
    RoleIff(p, Linux, FloorRole);
    RoleIff(p, Macos, Main);
    RoleIff(p, Windows, Main);
  }

  lemma NeedsAre(p: Policy)
    ensures var needs := ExpectedNeeds(p);
      && needs.Keys == {"ci-policy", "linux", "linux-floor", "macos", "windows-private-fs"} && needs["ci-policy"] == "success"
      && (forall name | name in needs :: needs[name] == "success" || needs[name] == "skipped")
      && (needs["linux"] == "success" <==> p.linuxVersions != [])
      && (needs["linux-floor"] == "success" <==> FloorPack in p.linuxPacks)
      && (needs["macos"] == "success" <==> p.macos)
      && (needs["windows-private-fs"] == "success" <==> p.windows)
  {
  }

  lemma RoleIff(p: Policy, os: Os, role: Role)
    requires (p.linuxVersions != [] ==> p.supportPython in p.linuxVersions) && (p.windows ==> 1 in p.windowsShards)
    ensures (exists id :: IsRole(p, id, os, role)) <==>
      match os
      case Linux => if role == Main then p.linuxVersions != [] else FloorPack in p.linuxPacks
      case Macos => p.macos && role == Main
      case Windows => p.windows && role == Main
  {
    var id := Id(os, if os == Linux then p.supportPython else p.platformPython, 1, role);
    assert (match os
            case Linux => if role == Main then p.linuxVersions != [] else FloorPack in p.linuxPacks
            case Macos => p.macos && role == Main
            case Windows => p.windows && role == Main) ==> IsRole(p, id, os, role);
  }

  /** An acceptance is one of the policy it is asked for, of just these workers and job
      results; it says accepted unless the policy was draft feedback, which it then says. */
  lemma AcceptedUnlessDraft(
      p: Policy, s: Selector, ws: seq<Worker>, needs: map<string, Need>, steps: map<string, Step>,
      complete: (Manifest, int) -> bool)
    requires Accept(p, s, ws, needs, steps, complete).Some?
    ensures var e := Accept(p, s, ws, needs, steps, complete).value;
      && e.accepted != e.feedback && (e.feedback <==> p.mode == Critical)
      && e.policy == p && multiset(e.workers) == multiset(ws) && Rising(e.workers)
      && e.needs.Keys == needs.Keys && (forall name | name in needs :: e.needs[name].result == needs[name].result)
      && (p.mode == Docs ==> "docs_tests" in e.docs && e.docs["docs_tests"] == SUCCESS)
  {
    SortedRises(ws);
    hide ValidPolicy, ValidWorker, Sorted, Expected, NeedsMet, Rising;
    assert p.mode == Docs ==> DocsSteps(p, steps)["docs_tests"] == StepOf(steps, "docs_tests");
  }

  /** A worker on which each required step of the pack was a success. */
  predicate RanWell(p: Policy, w: Worker, os: Os, pack: Pack) {
    w.id.os == os && pack in w.packs
    && forall name | name in Steps(pack, os, p.mode) :: name in w.packs[pack] && w.packs[pack][name] == SUCCESS
  }

  /** And of every pack of the policy each required step was a success on a worker. */
  lemma AcceptedRanEverything(
      p: Policy, s: Selector, ws: seq<Worker>, needs: map<string, Need>, steps: map<string, Step>,
      complete: (Manifest, int) -> bool, os: Os, pack: Pack)
    requires Accept(p, s, ws, needs, steps, complete).Some? && pack in PacksFor(p, os)
    ensures exists w :: w in ws && RanWell(p, w, os, pack)
  {
    AcceptedIff(p, s, ws, needs, steps, complete);
    EveryPackIsRun(p, s, os, pack);
    hide ValidPolicy, Accept, NeedsMet, Green, RanWell, PacksFor, StepOf;
    var id :| Runs(p, id, os, pack);
    assert HasId(ws, id) by { hide Packs; }
    hide Exactly, Expected, Packs;
    var w :| w in ws && w.id == id;
    GreenRanWell(p, w, complete, os, pack);
  }

  lemma GreenRanWell(p: Policy, w: Worker, complete: (Manifest, int) -> bool, os: Os, pack: Pack)
    requires Green(p, w, complete) && Runs(p, w.id, os, pack)
    ensures RanWell(p, w, os, pack)
  {
    hide Expected, Packs, Steps;
  }
}
