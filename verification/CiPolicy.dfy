/** How a CI event becomes a policy: reduced work only for changes that are known
    in full and reviewed, everything else final. */
module CiPolicy {
  import opened Options
  import opened CiAcceptance

  datatype Tag =
    | Network | Llm | Privacy | Extension
    | Features | Floor | Package | Tor
    | MacosTag | WheelTag | DocsTag

  datatype Status = Modified | OtherStatus

  /** A changed file; `sound` says its record is well formed. */
  datatype Change = Change(path: Path, status: Status, sound: bool)

  /** What has been reviewed: the tags of each path, the paths that are a shared
      boundary, and those that are user documentation. */
  datatype Review = Review(inventory: map<Path, seq<Tag>>, sensitive: set<Path>, userDocs: set<Path>)

  datatype Scope = Scope(
    final: bool, docs: bool, macos: bool, families: seq<nat>, linuxPacks: seq<Pack>, windowsPacks: seq<Pack>,
    modules: seq<Path>, reason: string)

  const FINAL_SCOPE := Scope(true, false, true, [], [], [], [], "final")

  // ------------------------------------------------------- classify_changes

  predicate ValidChanges(changes: seq<Change>) {
    changes != [] && (forall c | c in changes :: c.sound)
    && forall i, j | 0 <= i < j < |changes| :: changes[i].path != changes[j].path
  }

  /** A file that may select reduced work. */
  predicate Reviewed(c: Change, r: Review) {
    && c.status == Modified && c.path !in r.sensitive && c.path in r.inventory
    && (DocsTag in r.inventory[c.path] ==> c.path in r.userDocs)
  }

  function TagsOf(changes: seq<Change>, r: Review): set<Tag> {
    set c, t | c in changes && c.path in r.inventory && t in r.inventory[c.path] :: t
  }

  /** The union of some families' modules, by family number. */
  function Union(families: seq<set<Path>>, chosen: seq<nat>): set<Path> {
    if chosen == [] then {}
    else (if chosen[0] < |families| then families[chosen[0]] else {}) + Union(families, chosen[1..])
  }

  /** windows_family_modules */
  function FamilyModules(s: Selector, chosen: seq<nat>): seq<Path> {
    Kept(s.native, Union(s.families, chosen))
  }

  function FamiliesOf(tags: set<Tag>): seq<nat> {
    (if Network in tags then [0] else []) + (if Llm in tags then [1] else [])
    + (if Privacy in tags then [2] else []) + (if Extension in tags then [3] else [])
  }

  const LINUX_PACKS := [FeaturesPack, FloorPack, PackagePack, TorPack]

  function PacksOf(tags: set<Tag>): set<Pack> {
    (if Features in tags then {FeaturesPack} else {}) + (if Floor in tags then {FloorPack} else {})
    + (if Package in tags then {PackagePack} else {}) + (if Tor in tags then {TorPack} else {})
  }

  function LinuxPacks(tags: set<Tag>): seq<Pack> {
    Kept(LINUX_PACKS, PacksOf(tags))
  }

  function ScopeOf(tags: set<Tag>, allDocs: bool, s: Selector): Scope {
    Scope(false, allDocs, MacosTag in tags, FamiliesOf(tags), LinuxPacks(tags),
          if WheelTag in tags then [WheelPack] else [], FamilyModules(s, FamiliesOf(tags)), "complete reviewed change scope")
  }

  function Classify(changes: seq<Change>, r: Review, s: Selector): Scope {
    if !ValidChanges(changes) || !(forall c | c in changes :: Reviewed(c, r)) then FINAL_SCOPE
    else ScopeOf(TagsOf(changes, r), forall c | c in changes :: r.inventory[c.path] == [DocsTag], s)
  }

  /** The loop of classify_changes. */
  method ClassifyChanges(changes: seq<Change>, r: Review, s: Selector) returns (scope: Scope)
    ensures scope == Classify(changes, r, s)
  {
    var valid := ValidateChanges(changes);
    if !valid { return FINAL_SCOPE; }
    var tags: set<Tag> := {};
    var allDocs := true;
    var i := 0;
    while i < |changes|
      invariant i <= |changes|
      invariant forall k | 0 <= k < i :: Reviewed(changes[k], r)
      invariant tags == TagsOf(changes[..i], r)
      invariant allDocs <==> forall k | 0 <= k < i :: r.inventory[changes[k].path] == [DocsTag]
    {
      var c := changes[i];
      assert c in changes;
      if c.status != Modified || c.path in r.sensitive || c.path !in r.inventory { return FINAL_SCOPE; }
      var entry := r.inventory[c.path];
      if DocsTag in entry && c.path !in r.userDocs { return FINAL_SCOPE; }
      assert changes[..i + 1] == changes[..i] + [c];
      TagsMore(changes[..i], c, r);
      tags := tags + (set t | t in entry);
      allDocs := allDocs && entry == [DocsTag];
      i := i + 1;
    }
    assert changes[..i] == changes;
    return ScopeOf(tags, allDocs, s);
  }

  lemma TagsMore(changes: seq<Change>, c: Change, r: Review)
    requires c.path in r.inventory
    ensures TagsOf(changes + [c], r) == TagsOf(changes, r) + (set t | t in r.inventory[c.path])
  {
  }

  /** validate_changes */
  method ValidateChanges(changes: seq<Change>) returns (valid: bool)
    ensures valid <==> ValidChanges(changes)
  {
    if changes == [] { return false; }
    var seen: set<Path> := {};
    var i := 0;
    while i < |changes|
      invariant i <= |changes| && forall k | 0 <= k < i :: changes[k].sound && changes[k].path in seen
      invariant forall p | p in seen :: exists k :: 0 <= k < i && changes[k].path == p
      invariant forall j, k | 0 <= j < k < i :: changes[j].path != changes[k].path
    {
      if !changes[i].sound || changes[i].path in seen { return false; }
      seen := seen + {changes[i].path};
      i := i + 1;
    }
    return true;
  }

  // ------------------------------------------------------------- the events

  /** A pull request as _pr_mode reads it: what is known, complete and matching,
      and its changed files, if they could be read. */
  datatype PullRequest = PullRequest(
    known: bool, complete: bool, toMain: bool, full: bool, matches: bool, draft: bool, draftAction: bool,
    changes: Option<seq<Change>>)

  /** A push as _push_mode reads it. */
  datatype PushEvent = PushEvent(toDev: bool, plain: bool, changes: Option<seq<Change>>, baseline: bool)

  datatype Event = PullRequestEvent(pr: PullRequest) | Pushed(push: PushEvent) | OtherEvent

  datatype Choice = Choice(mode: Mode, scope: Scope, routine: bool)

  const FINAL_CHOICE := Choice(Final, FINAL_SCOPE, false)

  /** _pr_mode; None is an exception. */
  function PrMode(pr: PullRequest, r: Review, s: Selector): Option<Choice> {
    if !pr.known || !pr.complete || pr.toMain || pr.full || !pr.matches || (pr.draft && !pr.draftAction) then Some(FINAL_CHOICE)
    else if pr.changes == None then None
    else
      var scope := Classify(pr.changes.value, r, s);
      if pr.draft then Some(Choice(Critical, scope, false))
      else Some(Choice(if scope.final then Final else if scope.docs then Docs else Ordinary, scope, true))
  }

  /** _push_mode */
  function PushMode(push: PushEvent, ref: string, r: Review, s: Selector): Option<Choice> {
    if ref != "refs/heads/dev" || !push.toDev || !push.plain then Some(FINAL_CHOICE)
    else if push.changes == None then None
    else if !push.baseline then Some(FINAL_CHOICE)
    else
      var scope := Classify(push.changes.value, r, s);
      Some(Choice(if scope.final then Final else Ordinary, scope, true))
  }

  function ChoiceOf(event: Event, context: Context, provenance: bool, r: Review, s: Selector): Choice {
    if !provenance then FINAL_CHOICE
    else
      var choice := match event {
        case PullRequestEvent(pr) => if context.event == "pull_request" then PrMode(pr, r, s) else None
        case Pushed(push) => if context.event == "push" then PushMode(push, context.ref, r, s) else None
        case OtherEvent => None
      };
      if choice.Some? then choice.value else FINAL_CHOICE
  }

  /** The policy of a choice. */
  function PolicyOf(c: Choice, context: Context, s: Selector): Policy {
    var final, docs, critical := c.mode == Final, c.mode == Docs, c.mode == Critical;
    var macos := !docs && (final || c.scope.macos);
    var windows := !docs && (final || c.scope.final || c.scope.families != [] || c.scope.windowsPacks != []);
    var version := if final then Py311 else Py312;
    var tier := if !windows then NoTier else if final && c.routine then Routine else Full;
    Policy(
      c.mode, context, if final then [Py311, Py313] else if docs then [] else [Py312], version, version, macos, windows,
      if final then FINAL_LINUX else if docs then []
      else [MainPack, StaticPack] + if critical then [] else c.scope.linuxPacks,
      if final then FINAL_MACOS else if macos then [MainPack] else [],
      if final then FINAL_WINDOWS else if windows then [MainPack] + (if critical then [] else c.scope.windowsPacks) else [],
      if final then s.native else if critical then [] else c.scope.modules,
      if final then [1, 2, 3, 4] else if windows then [1] else [],
      tier, s.digest(if tier == NoTier then Full else tier),
      if critical then "draft feedback only; " + c.scope.reason else c.scope.reason)
  }

  /** build_policy; `provenance` says repository, commit and event name are in order. */
  function BuildPolicy(event: Event, context: Context, provenance: bool, r: Review, s: Selector): Policy {
    PolicyOf(ChoiceOf(event, context, provenance, r, s), context, s)
  }

  // -------------------------------------------------------------- theorems

  /** Four families, each part of the native selector, which repeats nothing. */
  predicate SoundSelector(s: Selector) {
    Distinct(s.native) && |s.families| == 4 && forall i | 0 <= i < 4 :: forall x | x in s.families[i] :: x in s.native
  }

  lemma {:induction false} UnionIs(families: seq<set<Path>>, chosen: seq<nat>, x: Path)
    ensures x in Union(families, chosen) <==> exists i | i in chosen :: i < |families| && x in families[i]
    decreases |chosen|
  {
    if chosen != [] {
      UnionIs(families, chosen[1..], x);
      assert forall i :: i in chosen <==> i == chosen[0] || i in chosen[1..];
    }
  }

  predicate Within(families: seq<set<Path>>, i: int, m: set<Path>, x: Path) {
    0 <= i < |families| && families[i] <= m && x in families[i]
  }

  lemma {:induction false} CompleteIs(families: seq<set<Path>>, m: set<Path>, x: Path)
    ensures x in Complete(families, m) <==> exists i :: Within(families, i, m, x)
    decreases |families|
  {
    if families != [] {
      CompleteIs(families[1..], m, x);
      if i :| Within(families[1..], i, m, x) { assert Within(families, i + 1, m, x); }
      if i :| Within(families, i, m, x) { assert i > 0 ==> Within(families[1..], i - 1, m, x); }
      if families[0] <= m && x in families[0] { assert Within(families, 0, m, x); }
    }
  }

  lemma {:induction false} KeptSame<T(!new)>(all: seq<T>, a: set<T>, b: set<T>)
    requires forall x | x in all :: x in a <==> x in b
    ensures Kept(all, a) == Kept(all, b)
    decreases |all|
  {
    if all != [] {
      assert all[0] in all && forall x | x in all[1..] :: x in all;
      KeptSame(all[1..], a, b);
    }
  }

  lemma {:induction false} KeptNone<T(!new)>(all: seq<T>)
    ensures Kept(all, {}) == []
    decreases |all|
  {
    if all != [] { KeptNone(all[1..]); }
  }

  lemma {:induction false} KeptDistinct<T(!new)>(all: seq<T>, chosen: set<T>)
    requires Distinct(all)
    ensures Distinct(Kept(all, chosen))
    decreases |all|
  {
    if all != [] {
      KeptDistinct(all[1..], chosen);
      assert all[0] !in all[1..];
    }
  }

  lemma KeptStep<T(!new)>(x: T, rest: seq<T>, chosen: set<T>)
    ensures Kept([x] + rest, chosen) == (if x in chosen then [x] else []) + Kept(rest, chosen)
  {
    assert ([x] + rest)[1..] == rest;
  }

  lemma {:induction false} KeptConcat<T(!new)>(a: seq<T>, b: seq<T>, chosen: set<T>)
    ensures Kept(a + b, chosen) == Kept(a, chosen) + Kept(b, chosen)
    decreases |a|
  {
    if a == [] {
      assert a + b == b;
    } else {
      var x, rest := a[0], a[1..];
      KeptConcat(rest, b, chosen);
      KeptStep(x, rest, chosen);
      KeptStep(x, rest + b, chosen);
      hide Kept;
      assert a == [x] + rest && a + b == [x] + (rest + b);
    }
  }

  /** The Linux packs of a scope come in the order of the full list. */
  lemma LinuxPacksInOrder(tags: set<Tag>, packs: seq<Pack>)
    requires packs == [MainPack, StaticPack] + LinuxPacks(tags)
    ensures Kept(FINAL_LINUX, Elements(packs)) == packs
  {
    var chosen, base, tail := Elements(packs), [MainPack, StaticPack], [TpmPack, SwtpmPack];
    assert FINAL_LINUX == base + (LINUX_PACKS + tail);
    LinuxMembers(tags, packs);
    hide Kept, Elements, LinuxPacks, PacksOf;
    KeptConcat(base, LINUX_PACKS + tail, chosen);
    KeptConcat(LINUX_PACKS, tail, chosen);
    KeptAll(base, chosen);
    KeptSame(tail, chosen, {});
    KeptNone(tail);
    assert LinuxPacks(tags) == Kept(LINUX_PACKS, PacksOf(tags)) by { LinuxPacksIs(tags); }
    KeptSame(LINUX_PACKS, chosen, PacksOf(tags));
    assert Kept(LINUX_PACKS, chosen) + [] == Kept(LINUX_PACKS, chosen);
  }

  lemma LinuxPacksIs(tags: set<Tag>)
    ensures LinuxPacks(tags) == Kept(LINUX_PACKS, PacksOf(tags))
  {
  }

  lemma LinuxMembers(tags: set<Tag>, packs: seq<Pack>)
    requires packs == [MainPack, StaticPack] + LinuxPacks(tags)
    ensures MainPack in Elements(packs) && StaticPack in Elements(packs)
    ensures TpmPack !in Elements(packs) && SwtpmPack !in Elements(packs)
    ensures forall p | p in LINUX_PACKS :: p in Elements(packs) <==> p in PacksOf(tags)
    ensures forall p :: p in packs <==> p in Elements(packs)
  {
    assert forall p :: p in packs <==> p == MainPack || p == StaticPack || p in LinuxPacks(tags);
    hide PacksOf, Kept;
  }

  lemma LinuxPacksDistinct(tags: set<Tag>)
    ensures Distinct([MainPack, StaticPack] + LinuxPacks(tags))
  {
    assert Distinct(LINUX_PACKS);
    KeptDistinct(LINUX_PACKS, PacksOf(tags));
    var rest := LinuxPacks(tags);
    assert forall i | 0 <= i < |rest| :: rest[i] in rest;
    hide Kept, PacksOf;
  }

  lemma WindowsPacksInOrder(wheel: bool, packs: seq<Pack>)
    requires packs == [MainPack] + if wheel then [WheelPack] else []
    ensures Kept(FINAL_WINDOWS, Elements(packs)) == packs && Distinct(packs)
  {
    var chosen := Elements(packs);
    assert MainPack in packs && WinkeyPack !in packs && (WheelPack in packs <==> wheel);
    KeptStep(WheelPack, [], chosen);
    KeptStep(WinkeyPack, [WheelPack], chosen);
    KeptStep(MainPack, [WinkeyPack, WheelPack], chosen);
  }

  lemma MacosPacksInOrder()
    ensures Kept(FINAL_MACOS, Elements([MainPack])) == [MainPack]
  {
    var chosen := Elements([MainPack]);
    KeptStep(TpmPack, [], chosen);
    KeptStep(SwiftPack, [TpmPack], chosen);
    KeptStep(MainPack, [SwiftPack, TpmPack], chosen);
  }

  /** The modules of families are complete, in selector order, without repetition. */
  lemma FamilyModulesAreComplete(s: Selector, chosen: seq<nat>)
    requires SoundSelector(s) && forall i | i in chosen :: i < 4
    ensures var m := FamilyModules(s, chosen);
      Distinct(m) && m == Kept(s.native, Elements(m)) && Elements(m) == Complete(s.families, Elements(m))
      && Elements(m) == Union(s.families, chosen)
  {
    var m, u := FamilyModules(s, chosen), Union(s.families, chosen);
    KeptDistinct(s.native, u);
    forall x ensures x in u <==> x in m { UnionIs(s.families, chosen, x); }
    assert Elements(m) == u;
    forall x ensures x in Complete(s.families, u) <==> x in u {
      CompleteIs(s.families, u, x);
      UnionIs(s.families, chosen, x);
      if x in u {
        var i :| i in chosen && i < |s.families| && x in s.families[i];
        forall y | y in s.families[i] ensures y in u { UnionIs(s.families, chosen, y); }
        assert Within(s.families, i, u, x);
      }
    }
  }

  /** What is known of the choice, whatever the event. */
  ghost predicate Sensible(c: Choice, context: Context, s: Selector) {
    && c.scope.reason != ""
    && (c.scope == FINAL_SCOPE || exists tags, docs :: c.scope == ScopeOf(tags, docs, s))
    && (c.mode == Docs ==> c.scope.modules == [])
    && (c.mode == Ordinary ==> !c.scope.final)
    && (c.routine ==> context.event == "pull_request" || (context.event == "push" && context.ref == "refs/heads/dev"))
  }

  lemma DocsSelectNoModules(changes: seq<Change>, r: Review, s: Selector)
    requires Classify(changes, r, s).docs
    ensures Classify(changes, r, s).modules == []
  {
    var tags := TagsOf(changes, r);
    forall t | t in tags ensures t == DocsTag {
      var c :| c in changes && c.path in r.inventory && t in r.inventory[c.path];
      assert r.inventory[c.path] == [DocsTag];
    }
    assert FamiliesOf(tags) == [];
    assert Union(s.families, []) == {};
    KeptNone(s.native);
  }

  lemma ClassifyIsSensible(changes: seq<Change>, r: Review, s: Selector)
    ensures var c := Classify(changes, r, s);
      c.reason != "" && (c == FINAL_SCOPE || exists tags, docs :: c == ScopeOf(tags, docs, s))
  {
    var c := Classify(changes, r, s);
    if c != FINAL_SCOPE {
      assert c == ScopeOf(TagsOf(changes, r), forall c | c in changes :: r.inventory[c.path] == [DocsTag], s);
    }
  }

  lemma ChoiceIsSensible(event: Event, context: Context, provenance: bool, r: Review, s: Selector)
    ensures Sensible(ChoiceOf(event, context, provenance, r, s), context, s)
  {
    match event {
      case PullRequestEvent(pr) =>
        if pr.changes.Some? {
          ClassifyIsSensible(pr.changes.value, r, s);
          if Classify(pr.changes.value, r, s).docs { DocsSelectNoModules(pr.changes.value, r, s); }
        }
      case Pushed(push) => if push.changes.Some? { ClassifyIsSensible(push.changes.value, r, s); }
      case OtherEvent =>
    }
    hide Classify, ScopeOf;
  }

  lemma FinalIsValid(c: Choice, context: Context, s: Selector)
    requires c.mode == Final && SoundSelector(s) && context.sound && Sensible(c, context, s)
    ensures ValidPolicy(PolicyOf(c, context, s), s)
  {
    FinalPacksAreValid();
    FinalModulesAreValid(PolicyOf(c, context, s), s);
    hide ValidPacks, ValidModules, SoundSelector, ScopeOf;
  }

  lemma FinalPacksAreValid()
    ensures ValidPacks(Final, FINAL_LINUX, true, [MainPack, StaticPack], FINAL_LINUX)
    ensures ValidPacks(Final, FINAL_MACOS, true, [MainPack], FINAL_MACOS)
    ensures ValidPacks(Final, FINAL_WINDOWS, true, [MainPack], FINAL_WINDOWS)
  {
    hide Kept;
  }

  lemma FinalModulesAreValid(p: Policy, s: Selector)
    requires SoundSelector(s) && p.mode == Final && p.windows && p.windowsModules == s.native
    ensures ValidModules(p, s)
  {
    assert forall x | x in s.native :: x in Elements(s.native);
    KeptAll(s.native, Elements(s.native));
    hide Kept, Complete, Distinct;
  }

  lemma {:induction false} KeptAll<T(!new)>(all: seq<T>, chosen: set<T>)
    requires forall x | x in all :: x in chosen
    ensures Kept(all, chosen) == all
    decreases |all|
  {
    if all != [] {
      assert all[0] in all && forall x | x in all[1..] :: x in all;
      KeptAll(all[1..], chosen);
    }
  }

  lemma LinuxPacksAreValid(c: Choice, context: Context, s: Selector)
    requires c.mode != Final && (c.mode == Ordinary ==> exists tags, docs :: c.scope == ScopeOf(tags, docs, s))
    ensures var p := PolicyOf(c, context, s);
      ValidPacks(p.mode, p.linuxPacks, p.linuxVersions != [], [MainPack, StaticPack], FINAL_LINUX)
  {
    if c.mode == Ordinary {
      var tags, docs :| c.scope == ScopeOf(tags, docs, s);
      OrdinaryLinuxIsValid(tags);
    } else {
      RequiredAreValid();
    }
    hide ValidPacks, LinuxPacks, FamilyModules, FamiliesOf;
  }

  lemma OrdinaryLinuxIsValid(tags: set<Tag>)
    ensures ValidPacks(Ordinary, [MainPack, StaticPack] + LinuxPacks(tags), true, [MainPack, StaticPack], FINAL_LINUX)
  {
    var packs := [MainPack, StaticPack] + LinuxPacks(tags);
    LinuxPacksInOrder(tags, packs);
    LinuxMembers(tags, packs);
    LinuxPacksDistinct(tags);
    hide Kept, LinuxPacks, Distinct, Elements;
  }

  /** Where only the required packs run, or none. */
  lemma RequiredAreValid()
    ensures ValidPacks(Critical, [MainPack, StaticPack], true, [MainPack, StaticPack], FINAL_LINUX)
    ensures ValidPacks(Critical, [MainPack], true, [MainPack], FINAL_WINDOWS)
    ensures forall mode, required, full :: ValidPacks(mode, [], false, required, full)
  {
    hide Kept;
  }

  lemma WindowsPacksAreValid(c: Choice, context: Context, s: Selector)
    requires c.mode != Final && (c.mode == Ordinary ==> exists tags, docs :: c.scope == ScopeOf(tags, docs, s))
    ensures var p := PolicyOf(c, context, s);
      ValidPacks(p.mode, p.windowsPacks, p.windows, [MainPack], FINAL_WINDOWS)
  {
    RequiredAreValid();
    if c.mode == Ordinary {
      var tags, docs :| c.scope == ScopeOf(tags, docs, s);
      OrdinaryWindowsIsValid(WheelTag in tags);
    }
    hide ValidPacks, LinuxPacks, FamilyModules, FamiliesOf;
    assert [MainPack] + [] == [MainPack];
  }

  lemma OrdinaryWindowsIsValid(wheel: bool)
    ensures ValidPacks(Ordinary, [MainPack] + if wheel then [WheelPack] else [], true, [MainPack], FINAL_WINDOWS)
  {
    WindowsPacksInOrder(wheel, [MainPack] + if wheel then [WheelPack] else []);
    hide Kept, Distinct, Elements;
  }

  lemma MacosPacksAreValid(c: Choice, context: Context, s: Selector)
    requires c.mode != Final
    ensures var p := PolicyOf(c, context, s); ValidPacks(p.mode, p.macosPacks, p.macos, [MainPack], FINAL_MACOS)
  {
    MacosPacksInOrder();
    hide Kept;
  }

  lemma FamiliesAreValid(p: Policy, s: Selector, chosen: seq<nat>)
    requires p.mode == Ordinary && p.windowsModules == FamilyModules(s, chosen) && (chosen != [] ==> p.windows)
    requires SoundSelector(s) && forall i | i in chosen :: i < 4
    ensures ValidModules(p, s)
  {
    FamilyModulesAreComplete(s, chosen);
    if chosen == [] {
      assert Union(s.families, []) == {};
      KeptNone(s.native);
    }
    hide Kept, Complete, Distinct, Union, SoundSelector, Elements;
  }

  lemma OrdinaryModulesAreValid(c: Choice, context: Context, s: Selector, tags: set<Tag>, docs: bool)
    requires c.mode == Ordinary && SoundSelector(s) && c.scope == ScopeOf(tags, docs, s)
    ensures ValidModules(PolicyOf(c, context, s), s)
  {
    var p, chosen := PolicyOf(c, context, s), FamiliesOf(tags);
    assert forall i | i in chosen :: i < 4;
    hide SoundSelector, FamilyModules, FamiliesOf;
    assert p.windowsModules == FamilyModules(s, chosen) && p.mode == Ordinary && (chosen != [] ==> p.windows);
    hide PolicyOf, ScopeOf, ValidModules;
    FamiliesAreValid(p, s, chosen);
  }

  lemma NoModulesAreValid(p: Policy, s: Selector)
    requires p.mode == Critical || p.mode == Docs
    requires p.windowsModules == []
    ensures ValidModules(p, s)
  {
  }

  lemma ReducedModulesAreValid(c: Choice, context: Context, s: Selector)
    requires c.mode != Final && SoundSelector(s) && Sensible(c, context, s)
    ensures ValidModules(PolicyOf(c, context, s), s)
  {
    hide ValidModules, SoundSelector, FamilyModules, FamiliesOf, ScopeOf;
    if c.mode == Ordinary {
      var tags, docs :| c.scope == ScopeOf(tags, docs, s);
      OrdinaryModulesAreValid(c, context, s, tags, docs);
    } else {
      NoModulesAreValid(PolicyOf(c, context, s), s);
    }
  }

  /** What validation insists on: event and reason; the base packs wherever a system
      is asked for, and no pack that is unknown; of an ordinary policy only whole
      families; and the routine tier only in final runs of dev. */
  lemma ValidMeans(p: Policy, s: Selector, os: Os)
    requires ValidPolicy(p, s)
    ensures p.context.sound && p.reason != ""
    ensures PacksFor(p, os) != [] ==> MainPack in PacksFor(p, os) && (os == Linux ==> StaticPack in PacksFor(p, os))
    ensures Distinct(PacksFor(p, os)) && forall k | k in PacksFor(p, os) :: k in AllPacks(os)
    ensures p.mode == Ordinary ==>
      forall x | x in p.windowsModules :: exists i :: Within(s.families, i, Elements(p.windowsModules), x)
    ensures p.windowsModules != [] ==> p.windows && (p.mode == Ordinary || p.mode == Final)
    ensures p.tier == Routine ==>
      p.mode == Final && (p.context.event == "pull_request" || (p.context.event == "push" && p.context.ref == "refs/heads/dev"))
  {
    assert MainPack in [MainPack, StaticPack] && StaticPack in [MainPack, StaticPack] && MainPack in [MainPack];
    assert FINAL_LINUX[0] == MainPack && FINAL_LINUX[1] == StaticPack && FINAL_MACOS[0] == MainPack && FINAL_WINDOWS[0] == MainPack;
    if p.mode == Ordinary {
      forall x | x in p.windowsModules ensures exists i :: Within(s.families, i, Elements(p.windowsModules), x) {
        CompleteIs(s.families, Elements(p.windowsModules), x);
        assert x in Elements(p.windowsModules);
      }
    }
    hide Within, Complete;
  }

  /** Whatever the event, the policy made of it passes the validation that every
      consumer puts it through. */
  lemma BuildPolicyIsValid(event: Event, context: Context, provenance: bool, r: Review, s: Selector)
    requires SoundSelector(s) && context.sound
    ensures ValidPolicy(BuildPolicy(event, context, provenance, r, s), s)
  {
    var c := ChoiceOf(event, context, provenance, r, s);
    ChoiceIsSensible(event, context, provenance, r, s);
    hide ChoiceOf, ValidPacks, ValidModules;
    if c.mode == Final {
      FinalIsValid(c, context, s);
    } else {
      LinuxPacksAreValid(c, context, s);
      MacosPacksAreValid(c, context, s);
      WindowsPacksAreValid(c, context, s);
      ReducedModulesAreValid(c, context, s);
      PolicyReason(c, context, s);
    }
  }

  lemma PolicyReason(c: Choice, context: Context, s: Selector)
    requires c.scope.reason != ""
    ensures PolicyOf(c, context, s).reason != ""
  {
  }

  /** The changed files of an event, if they could be read. */
  function ChangesOf(event: Event): Option<seq<Change>> {
    match event
    case PullRequestEvent(pr) => pr.changes
    case Pushed(push) => push.changes
    case OtherEvent => None
  }

  /** Every changed file is known, was merely modified, is no shared boundary and has
      reviewed tags. */
  predicate AllReviewed(event: Event, r: Review) {
    ChangesOf(event).Some? && ValidChanges(ChangesOf(event).value)
    && forall c | c in ChangesOf(event).value :: Reviewed(c, r)
  }

  /** A pull request to dev whose tested merge is that of the event, and which does not
      ask for everything. */
  predicate Trusted(event: Event, context: Context) {
    event.PullRequestEvent? && context.event == "pull_request"
    && var pr := event.pr;
    pr.known && pr.complete && pr.matches && !pr.toMain && !pr.full && (pr.draft ==> pr.draftAction)
  }

  /** A plain push to dev. */
  predicate PlainPush(event: Event, context: Context) {
    event.Pushed? && context.event == "push" && context.ref == "refs/heads/dev" && event.push.toDev && event.push.plain
  }

  /** Which mode is chosen when: documentation only for a trusted pull request whose
      every changed file was reviewed as nothing but documentation; draft feedback
      for a trusted draft; ordinary work for what else is reviewed in full, after a
      push only on top of an accepted commit; and final for all the rest. */
  lemma ModeIffReviewed(event: Event, context: Context, provenance: bool, r: Review, s: Selector)
    ensures var mode := BuildPolicy(event, context, provenance, r, s).mode;
      && (mode == Docs <==>
            provenance && Trusted(event, context) && !event.pr.draft && AllReviewed(event, r)
            && forall c | c in ChangesOf(event).value :: r.inventory[c.path] == [DocsTag])
      && (mode == Critical <==> provenance && Trusted(event, context) && event.pr.draft && ChangesOf(event).Some?)
      && (mode == Ordinary <==>
            provenance && AllReviewed(event, r)
            && if event.PullRequestEvent?
               then Trusted(event, context) && !event.pr.draft
                    && exists c :: c in ChangesOf(event).value && r.inventory[c.path] != [DocsTag]
               else PlainPush(event, context) && event.push.baseline)
  {
    hide ScopeOf, TagsOf;
    if ChangesOf(event).Some? { ClassifyIs(ChangesOf(event).value, r, s); }
    hide Classify, ValidChanges, Reviewed;
  }

  lemma ClassifyIs(changes: seq<Change>, r: Review, s: Selector)
    ensures var reviewed := ValidChanges(changes) && forall c | c in changes :: Reviewed(c, r);
      && Classify(changes, r, s).final == !reviewed
      && (Classify(changes, r, s).docs <==> reviewed && forall c | c in changes :: r.inventory[c.path] == [DocsTag])
  {
  }

  /** The exclusions of the routine tier are used just in a final run of an event whose
      changes could be read: a trusted pull request that is no draft, or a plain push
      to dev on top of an accepted commit. */
  lemma RoutineIffReadable(event: Event, context: Context, provenance: bool, r: Review, s: Selector)
    ensures var p := BuildPolicy(event, context, provenance, r, s);
      && (p.tier == Routine <==>
            p.mode == Final && provenance && ChangesOf(event).Some?
            && if event.PullRequestEvent? then Trusted(event, context) && !event.pr.draft
               else PlainPush(event, context) && event.push.baseline)
      && (p.tier == NoTier <==> !p.windows)
      && p.exclusions == s.digest(if p.tier == Routine then Routine else Full)
  {
    hide Classify;
  }

  /** The scope a reduced policy was made of. */
  lemma ReducedScope(event: Event, context: Context, provenance: bool, r: Review, s: Selector) returns (changes: seq<Change>)
    requires var mode := BuildPolicy(event, context, provenance, r, s).mode; mode == Ordinary || mode == Docs
    ensures ChangesOf(event) == Some(changes)
    ensures var docs := forall c | c in changes :: r.inventory[c.path] == [DocsTag];
      (forall c | c in changes :: c.path in r.inventory)
      && ChoiceOf(event, context, provenance, r, s).scope == ScopeOf(TagsOf(changes, r), docs, s)
  {
    ModeIffReviewed(event, context, provenance, r, s);
    changes := ChangesOf(event).value;
    assert ChoiceOf(event, context, provenance, r, s).scope == Classify(changes, r, s);
  }

  /** In every mode but draft feedback the policy covers every tag of every changed
      file, other than that of documentation. */
  lemma SelectionCovers(event: Event, context: Context, provenance: bool, r: Review, s: Selector, c: Change, t: Tag)
    requires SoundSelector(s) && BuildPolicy(event, context, provenance, r, s).mode != Critical
    requires ChangesOf(event).Some? && c in ChangesOf(event).value && c.path in r.inventory && t in r.inventory[c.path]
    requires t != DocsTag
    ensures Covers(BuildPolicy(event, context, provenance, r, s), s, t)
  {
    var choice := ChoiceOf(event, context, provenance, r, s);
    var mode := choice.mode;
    if mode == Final {
      FinalCovers(choice, context, s, t);
    } else {
      var changes := ReducedScope(event, context, provenance, r, s);
      var tags := TagsOf(changes, r);
      assert t in tags;
      ModeIffReviewed(event, context, provenance, r, s);
      assert mode != Docs;
      hide ChoiceOf, TagsOf;
      ScopeCovers(choice, context, s, tags, forall c | c in changes :: r.inventory[c.path] == [DocsTag], t);
    }
  }

  lemma FinalCovers(choice: Choice, context: Context, s: Selector, t: Tag)
    requires SoundSelector(s) && choice.mode == Final
    ensures Covers(PolicyOf(choice, context, s), s, t)
  {
    assert forall x | x in FINAL_LINUX :: x in PolicyOf(choice, context, s).linuxPacks;
    assert FINAL_LINUX[2] == FeaturesPack && FINAL_LINUX[3] == FloorPack && FINAL_LINUX[4] == PackagePack && FINAL_LINUX[5] == TorPack;
    assert FINAL_WINDOWS[2] == WheelPack && FINAL_MACOS[0] == MainPack;
    hide Distinct;
  }

  /** And an ordinary policy asks for nothing but the base and what the tags ask for. */
  lemma SelectionIsExact(event: Event, context: Context, provenance: bool, r: Review, s: Selector)
    requires SoundSelector(s) && BuildPolicy(event, context, provenance, r, s).mode == Ordinary
    ensures ChangesOf(event).Some?
    ensures var p, tags := BuildPolicy(event, context, provenance, r, s), TagsOf(ChangesOf(event).value, r);
      && (forall k :: k in p.linuxPacks <==>
            k == MainPack || k == StaticPack || exists t :: t in tags && t in {Features, Floor, Package, Tor} && PackOf(t) == k)
      && (p.macos <==> MacosTag in tags)
      && (p.windows <==> exists t :: t in tags && (t == WheelTag || FamilyOf(t) < 4))
      && (WheelPack in p.windowsPacks <==> WheelTag in tags)
      && (forall x :: x in p.windowsModules <==> exists t :: t in tags && FamilyOf(t) < 4 && x in s.families[FamilyOf(t)])
  {
    var changes := ReducedScope(event, context, provenance, r, s);
    var choice, tags := ChoiceOf(event, context, provenance, r, s), TagsOf(changes, r);
    assert choice.mode == Ordinary;
    hide ChoiceOf, TagsOf;
    ScopeIsExact(choice, context, s, tags, forall c | c in changes :: r.inventory[c.path] == [DocsTag]);
  }

  lemma ScopeIsExact(choice: Choice, context: Context, s: Selector, tags: set<Tag>, docs: bool)
    requires SoundSelector(s) && choice.mode == Ordinary && choice.scope == ScopeOf(tags, docs, s)
    ensures var p := PolicyOf(choice, context, s);
      && (forall k :: k in p.linuxPacks <==>
            k == MainPack || k == StaticPack || exists t :: t in tags && t in {Features, Floor, Package, Tor} && PackOf(t) == k)
      && (p.macos <==> MacosTag in tags)
      && (p.windows <==> exists t :: t in tags && (t == WheelTag || FamilyOf(t) < 4))
      && (WheelPack in p.windowsPacks <==> WheelTag in tags)
      && (forall x :: x in p.windowsModules <==> exists t :: t in tags && FamilyOf(t) < 4 && x in s.families[FamilyOf(t)])
  {
    var p := PolicyOf(choice, context, s);
    assert p.linuxPacks == [MainPack, StaticPack] + LinuxPacks(tags) && p.windowsModules == FamilyModules(s, FamiliesOf(tags));
    assert p.macos == (MacosTag in tags) && p.windows == (FamiliesOf(tags) != [] || WheelTag in tags);
    assert WheelPack in p.windowsPacks <==> WheelTag in tags;
    hide PolicyOf, ScopeOf, FamilyModules, LinuxPacks;
    LinuxIsExact(tags, p.linuxPacks);
    FamiliesAre(tags);
    ModulesAreExact(s, tags);
  }

  lemma LinuxIsExact(tags: set<Tag>, packs: seq<Pack>)
    requires packs == [MainPack, StaticPack] + LinuxPacks(tags)
    ensures forall k :: k in packs <==>
      k == MainPack || k == StaticPack || exists t :: t in tags && t in {Features, Floor, Package, Tor} && PackOf(t) == k
  {
    hide PackOf;
    forall k ensures k in packs <==>
      k == MainPack || k == StaticPack || exists t :: t in tags && t in {Features, Floor, Package, Tor} && PackOf(t) == k
    {
      PacksAre(tags, k);
      assert k in LinuxPacks(tags) <==> k in PacksOf(tags);
      hide LinuxPacks, PacksOf;
    }
  }

  lemma PacksAre(tags: set<Tag>, k: Pack)
    ensures k in PacksOf(tags) <==> exists t :: t in tags && t in {Features, Floor, Package, Tor} && PackOf(t) == k
    ensures k in PacksOf(tags) ==> k in LINUX_PACKS
  {
    assert PackOf(Features) == FeaturesPack && PackOf(Floor) == FloorPack && PackOf(Package) == PackagePack && PackOf(Tor) == TorPack;
    assert LINUX_PACKS[0] == FeaturesPack && LINUX_PACKS[1] == FloorPack && LINUX_PACKS[2] == PackagePack && LINUX_PACKS[3] == TorPack;
  }

  lemma FamiliesAre(tags: set<Tag>)
    ensures FamiliesOf(tags) != [] <==> exists t :: t in tags && FamilyOf(t) < 4
    ensures forall i | i in FamiliesOf(tags) :: i < 4 && exists t :: t in tags && FamilyOf(t) == i
    ensures forall t | t in tags && FamilyOf(t) < 4 :: FamilyOf(t) in FamiliesOf(tags)
  {
    assert FamilyOf(Network) == 0 && FamilyOf(Llm) == 1 && FamilyOf(Privacy) == 2 && FamilyOf(Extension) == 3;
  }

  lemma ModulesAreExact(s: Selector, tags: set<Tag>)
    requires SoundSelector(s)
    ensures forall x :: x in FamilyModules(s, FamiliesOf(tags)) <==>
      exists t :: t in tags && FamilyOf(t) < 4 && x in s.families[FamilyOf(t)]
  {
    FamiliesAre(tags);
    var chosen := FamiliesOf(tags);
    hide FamiliesOf, FamilyOf;
    forall x ensures x in FamilyModules(s, chosen) <==> exists t :: t in tags && FamilyOf(t) < 4 && x in s.families[FamilyOf(t)] {
      UnionIs(s.families, chosen, x);
      if x in Union(s.families, chosen) {
        var i :| i in chosen && i < |s.families| && x in s.families[i];
        var t :| t in tags && FamilyOf(t) == i;
        assert x in s.families[FamilyOf(t)];
      }
    }
  }

  /** Draft feedback runs the base packs, on each platform a changed file is tagged with,
      and on all of them if the changes were not reviewed in full. */
  lemma DraftRunsBase(event: Event, context: Context, provenance: bool, r: Review, s: Selector)
    requires BuildPolicy(event, context, provenance, r, s).mode == Critical
    ensures ChangesOf(event).Some?
    ensures var p, tags := BuildPolicy(event, context, provenance, r, s), TagsOf(ChangesOf(event).value, r);
      && p.linuxPacks == [MainPack, StaticPack] && p.windowsModules == []
      && (p.macos <==> !AllReviewed(event, r) || MacosTag in tags)
      && (p.windows <==> !AllReviewed(event, r) || exists t :: t in tags && (t == WheelTag || FamilyOf(t) < 4))
      && (p.macos ==> p.macosPacks == [MainPack]) && (p.windows ==> p.windowsPacks == [MainPack])
  {
    ModeIffReviewed(event, context, provenance, r, s);
    var changes := ChangesOf(event).value;
    var p, scope, tags := BuildPolicy(event, context, provenance, r, s), Classify(changes, r, s), TagsOf(changes, r);
    assert p.macos == scope.macos && p.windows == (scope.final || scope.families != [] || scope.windowsPacks != []);
    ClassifyScope(changes, r, s);
    FamiliesAre(tags);
    hide Classify, ChoiceOf, TagsOf, FamiliesOf;
  }

  lemma ClassifyScope(changes: seq<Change>, r: Review, s: Selector)
    ensures var c, tags := Classify(changes, r, s), TagsOf(changes, r);
      if ValidChanges(changes) && forall c | c in changes :: Reviewed(c, r)
      then !c.final && c.macos == (MacosTag in tags) && c.families == FamiliesOf(tags) && (c.windowsPacks != [] <==> WheelTag in tags)
      else c.final && c.macos
  {
  }

  /** What a tag asks for is in the policy. */
  predicate Covers(p: Policy, s: Selector, t: Tag) {
    && (t == Features || t == Floor || t == Package || t == Tor ==> PackOf(t) in p.linuxPacks)
    && (t == WheelTag ==> p.windows && WheelPack in p.windowsPacks)
    && (t == MacosTag ==> p.macos && MainPack in p.macosPacks)
    && (FamilyOf(t) < |s.families| ==> p.windows && forall x | x in s.families[FamilyOf(t)] :: x in p.windowsModules)
  }

  lemma FamilyCovers(p: Policy, s: Selector, chosen: seq<nat>, t: Tag)
    requires SoundSelector(s) && FamilyOf(t) < 4 && FamilyOf(t) in chosen
    requires p.windowsModules == FamilyModules(s, chosen) && p.windows
    ensures Covers(p, s, t)
  {
    forall x | x in s.families[FamilyOf(t)] ensures x in p.windowsModules { UnionIs(s.families, chosen, x); }
    hide Kept, Union;
  }

  lemma ScopeCovers(choice: Choice, context: Context, s: Selector, tags: set<Tag>, docs: bool, t: Tag)
    requires SoundSelector(s) && choice.mode == Ordinary && choice.scope == ScopeOf(tags, docs, s) && t in tags
    ensures Covers(PolicyOf(choice, context, s), s, t)
  {
    var p := PolicyOf(choice, context, s);
    if FamilyOf(t) < 4 {
      var chosen := FamiliesOf(tags);
      assert FamilyOf(t) in chosen;
      hide FamilyModules, FamiliesOf, LinuxPacks, SoundSelector;
      assert p.windowsModules == FamilyModules(s, chosen) && p.windows;
      hide PolicyOf, ScopeOf;
      FamilyCovers(p, s, chosen, t);
    } else if t == WheelTag || t == MacosTag || t == DocsTag {
      hide FamilyModules;
    } else {
      assert p.linuxPacks == [MainPack, StaticPack] + LinuxPacks(tags);
      hide PolicyOf, ScopeOf;
      LinuxMembers(tags, p.linuxPacks);
    }
  }

  /** The Linux pack of a tag. */
  function PackOf(t: Tag): Pack {
    match t
    case Features => FeaturesPack
    case Floor => FloorPack
    case Package => PackagePack
    case Tor => TorPack
    case _ => MainPack
  }

  /** The number of a family's tag; 4 for others. */
  function FamilyOf(t: Tag): nat {
    match t case Network => 0 case Llm => 1 case Privacy => 2 case Extension => 3 case _ => 4
  }
}
