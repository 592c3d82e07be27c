/** The paths the checked VFS accepts, and what it means that a root contains one. */
module CheckedPath {
  import opened Options

  /** A UTF-16 code unit. Case folding is a map of units. */
  type Wide = x: int | 0 <= x < 0x10000
  type Fold = Wide -> Wide

  const CI_PATH := 240
  const BACKSLASH: Wide := 92
  const SLASH: Wide := 47
  const COLON: Wide := 58
  const DOT: Wide := 46
  const SPACE: Wide := 32

  /** : < > " | ? * % */
  const FORBIDDEN: set<Wide> := {58, 60, 62, 34, 124, 63, 42, 37}

  const CON: seq<Wide> := [67, 79, 78]
  const PRN: seq<Wide> := [80, 82, 78]
  const AUX: seq<Wide> := [65, 85, 88]
  const NUL: seq<Wide> := [78, 85, 76]
  const CONIN: seq<Wide> := [67, 79, 78, 73, 78, 36]
  const CONOUT: seq<Wide> := [67, 79, 78, 79, 85, 84, 36]
  const COM: seq<Wide> := [67, 79, 77]
  const LPT: seq<Wide> := [76, 80, 84]

  /** The text of a C string: no unit is 0. */
  predicate IsText(s: seq<Wide>) {
    0 !in s
  }

  function Folded(fold: Fold, s: seq<Wide>): (r: seq<Wide>)
    ensures |r| == |s| && forall i | 0 <= i < |s| :: r[i] == fold(s[i])
  {
    seq(|s|, i requires 0 <= i < |s| => fold(s[i]))
  }

  predicate Equal(fold: Fold, a: seq<Wide>, b: seq<Wide>) {
    Folded(fold, a) == Folded(fold, b)
  }

  // ------------------------------------------------------------------ leaves

  /** The name before the first dot. */
  function Base(s: seq<Wide>): seq<Wide> {
    if s == [] || s[0] == DOT then [] else [s[0]] + Base(s[1..])
  }

  predicate Numbered(c: Wide) {
    49 <= c <= 57 || c == 0xB9 || c == 0xB2 || c == 0xB3
  }

  predicate Device(fold: Fold, name: seq<Wide>) {
    Equal(fold, name, CON) || Equal(fold, name, PRN) || Equal(fold, name, AUX) || Equal(fold, name, NUL)
    || Equal(fold, name, CONIN) || Equal(fold, name, CONOUT)
    || (|name| == 4 && (Equal(fold, name[..3], COM) || Equal(fold, name[..3], LPT)) && Numbered(name[3]))
  }

  predicate Plain(c: Wide) {
    c >= 32 && c !in FORBIDDEN
  }

  /** One name of a path. */
  predicate Leaf(fold: Fold, s: seq<Wide>) {
    0 < |s| < CI_PATH && s[|s|-1] != DOT && s[|s|-1] != SPACE
    && (forall i | 0 <= i < |s| :: Plain(s[i]))
    && !Device(fold, Base(s))
  }

  /** No name is empty, `.` or `..`, and none holds a colon. */
  lemma LeafIsAName(fold: Fold, s: seq<Wide>)
    requires Leaf(fold, s)
    ensures s != [] && s != [DOT] && s != [DOT, DOT] && COLON !in s && 0 !in s
  {
  }

  /** The name alone, or followed by a dot. */
  predicate Stem(fold: Fold, s: seq<Wide>, name: seq<Wide>) {
    |name| <= |s| && Equal(fold, s[..|name|], name) && (|s| == |name| || s[|name|] == DOT)
  }

  /** The folding makes no dot of anything else. */
  ghost predicate KeepsDots(fold: Fold) {
    forall c :: fold(c) == fold(DOT) ==> c == DOT
  }

  lemma {:induction false} BaseLength(s: seq<Wide>)
    ensures var n := |Base(s)|; n <= |s| && Base(s) == s[..n] && DOT !in s[..n] && (n < |s| ==> s[n] == DOT)
    decreases |s|
  {
    if s != [] && s[0] != DOT {
      BaseLength(s[1..]);
      var n := |Base(s[1..])|;
      assert s[..n + 1] == [s[0]] + s[1..][..n];
    }
  }

  lemma StemIsBase(fold: Fold, s: seq<Wide>, name: seq<Wide>)
    requires KeepsDots(fold) && DOT !in name
    ensures Stem(fold, s, name) <==> Equal(fold, Base(s), name)
  {
    BaseLength(s);
    var n, b := |name|, |Base(s)|;
    hide Base;
    assert n < b ==> s[..b][n] == s[n];
    if Stem(fold, s, name) {
      forall k | 0 <= k < n ensures s[k] != DOT {
        assert Folded(fold, s[..n])[k] == Folded(fold, name)[k];
        assert name[k] in name;
      }
    }
  }

  /** A name is refused if it is empty or too long, ends in a dot or a space, holds a
      control or one of eight characters, or is a device, alone or before a dot, in
      whatever case; and only then. */
  lemma LeafIff(fold: Fold, s: seq<Wide>)
    requires KeepsDots(fold)
    ensures Leaf(fold, s) <==>
      && 1 <= |s| <= 239 && s[|s|-1] != 46 && s[|s|-1] != 32
      && (forall c | c in s :: c >= 32 && c != 58 && c != 60 && c != 62 && c != 34 && c != 124 && c != 63 && c != 42 && c != 37)
      && (forall name | name in [CON, PRN, AUX, NUL, CONIN, CONOUT] :: !Stem(fold, s, name))
      && !(|s| >= 4 && (|s| == 4 || s[4] == DOT) && DOT !in s[..4] && Numbered(s[3])
           && (Equal(fold, s[..3], COM) || Equal(fold, s[..3], LPT)))
  {
    StemIsBase(fold, s, CON);
    StemIsBase(fold, s, PRN);
    StemIsBase(fold, s, AUX);
    StemIsBase(fold, s, NUL);
    StemIsBase(fold, s, CONIN);
    StemIsBase(fold, s, CONOUT);
    BaseLength(s);
    hide Stem, Base, Equal;
    DevicesAre(fold, s);
    FourUnits(s);
    if forall c | c in s :: Plain(c) { assert forall i | 0 <= i < |s| :: s[i] in s; }
  }

  lemma DevicesAre(fold: Fold, s: seq<Wide>)
    ensures (forall name | name in [CON, PRN, AUX, NUL, CONIN, CONOUT] :: !Stem(fold, s, name)) <==>
      !Stem(fold, s, CON) && !Stem(fold, s, PRN) && !Stem(fold, s, AUX) && !Stem(fold, s, NUL)
      && !Stem(fold, s, CONIN) && !Stem(fold, s, CONOUT)
  {
    hide Stem;
    var all := [CON, PRN, AUX, NUL, CONIN, CONOUT];
    assert all[0] in all && all[1] in all && all[2] in all && all[3] in all && all[4] in all && all[5] in all;
  }

  lemma FourUnits(s: seq<Wide>)
    ensures |Base(s)| == 4 <==> |s| >= 4 && (|s| == 4 || s[4] == DOT) && DOT !in s[..4]
    ensures |Base(s)| == 4 ==> Base(s)[..3] == s[..3] && Base(s)[3] == s[3]
  {
    BaseLength(s);
    var b := |Base(s)|;
    hide Base;
    if b == 4 { assert s[..4][..3] == s[..3]; }
    assert b < 4 <= |s| ==> s[b] in s[..4];
    assert b > 4 ==> s[4] in s[..b];
  }

  // ------------------------------------------------------------------- parts

  /** Where the name that starts at `start` ends. */
  function End(path: seq<Wide>, start: nat): (end: nat)
    requires start <= |path|
    ensures start <= end <= |path| && (end < |path| ==> path[end] == BACKSLASH)
    ensures forall i | start <= i < end :: path[i] != BACKSLASH
    decreases |path| - start
  {
    if start == |path| || path[start] == BACKSLASH then start else End(path, start + 1)
  }

  // Parts of texts and lists of names, named so that proofs can keep them closed.

  function Tail(s: seq<Wide>, start: nat): seq<Wide>
    requires start <= |s|
  {
    s[start..]
  }

  function Piece(s: seq<Wide>, start: nat, end: nat): seq<Wide>
    requires start <= end <= |s|
  {
    s[start..end]
  }

  function Glue(a: seq<Wide>, b: seq<Wide>): seq<Wide> {
    a + [BACKSLASH] + b
  }

  function Cons(x: seq<Wide>, rest: seq<seq<Wide>>): (r: seq<seq<Wide>>)
    ensures r != [] && |r| == |rest| + 1
  {
    [x] + rest
  }

  function Cat(a: seq<seq<Wide>>, b: seq<seq<Wide>>): seq<seq<Wide>> {
    a + b
  }

  /** The names from `start` on. */
  function Parts(path: seq<Wide>, start: nat): (parts: seq<seq<Wide>>)
    requires start <= |path|
    ensures parts != []
    decreases |path| - start
  {
    var end := End(path, start);
    Cons(Piece(path, start, end), if end == |path| then [] else Parts(path, end + 1))
  }

  function Join(parts: seq<seq<Wide>>): seq<Wide>
    requires parts != []
  {
    if |parts| == 1 then parts[0] else Glue(parts[0], Join(parts[1..]))
  }

  predicate Bare(part: seq<Wide>) {
    BACKSLASH !in part
  }

  lemma JoinCons(x: seq<Wide>, rest: seq<seq<Wide>>)
    ensures Join(Cons(x, [])) == x
    ensures rest != [] ==> Join(Cons(x, rest)) == Glue(x, Join(rest))
  {
    hide Glue;
    assert Cons(x, rest)[1..] == rest;
  }

  lemma InCons(x: seq<Wide>, rest: seq<seq<Wide>>, y: seq<Wide>)
    ensures y in Cons(x, rest) <==> y == x || y in rest
  {
  }

  lemma Uncons(parts: seq<seq<Wide>>)
    requires parts != []
    ensures parts == Cons(parts[0], parts[1..])
  {
  }

  lemma TailCut(path: seq<Wide>, start: nat, end: nat)
    requires start <= end < |path| && path[end] == BACKSLASH
    ensures Tail(path, start) == Glue(Piece(path, start, end), Tail(path, end + 1))
  {
  }

  lemma LastPiece(path: seq<Wide>, start: nat)
    requires start <= |path|
    ensures Piece(path, start, |path|) == Tail(path, start)
  {
  }

  lemma CatCons(x: seq<Wide>, a: seq<seq<Wide>>, b: seq<seq<Wide>>)
    ensures Cat(Cons(x, a), b) == Cons(x, Cat(a, b)) && Cat([], b) == b
  {
  }

  lemma PartsIs(path: seq<Wide>, start: nat)
    requires start <= |path|
    ensures var end := End(path, start);
      Parts(path, start) == Cons(Piece(path, start, end), if end == |path| then [] else Parts(path, end + 1))
  {
    hide Cons, Piece;
  }

  /** Splitting and joining undo each other. */
  lemma {:induction false} JoinTail(path: seq<Wide>, start: nat)
    requires start <= |path|
    ensures Join(Parts(path, start)) == Tail(path, start)
    decreases |path| - start
  {
    hide Parts, Join, End, Tail, Piece, Glue, Cons;
    PartsIs(path, start);
    var end := End(path, start);
    if end < |path| {
      JoinTail(path, end + 1);
      JoinCons(Piece(path, start, end), Parts(path, end + 1));
      TailCut(path, start, end);
    } else {
      JoinCons(Piece(path, start, end), []);
      LastPiece(path, start);
    }
  }

  lemma JoinParts(path: seq<Wide>, start: nat)
    requires start <= |path|
    ensures Join(Parts(path, start)) == path[start..]
  {
    hide Parts, Join;
    JoinTail(path, start);
  }

  lemma {:induction false} EndIs(path: seq<Wide>, start: nat, end: nat)
    requires start <= end <= |path| && (end < |path| ==> path[end] == BACKSLASH)
    requires forall i | start <= i < end :: path[i] != BACKSLASH
    ensures End(path, start) == end
    decreases end - start
  {
    if start < end { EndIs(path, start + 1, end); }
  }

  /** A bare name and a backslash in front of the rest. */
  lemma GlueEnds(path: seq<Wide>, start: nat, x: seq<Wide>, rest: seq<Wide>)
    requires start <= |path| && Tail(path, start) == Glue(x, rest) && Bare(x)
    ensures var end := start + |x|;
      end < |path| && End(path, start) == end && Piece(path, start, end) == x && Tail(path, end + 1) == rest
  {
    var t, end := path[start..], start + |x|;
    assert |t| == |x| + 1 + |rest| && t[|x|] == path[end] == BACKSLASH;
    assert forall i | start <= i < end :: path[i] == t[i - start] && t[i - start] == x[i - start] && x[i - start] in x;
    EndIs(path, start, end);
    assert t[..|x|] == x && t[|x| + 1..] == rest;
    assert path[start..end] == t[..|x|] && path[end + 1..] == t[|x| + 1..];
  }

  lemma BareEnds(path: seq<Wide>, start: nat, x: seq<Wide>)
    requires start <= |path| && Tail(path, start) == x && Bare(x)
    ensures End(path, start) == |path| && Piece(path, start, |path|) == x
  {
    assert forall i | start <= i < |path| :: path[i] == x[i - start] && x[i - start] in x;
    EndIs(path, start, |path|);
  }

  lemma {:induction false} PartsOfJoin(path: seq<Wide>, start: nat, parts: seq<seq<Wide>>)
    requires parts != [] && forall k | 0 <= k < |parts| :: Bare(parts[k])
    requires start <= |path| && Tail(path, start) == Join(parts)
    ensures Parts(path, start) == parts
    decreases |parts|
  {
    hide Parts, Join, End, Tail, Piece, Glue, Cons, Bare;
    var x, rest := parts[0], parts[1..];
    PartsIs(path, start);
    Uncons(parts);
    JoinCons(x, rest);
    if rest == [] {
      BareEnds(path, start, x);
    } else {
      GlueEnds(path, start, x, Join(rest));
      PartsOfJoin(path, start + |x| + 1, rest);
    }
  }

  lemma PieceOfTake(path: seq<Wide>, start: nat, end: nat, n: nat)
    requires start <= end <= n <= |path|
    ensures Piece(path[..n], start, end) == Piece(path, start, end)
  {
  }

  lemma EndOfTake(path: seq<Wide>, start: nat, n: nat)
    requires start <= n < |path| && path[n] == BACKSLASH
    ensures End(path, start) <= n && End(path[..n], start) == End(path, start)
  {
    var end := End(path, start);
    EndIs(path[..n], start, end);
  }

  /** A backslash at `n` cuts the names in two. */
  lemma {:induction false} PartsCut(path: seq<Wide>, start: nat, n: nat)
    requires start <= n < |path| && path[n] == BACKSLASH
    ensures Parts(path, start) == Cat(Parts(path[..n], start), Parts(path, n + 1))
    decreases n - start
  {
    hide Parts, End, Piece, Cons, Cat;
    var end, left := End(path, start), path[..n];
    EndOfTake(path, start, n);
    PartsIs(path, start);
    PartsIs(left, start);
    PieceOfTake(path, start, end, n);
    CatCons(Piece(path, start, end), if end == n then [] else Parts(left, end + 1), Parts(path, n + 1));
    if end < n { PartsCut(path, end + 1, n); }
  }

  lemma {:induction false} JoinCat(a: seq<seq<Wide>>, b: seq<seq<Wide>>)
    requires a != [] && b != []
    ensures Cat(a, b) != [] && Join(Cat(a, b)) == Glue(Join(a), Join(b))
    decreases |a|
  {
    hide Join, Glue, Cons;
    assert Cat(a, b) != [];
    hide Cat;
    var x, rest := a[0], a[1..];
    Uncons(a);
    CatCons(x, rest, b);
    JoinCons(x, rest);
    if rest == [] {
      JoinCons(x, b);
    } else {
      JoinCat(rest, b);
      JoinCons(x, Cat(rest, b));
      GlueGlue(x, Join(rest), Join(b));
    }
  }

  lemma GlueGlue(a: seq<Wide>, b: seq<Wide>, c: seq<Wide>)
    ensures Glue(Glue(a, b), c) == Glue(a, Glue(b, c))
  {
  }

  lemma JoinAppend(a: seq<seq<Wide>>, b: seq<seq<Wide>>)
    requires a != [] && b != []
    ensures Join(a + b) == Join(a) + [BACKSLASH] + Join(b)
  {
    hide Join;
    JoinCat(a, b);
  }

  // --------------------------------------------------------- accepted paths

  function Unslashed(c: Wide): Wide {
    if c == SLASH then BACKSLASH else c
  }

  function Normal(s: seq<Wide>): (r: seq<Wide>)
    ensures |r| == |s| && forall i | 0 <= i < |s| :: r[i] == Unslashed(s[i])
  {
    seq(|s|, i requires 0 <= i < |s| => Unslashed(s[i]))
  }

  predicate Drive(c: Wide) {
    65 <= c <= 90 || 97 <= c <= 122
  }

  predicate AllLeaves(fold: Fold, path: seq<Wide>, start: nat)
    requires start <= |path|
    decreases |path| - start
  {
    var end := End(path, start);
    Leaf(fold, Piece(path, start, end)) && (end == |path| || AllLeaves(fold, path, end + 1))
  }

  predicate Rooted(s: seq<Wide>) {
    4 <= |s| < CI_PATH && Drive(s[0]) && s[1] == COLON && (s[2] == BACKSLASH || s[2] == SLASH)
  }

  predicate Accepted(fold: Fold, s: seq<Wide>) {
    Rooted(s) && AllLeaves(fold, Normal(s), 3)
  }

  /** What ci_path stores: an accepted path in its own spelling. */
  predicate Canonical(fold: Fold, p: seq<Wide>) {
    Accepted(fold, p) && Normal(p) == p
  }

  lemma {:induction false} AllLeavesIsEach(fold: Fold, path: seq<Wide>, start: nat)
    requires start <= |path|
    ensures AllLeaves(fold, path, start) <==> forall part | part in Parts(path, start) :: Leaf(fold, part)
    decreases |path| - start
  {
    hide Leaf, Parts, End, Cons, Piece;
    var end := End(path, start);
    PartsIs(path, start);
    var rest := if end == |path| then [] else Parts(path, end + 1);
    forall part ensures part in Parts(path, start) <==> part == Piece(path, start, end) || part in rest {
      InCons(Piece(path, start, end), rest, part);
    }
    if end < |path| { AllLeavesIsEach(fold, path, end + 1); }
  }

  lemma NormalTwice(s: seq<Wide>)
    ensures Normal(Normal(s)) == Normal(s) && SLASH !in Normal(s)
  {
  }

  function Built(drive: Wide, parts: seq<seq<Wide>>): seq<Wide>
    requires parts != []
  {
    [drive, COLON, BACKSLASH] + Join(parts)
  }

  /** What is accepted comes out in its canonical spelling, which is accepted and
      comes out unchanged; it is a drive and names, all of them leaves. */
  lemma AcceptedIsCanonical(fold: Fold, s: seq<Wide>)
    requires Accepted(fold, s)
    ensures var p := Normal(s);
      && Canonical(fold, p) && Drive(p[0]) && p == Built(p[0], Parts(p, 3))
      && forall part | part in Parts(p, 3) :: Leaf(fold, part) && part != [] && part != [DOT] && part != [DOT, DOT]
  {
    hide AllLeaves, Leaf, Parts, Built;
    var p := Normal(s);
    NormalTwice(s);
    AllLeavesIsEach(fold, p, 3);
    forall part | part in Parts(p, 3) ensures part != [] && part != [DOT] && part != [DOT, DOT] { LeafIsAName(fold, part); }
    IsBuilt(p);
    hide Normal;
  }

  lemma IsBuilt(p: seq<Wide>)
    requires Rooted(p) && p[2] == BACKSLASH
    ensures p == Built(p[0], Parts(p, 3))
  {
    hide Parts, Join;
    JoinParts(p, 3);
    var names := Parts(p, 3);
    hide Drive;
    assert p[..3] == [p[0], COLON, BACKSLASH];
    assert p == p[..3] + p[3..];
  }

  /** And every drive with names that are leaves, without slashes of either kind,
      and short enough, is a canonical path of just these names. */
  lemma BuiltIsCanonical(fold: Fold, drive: Wide, parts: seq<seq<Wide>>)
    requires Drive(drive) && parts != [] && |Built(drive, parts)| < CI_PATH
    requires forall part | part in parts :: Leaf(fold, part) && BACKSLASH !in part && SLASH !in part
    ensures Canonical(fold, Built(drive, parts)) && Parts(Built(drive, parts), 3) == parts
  {
    hide AllLeaves, Parts, Join;
    var p := Built(drive, parts);
    forall k | 0 <= k < |parts| ensures Bare(parts[k]) { assert parts[k] in parts; }
    assert parts[0] in parts && parts[0] != [];
    hide Leaf;
    JoinIsLong(parts);
    NoSlashJoin(parts);
    BuiltTail(drive, parts);
    assert SLASH !in p by { BuiltSlash(drive, parts); }
    NormalOf(p);
    hide Built, Bare;
    PartsOfJoin(p, 3, parts);
    AllLeavesIsEach(fold, p, 3);
  }

  lemma BuiltTail(drive: Wide, parts: seq<seq<Wide>>)
    requires parts != []
    ensures Tail(Built(drive, parts), 3) == Join(parts)
  {
    hide Join;
  }

  lemma BuiltSlash(drive: Wide, parts: seq<seq<Wide>>)
    requires Drive(drive) && parts != [] && SLASH !in Join(parts)
    ensures SLASH !in Built(drive, parts)
  {
    hide Join;
  }

  lemma NormalOf(s: seq<Wide>)
    requires SLASH !in s
    ensures Normal(s) == s
  {
  }

  lemma JoinIsLong(parts: seq<seq<Wide>>)
    requires parts != [] && parts[0] != []
    ensures |Join(parts)| >= 1
  {
  }

  lemma {:induction false} NoSlashJoin(parts: seq<seq<Wide>>)
    requires parts != [] && forall part | part in parts :: SLASH !in part
    ensures SLASH !in Join(parts)
    decreases |parts|
  {
    assert parts[0] in parts;
    if |parts| > 1 {
      assert forall part | part in parts[1..] :: part in parts;
      NoSlashJoin(parts[1..]);
    }
  }

  // -------------------------------------------------------------- containment

  /** ci_contains. */
  predicate Contains(fold: Fold, root: seq<Wide>, path: seq<Wide>) {
    |path| > |root| && path[|root|] == BACKSLASH && Equal(fold, root, path[..|root|])
  }

  /** Case folding leaves the backslash alone and makes no other. */
  ghost predicate Separates(fold: Fold) {
    forall c: Wide :: fold(c) == BACKSLASH <==> c == BACKSLASH
  }

  lemma {:induction false} FoldEnd(fold: Fold, s: seq<Wide>, start: nat)
    requires Separates(fold) && start <= |s|
    ensures End(Folded(fold, s), start) == End(s, start)
    decreases |s| - start
  {
    if start < |s| && s[start] != BACKSLASH { FoldEnd(fold, s, start + 1); }
  }

  /** The names of `f` are those of `p`, folded. */
  predicate FoldsTo(fold: Fold, p: seq<seq<Wide>>, f: seq<seq<Wide>>) {
    |f| == |p| && forall k | 0 <= k < |p| :: f[k] == Folded(fold, p[k])
  }

  lemma FoldsCons(fold: Fold, x: seq<Wide>, y: seq<Wide>, p: seq<seq<Wide>>, f: seq<seq<Wide>>)
    requires y == Folded(fold, x) && FoldsTo(fold, p, f)
    ensures FoldsTo(fold, Cons(x, p), Cons(y, f))
  {
    hide Folded;
  }

  lemma FoldPiece(fold: Fold, s: seq<Wide>, start: nat, end: nat)
    requires start <= end <= |s|
    ensures Piece(Folded(fold, s), start, end) == Folded(fold, Piece(s, start, end))
  {
  }

  lemma NothingFolds(fold: Fold)
    ensures FoldsTo(fold, [], [])
  {
  }

  /** Folding a path folds its names. */
  lemma {:induction false} FoldNames(fold: Fold, s: seq<Wide>, start: nat)
    requires Separates(fold) && start <= |s|
    ensures FoldsTo(fold, Parts(s, start), Parts(Folded(fold, s), start))
    decreases |s| - start
  {
    hide Parts, End, Piece, Cons, FoldsTo, Separates;
    var f, end := Folded(fold, s), End(s, start);
    hide Folded;
    FoldEnd(fold, s, start);
    PartsIs(s, start);
    PartsIs(f, start);
    FoldPiece(fold, s, start, end);
    var x, y := Piece(s, start, end), Piece(f, start, end);
    if end < |s| {
      FoldNames(fold, s, end + 1);
      FoldsCons(fold, x, y, Parts(s, end + 1), Parts(f, end + 1));
    } else {
      NothingFolds(fold);
      FoldsCons(fold, x, y, [], []);
    }
  }

  lemma FoldParts(fold: Fold, s: seq<Wide>, start: nat)
    requires Separates(fold) && start <= |s|
    ensures var f, p := Parts(Folded(fold, s), start), Parts(s, start);
      |f| == |p| && forall k | 0 <= k < |p| :: f[k] == Folded(fold, p[k])
  {
    hide Parts, Folded, Separates;
    FoldNames(fold, s, start);
  }

  /** The names of `r` are, but for case, the first names of `p`, and `p` has more. */
  predicate Descends(fold: Fold, r: seq<seq<Wide>>, p: seq<seq<Wide>>) {
    |r| < |p| && forall k | 0 <= k < |r| :: Equal(fold, r[k], p[k])
  }

  /** Of canonical paths, containment is proper descent name by name on one drive. */
  lemma ContainsIsDescent(fold: Fold, root: seq<Wide>, path: seq<Wide>)
    requires Separates(fold) && Canonical(fold, root) && Canonical(fold, path)
    ensures Contains(fold, root, path) <==>
      fold(root[0]) == fold(path[0]) && Descends(fold, Parts(root, 3), Parts(path, 3))
  {
    hide AllLeaves, Parts;
    if Contains(fold, root, path) {
      ContainsDescends(fold, root, path);
    } else if fold(root[0]) == fold(path[0]) && Descends(fold, Parts(root, 3), Parts(path, 3)) {
      DescendsContains(fold, root, path);
    }
  }

  lemma ContainsDescends(fold: Fold, root: seq<Wide>, path: seq<Wide>)
    requires Separates(fold) && Rooted(root) && Contains(fold, root, path)
    ensures fold(root[0]) == fold(path[0]) && Descends(fold, Parts(root, 3), Parts(path, 3))
  {
    var n, fr, fp := |root|, Folded(fold, root), Folded(fold, path);
    FoldParts(fold, root, 3);
    FoldParts(fold, path, 3);
    assert fp[..n] == fr by { assert fp[..n] == Folded(fold, path[..n]); }
    assert fp[n] == BACKSLASH;
    PartsCut(fp, 3, n);
    assert fr[0] == fp[0];
    hide Parts, Folded;
  }

  lemma DescendsContains(fold: Fold, root: seq<Wide>, path: seq<Wide>)
    requires Separates(fold) && Rooted(root) && Rooted(path) && root[2] == path[2] == BACKSLASH
    requires fold(root[0]) == fold(path[0]) && Descends(fold, Parts(root, 3), Parts(path, 3))
    ensures Contains(fold, root, path)
  {
    var n, fr, fp := |root|, Folded(fold, root), Folded(fold, path);
    FoldParts(fold, root, 3);
    FoldParts(fold, path, 3);
    hide Parts;
    var rest := LongerPath(fr, fp);
    PrefixFrom(fr, fp, rest);
    assert Folded(fold, path[..n]) == fp[..n];
  }

  lemma CatIs(a: seq<seq<Wide>>, b: seq<seq<Wide>>)
    ensures Cat(a, b) == a + b
  {
  }

  lemma GlueIs(a: seq<Wide>, b: seq<Wide>, rest: seq<Wide>)
    requires 3 <= |a| && 3 <= |b| && Tail(b, 3) == Glue(Tail(a, 3), rest)
    ensures b[3..] == a[3..] + [BACKSLASH] + rest
  {
  }

  lemma LongerPath(a: seq<Wide>, b: seq<Wide>) returns (rest: seq<Wide>)
    requires 3 <= |a| && 3 <= |b| && Parts(a, 3) < Parts(b, 3)
    ensures b[3..] == a[3..] + [BACKSLASH] + rest
  {
    hide Parts, Join, Glue, Tail, Cat;
    var x, y := Parts(a, 3), Parts(b, 3);
    var more := y[|x|..];
    JoinTail(a, 3);
    JoinTail(b, 3);
    assert y == Cat(x, more) by { CatIs(x, more); }
    JoinCat(x, more);
    rest := Join(more);
    GlueIs(a, b, rest);
  }

  lemma PrefixFrom(a: seq<Wide>, b: seq<Wide>, rest: seq<Wide>)
    requires 3 <= |a| && 3 <= |b| && a[0] == b[0] && a[1] == b[1] && a[2] == b[2]
    requires b[3..] == a[3..] + [BACKSLASH] + rest
    ensures |b| > |a| && b[..|a|] == a && b[|a|] == BACKSLASH
  {
    assert |b[3..]| == |a[3..]| + 1 + |rest|;
    forall i | 0 <= i < |a| ensures b[i] == a[i] {
      if i >= 3 { assert b[i] == b[3..][i - 3] && a[i] == a[3..][i - 3]; }
    }
    assert b[|a|] == b[3..][|a| - 3];
  }

  /** Two roots that contain one path are the same, or one contains the other. */
  lemma RootsOfOnePath(fold: Fold, a: seq<Wide>, b: seq<Wide>, path: seq<Wide>)
    requires Separates(fold) && Contains(fold, a, path) && Contains(fold, b, path)
    ensures Equal(fold, a, b) || Contains(fold, a, b) || Contains(fold, b, a)
  {
    if |a| == |b| {
    } else if |a| < |b| {
      NestedRoots(fold, a, b, path);
    } else {
      NestedRoots(fold, b, a, path);
    }
  }

  lemma NestedRoots(fold: Fold, a: seq<Wide>, b: seq<Wide>, path: seq<Wide>)
    requires Separates(fold) && Contains(fold, a, path) && Contains(fold, b, path) && |a| < |b|
    ensures Contains(fold, a, b)
  {
    var n := |a|;
    var fa, fb, fp := Folded(fold, a), Folded(fold, b), Folded(fold, path);
    assert Folded(fold, path[..n]) == fp[..n] && Folded(fold, path[..|b|]) == fp[..|b|];
    assert fb[n] == fp[..|b|][n] == fp[n] == BACKSLASH;
    assert Folded(fold, b[..n]) == fb[..n] == fp[..|b|][..n] == fp[..n];
  }

  // ------------------------------------------------------------- the scanners

  datatype Rc =
    | Ok | Busy | NoMem | Misuse | CantOpen | NotFound
    | IoErrDelete | IoErrDeleteNoEnt | IoErrClose | IoErrDirFsync | IoErrDirClose

  lemma SliceIs(buffer: array<Wide>, start: nat, n: nat, text: seq<Wide>)
    requires start + n <= buffer.Length && |text| == n && forall k | 0 <= k < n :: buffer[start + k] == text[k]
    ensures buffer[start..start + n] == text
  {
  }

  lemma PartOf(buffer: array<Wide>, text: seq<Wide>, start: nat, end: nat)
    requires Holds(buffer, text) && start <= end <= |text|
    ensures buffer[start..start + (end - start)] == text[start..end]
  {
    assert forall k | 0 <= k < |text| :: buffer[k] == buffer[..|text|][k];
    SliceIs(buffer, start, end - start, text[start..end]);
  }

  /** The text in a buffer, up to its terminator. */
  ghost predicate Holds(buffer: array<Wide>, text: seq<Wide>)
    reads buffer
  {
    |text| < buffer.Length && buffer[..|text|] == text && buffer[|text|] == 0
  }

  lemma {:induction false} BaseIs(s: seq<Wide>, n: nat)
    requires n <= |s| && (n < |s| ==> s[n] == DOT) && DOT !in s[..n]
    ensures Base(s) == s[..n]
    decreases n
  {
    if n > 0 {
      assert s[0] == s[..n][0];
      forall x | x in s[1..][..n - 1] ensures x in s[..n] { assert s[1..][..n - 1] == s[..n][1..]; }
      BaseIs(s[1..], n - 1);
      assert s[..n] == [s[0]] + s[1..][..n - 1];
    }
  }

  /** leaf */
  method CheckLeaf(fold: Fold, buffer: array<Wide>, start: nat, n: nat) returns (ok: bool)
    requires start + n <= buffer.Length
    ensures ok <==> Leaf(fold, buffer[start..start + n])
  {
    ghost var text := buffer[start..start + n];
    hide Device, Base;
    if n == 0 || n >= CI_PATH || buffer[start + n - 1] == DOT || buffer[start + n - 1] == SPACE { return false; }
    var i := 0;
    while i < n
      invariant i <= n && forall k | 0 <= k < i :: Plain(text[k])
    {
      if buffer[start + i] < 32 || buffer[start + i] in FORBIDDEN {
        assert !Plain(text[i]);
        return false;
      }
      i := i + 1;
    }
    var base := 0;
    while base < n && buffer[start + base] != DOT
      invariant base <= n && DOT !in text[..base]
    {
      assert text[..base + 1] == text[..base] + [text[base]];
      base := base + 1;
    }
    BaseIs(text, base);
    SliceIs(buffer, start, base, text[..base]);
    return !Device(fold, buffer[start..start + base]);
  }

  /** ci_path: the path is accepted exactly when it is a drive and leaves, and the
      buffer then holds its canonical spelling. */
  method CiPath(fold: Fold, input: Option<seq<Wide>>, output: array<Wide>) returns (rc: Rc)
    requires output.Length == CI_PATH && (input.Some? ==> IsText(input.value))
    modifies output
    ensures rc == Ok <==> input.Some? && Accepted(fold, input.value)
    ensures rc == Ok ==> Holds(output, Normal(input.value))
  {
    hide AllLeaves, Leaf;
    if input.None? { return CantOpen; }
    var text := input.value;
    var n := if |text| < CI_PATH then |text| else CI_PATH;
    if n < 4 || n >= CI_PATH || !Drive(text[0]) || text[1] != COLON || (text[2] != BACKSLASH && text[2] != SLASH) {
      return CantOpen;
    }
    ghost var path := Normal(text);
    Spell(text, output);
    rc := CheckNames(fold, output, n, path);
  }

  method Spell(text: seq<Wide>, output: array<Wide>)
    requires |text| < output.Length
    modifies output
    ensures Holds(output, Normal(text))
  {
    var i := 0;
    while i <= |text|
      invariant i <= |text| + 1
      invariant forall k | 0 <= k < i && k < |text| :: output[k] == Unslashed(text[k])
      invariant i > |text| ==> output[|text|] == 0
    {
      output[i] := if i == |text| then 0 else if text[i] == SLASH then BACKSLASH else text[i];
      i := i + 1;
    }
  }

  lemma LeavesFrom(fold: Fold, path: seq<Wide>, start: nat, end: nat)
    requires start <= end <= |path| && (end < |path| ==> path[end] == BACKSLASH)
    requires forall k | start <= k < end :: path[k] != BACKSLASH
    ensures AllLeaves(fold, path, start) <==>
      Leaf(fold, path[start..end]) && (end == |path| || AllLeaves(fold, path, end + 1))
  {
    EndIs(path, start, end);
  }

  method CheckNames(fold: Fold, output: array<Wide>, n: nat, ghost path: seq<Wide>) returns (rc: Rc)
    requires 3 < n == |path| && Holds(output, path) && 0 !in path
    ensures rc == Ok <==> AllLeaves(fold, path, 3)
  {
    hide AllLeaves, Leaf;
    var start, i := 3, 3;
    while i <= n
      invariant 3 <= start <= i <= n + 1 && (i == n + 1 <==> start == n + 1)
      invariant start <= n ==> (AllLeaves(fold, path, 3) <==> AllLeaves(fold, path, start))
      invariant start == n + 1 ==> AllLeaves(fold, path, 3)
      invariant forall k | start <= k < i && k < n :: path[k] != BACKSLASH
    {
      assert i < n ==> output[i] == path[i] && path[i] in path;
      if output[i] == BACKSLASH || output[i] == 0 {
        LeavesFrom(fold, path, start, i);
        PartOf(output, path, start, i);
        var ok := CheckLeaf(fold, output, start, i - start);
        if !ok { return CantOpen; }
        start := i + 1;
      }
      i := i + 1;
    }
    return Ok;
  }

  /** ci_contains */
  method CiContains(fold: Fold, root: seq<Wide>, path: seq<Wide>) returns (inside: bool)
    ensures inside <==> Contains(fold, root, path)
  {
    var n := |root|;
    if |path| <= n || path[n] != BACKSLASH { return false; }
    var i := 0;
    while i < n
      invariant i <= n && forall k | 0 <= k < i :: fold(root[k]) == fold(path[k])
    {
      if fold(root[i]) != fold(path[i]) {
        assert Folded(fold, root)[i] != Folded(fold, path[..n])[i];
        return false;
      }
      i := i + 1;
    }
    return true;
  }
}
