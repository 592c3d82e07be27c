/** The two shard planners: the modules sorted by falling weight, each given to
    the least loaded shard, and every shard listed in selector order. */
module ShardPlan {
  import opened Sharding

  // ---------------------------------------------------------------- sorting

  /** Stable: what weighs the same keeps its order. */
  function Insert(s: seq<Module>, x: Module, w: Module -> real): (r: seq<Module>)
    ensures multiset(r) == multiset(s) + multiset{x}
  {
    if s == [] || w(s[|s|-1]) >= w(x) then
      assert multiset(s + [x]) == multiset(s) + multiset{x};
      s + [x]
    else
      assert s == s[..|s|-1] + [s[|s|-1]];
      Insert(s[..|s|-1], x, w) + [s[|s|-1]]
  }

  /** sorted(modules, key=-weight) */
  function Sorted(s: seq<Module>, w: Module -> real): (r: seq<Module>)
    ensures multiset(r) == multiset(s)
  {
    if s == [] then []
    else
      assert s == s[..|s|-1] + [s[|s|-1]];
      Insert(Sorted(s[..|s|-1], w), s[|s|-1], w)
  }

  lemma {:induction false} InsertFalls(s: seq<Module>, x: Module, w: Module -> real)
    requires Falling(s, w)
    ensures Falling(Insert(s, x, w), w)
    decreases |s|
  {
    if s != [] && w(s[|s|-1]) < w(x) {
      var t, y := s[..|s|-1], s[|s|-1];
      InsertFalls(t, x, w);
      var r := Insert(t, x, w);
      forall i | 0 <= i < |r| ensures w(r[i]) >= w(y) {
        assert r[i] in multiset(r);
        assert r[i] in t || r[i] == x;
        if r[i] in t { var j :| 0 <= j < |t| && t[j] == r[i]; assert t[j] == s[j]; }
      }
    }
  }

  lemma {:induction false} SortedFalls(s: seq<Module>, w: Module -> real)
    ensures Falling(Sorted(s, w), w)
    decreases |s|
  {
    if s != [] {
      SortedFalls(s[..|s|-1], w);
      InsertFalls(Sorted(s[..|s|-1], w), s[|s|-1], w);
    }
  }

  /** The modules of one weight, in order. */
  function OfWeight(s: seq<Module>, w: Module -> real, v: real): seq<Module> {
    if s == [] then []
    else OfWeight(s[..|s|-1], w, v) + if w(s[|s|-1]) == v then [s[|s|-1]] else []
  }

  lemma {:induction false} InsertIsStable(s: seq<Module>, x: Module, w: Module -> real, v: real)
    requires Falling(s, w)
    ensures OfWeight(Insert(s, x, w), w, v) == OfWeight(s + [x], w, v)
    decreases |s|
  {
    assert (s + [x])[..|s|] == s;
    if s != [] && w(s[|s|-1]) < w(x) {
      var t, y := s[..|s|-1], s[|s|-1];
      InsertIsStable(t, x, w, v);
      assert (t + [x])[..|t|] == t;
      assert (Insert(t, x, w) + [y])[..|t| + 1] == Insert(t, x, w) by { InsertLength(t, x, w); }
      InsertLength(t, x, w);
    }
  }

  lemma InsertLength(s: seq<Module>, x: Module, w: Module -> real)
    ensures |Insert(s, x, w)| == |s| + 1
  {
    assert |multiset(Insert(s, x, w))| == |multiset(s) + multiset{x}|;
  }

  /** Ties are broken by the original order. */
  lemma {:induction false} SortedIsStable(s: seq<Module>, w: Module -> real, v: real)
    ensures OfWeight(Sorted(s, w), w, v) == OfWeight(s, w, v)
    decreases |s|
  {
    if s != [] {
      var t, x := s[..|s|-1], s[|s|-1];
      SortedIsStable(t, w, v);
      SortedFalls(t, w);
      InsertIsStable(Sorted(t, w), x, w, v);
      assert (Sorted(t, w) + [x])[..|Sorted(t, w)|] == Sorted(t, w);
    }
  }

  lemma {:induction false} InsertLoad(s: seq<Module>, x: Module, w: Module -> real, f: Module -> int, k: int)
    ensures Load(Insert(s, x, w), w, f, k) == Load(s, w, f, k) + if f(x) == k then w(x) else 0.0
    decreases |s|
  {
    assert (s + [x])[..|s|] == s;
    if s != [] && w(s[|s|-1]) < w(x) {
      var t, y := s[..|s|-1], s[|s|-1];
      InsertLoad(t, x, w, f, k);
      InsertLength(t, x, w);
      assert (Insert(t, x, w) + [y])[..|t| + 1] == Insert(t, x, w);
    }
  }

  /** Sorting moves no load. */
  lemma {:induction false} SortedLoad(s: seq<Module>, w: Module -> real, f: Module -> int, k: int)
    ensures Load(Sorted(s, w), w, f, k) == Load(s, w, f, k)
    decreases |s|
  {
    if s != [] {
      SortedLoad(s[..|s|-1], w, f, k);
      InsertLoad(Sorted(s[..|s|-1], w), s[|s|-1], w, f, k);
    }
  }

  // ------------------------------------------------------------- assignment

  predicate Distinct(s: seq<Module>) {
    forall i, j | 0 <= i < j < |s| :: s[i] != s[j]
  }

  function Fn(a: map<Module, nat>): Module -> int {
    x => if x in a then a[x] as int else -1
  }

  /** The first of the least loaded shards. */
  function Least(s: seq<Module>, w: Module -> real, pre: int -> real, f: Module -> int, m: nat): (k: nat)
    requires m > 0
    ensures k < m
    ensures forall i | 0 <= i < m :: pre(k) + Load(s, w, f, k) <= pre(i) + Load(s, w, f, i)
    ensures forall i | 0 <= i < k :: pre(k) + Load(s, w, f, k) < pre(i) + Load(s, w, f, i)
    decreases m
  {
    if m == 1 then 0
    else
      var k := Least(s, w, pre, f, m - 1);
      if pre(m - 1) + Load(s, w, f, m - 1) < pre(k) + Load(s, w, f, k) then m - 1 else k
  }

  /** The assignment, module by module. */
  function Assigned(s: seq<Module>, w: Module -> real, pre: int -> real, m: nat): (a: map<Module, nat>)
    requires m > 0
    ensures forall x :: x in a <==> x in s
    ensures forall x | x in a :: a[x] < m
  {
    if s == [] then map[]
    else
      var t, x := s[..|s|-1], s[|s|-1];
      assert forall y :: y in s <==> y in t || y == x;
      var a := Assigned(t, w, pre, m);
      a[x := Least(t, w, pre, Fn(a), m)]
  }

  lemma {:induction false} SameLoad(s: seq<Module>, w: Module -> real, f: Module -> int, g: Module -> int, k: int)
    requires forall x | x in s :: f(x) == g(x)
    ensures Load(s, w, f, k) == Load(s, w, g, k)
    decreases |s|
  {
    if s != [] {
      assert s[|s|-1] in s && forall x | x in s[..|s|-1] :: x in s;
      SameLoad(s[..|s|-1], w, f, g, k);
    }
  }

  lemma {:induction false} AssignedIsGreedy(s: seq<Module>, w: Module -> real, pre: int -> real, m: nat)
    requires m > 0 && Distinct(s)
    ensures Greedy(s, w, pre, Fn(Assigned(s, w, pre, m)), m)
    decreases |s|
  {
    if s != [] {
      var t, x := s[..|s|-1], s[|s|-1];
      var a, b := Assigned(t, w, pre, m), Assigned(s, w, pre, m);
      var f, g := Fn(a), Fn(b);
      AssignedIsGreedy(t, w, pre, m);
      assert x !in t;
      forall j, k | 0 <= j < |s| && 0 <= k < m
        ensures pre(g(s[j])) + Load(s[..j], w, g, g(s[j])) <= pre(k) + Load(s[..j], w, g, k)
      {
        forall y | y in s[..j] ensures f(y) == g(y) { assert y in t; }
        SameLoad(s[..j], w, f, g, k);
        SameLoad(s[..j], w, f, g, g(s[j]));
        if j < |t| { assert t[..j] == s[..j] && t[j] == s[j]; } else { assert s[..j] == t; }
      }
    }
  }

  // ----------------------------------------------------------------- shards

  /** [module for module in modules if assignments[module] == index] */
  function Chosen(s: seq<Module>, f: Module -> int, k: int): (r: seq<Module>)
    ensures forall x :: x in r <==> x in s && f(x) == k
  {
    if s == [] then []
    else
      assert forall y :: y in s <==> y in s[..|s|-1] || y == s[|s|-1];
      Chosen(s[..|s|-1], f, k) + if f(s[|s|-1]) == k then [s[|s|-1]] else []
  }

  lemma {:induction false} ChosenLoad(s: seq<Module>, w: Module -> real, f: Module -> int, k: int)
    ensures Total(Chosen(s, f, k), w) == Load(s, w, f, k)
    decreases |s|
  {
    if s != [] {
      ChosenLoad(s[..|s|-1], w, f, k);
      var c := Chosen(s[..|s|-1], f, k);
      assert (c + [s[|s|-1]])[..|c|] == c && c + [] == c;
    }
  }

  lemma {:induction false} ChosenDistinct(s: seq<Module>, f: Module -> int, k: int)
    requires Distinct(s)
    ensures Distinct(Chosen(s, f, k))
    decreases |s|
  {
    if s != [] {
      var t := s[..|s|-1];
      ChosenDistinct(t, f, k);
      assert forall i | 0 <= i < |t| :: t[i] == s[i];
      assert s[|s|-1] !in t;
      var c := Chosen(t, f, k);
      assert forall i | 0 <= i < |c| :: c[i] in c && c[i] in t;
      assert Chosen(s, f, k) == c || Chosen(s, f, k) == c + [s[|s|-1]];
    }
  }

  /** What comes before what in the whole list, at these places. */
  ghost predicate InOrder(s: seq<Module>, a: Module, b: Module) {
    exists p, q | 0 <= p < q < |s| :: s[p] == a && s[q] == b
  }

  /** The chosen modules come in the order of the list. */
  lemma {:induction false} ChosenInOrder(s: seq<Module>, f: Module -> int, k: int, i: nat, j: nat)
    requires i < j < |Chosen(s, f, k)|
    ensures InOrder(s, Chosen(s, f, k)[i], Chosen(s, f, k)[j])
    decreases |s|
  {
    var t, x := s[..|s|-1], s[|s|-1];
    var c := Chosen(t, f, k);
    if j < |c| {
      ChosenInOrder(t, f, k, i, j);
      var p, q :| 0 <= p < q < |t| && t[p] == c[i] && t[q] == c[j];
      assert s[p] == c[i] && s[q] == c[j];
    } else {
      assert c[i] in t;
      var p :| 0 <= p < |t| && t[p] == c[i];
      assert s[p] == c[i] && s[|s|-1] == x;
    }
  }

  /** What a plan puts where, of `m` shards. */
  function Planned(modules: seq<Module>, w: Module -> real, pre: int -> real, m: nat): Module -> int
    requires m > 0
  {
    Fn(Assigned(Sorted(modules, w), w, pre, m))
  }

  function Shard(modules: seq<Module>, w: Module -> real, pre: int -> real, m: nat, k: int): seq<Module>
    requires m > 0
  {
    Chosen(modules, Planned(modules, w, pre, m), k)
  }

  lemma SortedSame(modules: seq<Module>, w: Module -> real)
    ensures forall x :: x in Sorted(modules, w) <==> x in modules
  {
    assert forall x :: x in Sorted(modules, w) <==> x in multiset(Sorted(modules, w));
  }

  lemma DistinctIsOnce(s: seq<Module>)
    ensures Distinct(s) <==> forall x | x in s :: multiset(s)[x] == 1
  {
    if Distinct(s) { forall x | x in s ensures multiset(s)[x] == 1 { OnceEach(s, x); } }
    else {
      var i, j :| 0 <= i < j < |s| && s[i] == s[j];
      assert s == s[..j] + s[j..];
      assert s[i] in multiset(s[..j]) && s[j] in multiset(s[j..]) by { assert s[..j][i] == s[i] && s[j..][0] == s[j]; }
      assert multiset(s)[s[i]] == multiset(s[..j])[s[i]] + multiset(s[j..])[s[i]];
    }
  }

  lemma {:induction false} OnceEach(s: seq<Module>, x: Module)
    requires Distinct(s) && x in s
    ensures multiset(s)[x] == 1
    decreases |s|
  {
    var t, y := s[..|s|-1], s[|s|-1];
    assert s == t + [y];
    if x != y { OnceEach(t, x); } else { assert x !in multiset(t); }
  }

  lemma SortedDistinct(modules: seq<Module>, w: Module -> real)
    requires Distinct(modules)
    ensures Distinct(Sorted(modules, w))
  {
    DistinctIsOnce(modules);
    DistinctIsOnce(Sorted(modules, w));
    SortedSame(modules, w);
  }

  /** Every module is on exactly one of the shards, each shard lists its modules
      in selector order and once, and nothing else is on any. */
  lemma PlanIsPartition(modules: seq<Module>, w: Module -> real, pre: int -> real, m: nat, x: Module)
    requires m > 0 && Distinct(modules)
    ensures x in modules ==> exists k: nat :: k < m && x in Shard(modules, w, pre, m, k)
    ensures forall i, j | x in Shard(modules, w, pre, m, i) && x in Shard(modules, w, pre, m, j) :: i == j
    ensures x !in modules ==> forall k :: x !in Shard(modules, w, pre, m, k)
    ensures forall k :: Distinct(Shard(modules, w, pre, m, k))
    ensures forall k, i, j | 0 <= i < j < |Shard(modules, w, pre, m, k)| ::
      InOrder(modules, Shard(modules, w, pre, m, k)[i], Shard(modules, w, pre, m, k)[j])
  {
    SortedSame(modules, w);
    var f := Planned(modules, w, pre, m);
    if x in modules { assert 0 <= f(x) < m && x in Shard(modules, w, pre, m, f(x)); }
    forall k ensures Distinct(Shard(modules, w, pre, m, k)) { ChosenDistinct(modules, f, k); }
    forall k, i, j | 0 <= i < j < |Shard(modules, w, pre, m, k)|
      ensures InOrder(modules, Shard(modules, w, pre, m, k)[i], Shard(modules, w, pre, m, k)[j])
    {
      ChosenInOrder(modules, f, k, i, j);
    }
  }

  lemma PlanIsGreedy(modules: seq<Module>, w: Module -> real, pre: int -> real, m: nat)
    requires m > 0 && Distinct(modules)
    ensures var s, f := Sorted(modules, w), Planned(modules, w, pre, m);
      Greedy(s, w, pre, f, m) && Falling(s, w)
  {
    SortedDistinct(modules, w);
    SortedFalls(modules, w);
    AssignedIsGreedy(Sorted(modules, w), w, pre, m);
  }

  lemma ShardLoad(modules: seq<Module>, w: Module -> real, pre: int -> real, m: nat, k: int)
    requires m > 0
    ensures Total(Shard(modules, w, pre, m, k), w) == Load(Sorted(modules, w), w, Planned(modules, w, pre, m), k)
  {
    var f := Planned(modules, w, pre, m);
    ChosenLoad(modules, w, f, k);
    SortedLoad(modules, w, f, k);
  }

  lemma OnShard(modules: seq<Module>, w: Module -> real, pre: int -> real, m: nat, k: int, x: Module)
    requires m > 0
    ensures x in Shard(modules, w, pre, m, k) <==> x in Sorted(modules, w) && Planned(modules, w, pre, m)(x) == k
  {
    SortedSame(modules, w);
  }

  /** With a preload a shard is that alone, or at most the average of everything
      and 1 - 1/m of the module assigned to it last, which is its lightest. */
  lemma PlanIsBalanced(modules: seq<Module>, w: Module -> real, pre: int -> real, m: nat, k: nat) returns (last: Module)
    requires k < m && Distinct(modules) && forall x | x in modules :: w(x) >= 0.0
    ensures var shard := Shard(modules, w, pre, m, k);
      Total(shard, w) == 0.0
      || (last in shard && (forall x | x in shard :: w(x) >= w(last))
          && Times(pre(k) + Total(shard, w), m) <= PreSum(pre, m) + Total(modules, w) + Times(w(last), m - 1))
  {
    hide Times, PreSum, Total, Load, Sorted, Planned, Shard, Falling, Distinct, Greedy;
    var s, f := Sorted(modules, w), Planned(modules, w, pre, m);
    PlanIsGreedy(modules, w, pre, m);
    ShardLoad(modules, w, pre, m, k);
    SortedSame(modules, w);
    SortedTotal(modules, w);
    var l := PreloadedBound(s, w, pre, f, m, k);
    last := if l >= 0 then s[l] else "";
    OnShard(modules, w, pre, m, k, last);
    forall x | l >= 0 && x in Shard(modules, w, pre, m, k) ensures w(x) >= w(last) {
      OnShard(modules, w, pre, m, k, x);
      var i :| 0 <= i < |s| && s[i] == x;
      if i < l { Falls(s, w, i, l); }
    }
  }

  lemma Falls(s: seq<Module>, w: Module -> real, i: nat, j: nat)
    requires Falling(s, w) && i < j < |s|
    ensures w(s[i]) >= w(s[j])
  {
  }

  lemma {:induction false} SortedTotal(s: seq<Module>, w: Module -> real)
    ensures Total(Sorted(s, w), w) == Total(s, w)
    decreases |s|
  {
    var f: Module -> int := x => 0;
    SortedLoad(s, w, f, 0);
    OneShard(s, w, f);
    OneShard(Sorted(s, w), w, f);
  }

  lemma {:induction false} OneShard(s: seq<Module>, w: Module -> real, f: Module -> int)
    requires forall x :: f(x) == 0
    ensures Load(s, w, f, 0) == Total(s, w)
    decreases |s|
  {
    if s != [] { OneShard(s[..|s|-1], w, f); }
  }

  /** Without one, no shard weighs more than 4/3 - 1/(3m) of what any way of
      spreading the modules over `m` shards puts on its heaviest. */
  lemma PlanIsNearBest(
      modules: seq<Module>, w: Module -> real, m: nat, other: Module -> int, heaviest: real, k: nat)
    requires k < m && Distinct(modules) && forall x | x in modules :: w(x) > 0.0
    requires Onto(modules, other, m) && forall j | 0 <= j < m :: Total(Chosen(modules, other, j), w) <= heaviest
    ensures Total(Shard(modules, w, Zero, m, k), w) <= Ratio(m) * heaviest
  {
    var s, f := Sorted(modules, w), Planned(modules, w, Zero, m);
    PlanIsGreedy(modules, w, Zero, m);
    SortedSame(modules, w);
    ShardLoad(modules, w, Zero, m, k);
    forall j | 0 <= j < m ensures Load(s, w, other, j) <= heaviest {
      ChosenLoad(modules, w, other, j);
      SortedLoad(modules, w, other, j);
    }
    var total := Total(Shard(modules, w, Zero, m, k), w);
    FourThirds(s, w, f, other, m, heaviest, k);
    hide *;
  }

  // -------------------------------------------------------- no empty shard

  ghost predicate Unused(s: seq<Module>, f: Module -> int, k: int) {
    forall x | x in s :: f(x) != k
  }

  lemma {:induction false} UsedWeighs(s: seq<Module>, w: Module -> real, f: Module -> int, x: Module)
    requires x in s && forall y | y in s :: w(y) > 0.0
    ensures Load(s, w, f, f(x)) > 0.0
    decreases |s|
  {
    var t := s[..|s|-1];
    assert forall y | y in t :: y in s;
    assert s[|s|-1] in s;
    LoadMonotone(t, w, f, f(x), 0);
    if x != s[|s|-1] { UsedWeighs(t, w, f, x); }
  }

  lemma {:induction false} UnusedIsZero(s: seq<Module>, w: Module -> real, f: Module -> int, k: int)
    requires Unused(s, f, k)
    ensures Load(s, w, f, k) == 0.0
    decreases |s|
  {
    if s != [] {
      assert s[|s|-1] in s && forall x | x in s[..|s|-1] :: x in s;
      UnusedIsZero(s[..|s|-1], w, f, k);
    }
  }

  /** While a shard is empty a module goes to one nobody is on. */
  lemma GoesToEmpty(s: seq<Module>, w: Module -> real, f: Module -> int, m: nat, k: nat, y: Module)
    requires s != [] && Greedy(s, w, Zero, f, m) && k < m && Unused(s, f, k) && forall x | x in s :: w(x) > 0.0
    requires y in s[..|s|-1]
    ensures f(y) != f(s[|s|-1])
  {
    var j := |s| - 1;
    var t, x := s[..j], s[j];
    assert forall z | z in t :: z in s;
    UnusedIsZero(t, w, f, k);
    UsedWeighs(t, w, f, y);
    assert Zero(f(s[j])) + Load(s[..j], w, f, f(s[j])) <= Zero(k) + Load(s[..j], w, f, k);
  }

  lemma GreedyPrefix(s: seq<Module>, w: Module -> real, pre: int -> real, f: Module -> int, m: nat)
    requires s != [] && Greedy(s, w, pre, f, m)
    ensures Greedy(s[..|s|-1], w, pre, f, m)
  {
    var t := s[..|s|-1];
    assert forall y | y in t :: y in s;
    forall j, i | 0 <= j < |t| && 0 <= i < m
      ensures pre(f(t[j])) + Load(t[..j], w, f, f(t[j])) <= pre(i) + Load(t[..j], w, f, i)
    {
      assert t[..j] == s[..j] && t[j] == s[j];
    }
  }

  lemma {:induction false} SpreadsOut(s: seq<Module>, w: Module -> real, f: Module -> int, m: nat, k: nat) returns (used: set<int>)
    requires Greedy(s, w, Zero, f, m) && k < m && Unused(s, f, k) && forall x | x in s :: w(x) > 0.0
    ensures |used| == |s| && k !in used && forall i | i in used :: 0 <= i < m
    ensures forall i | i in used :: exists x | x in s :: f(x) == i
    decreases |s|
  {
    if s == [] {
      used := {};
    } else {
      var t, x := s[..|s|-1], s[|s|-1];
      assert x in s && forall y | y in t :: y in s;
      GreedyPrefix(s, w, Zero, f, m);
      var before := SpreadsOut(t, w, f, m, k);
      forall y | y in t ensures f(y) != f(x) { GoesToEmpty(s, w, f, m, k, y); }
      assert 0 <= f(x) < m;
      hide Greedy;
      used := before + {f(x)};
    }
  }

  lemma {:induction false} Below(m: nat, used: set<int>)
    requires forall i | i in used :: 0 <= i < m
    ensures |used| <= m
    decreases m
  {
    if m == 0 {
      assert forall i :: i in used ==> 0 <= i < 0;
      assert used == {};
    } else {
      Below(m - 1, used - {m - 1});
    }
  }

  lemma EveryShardIsUsed(s: seq<Module>, w: Module -> real, f: Module -> int, m: nat, k: nat)
    requires Greedy(s, w, Zero, f, m) && k < m <= |s| && forall x | x in s :: w(x) > 0.0
    ensures exists x :: x in s && f(x) == k
  {
    if Unused(s, f, k) {
      var used := SpreadsOut(s, w, f, m, k);
      hide Greedy, Unused;
      Below(m, used + {k});
    }
  }

  /** With as many modules as shards, all of some weight, no shard is empty. */
  lemma NoShardIsEmpty(modules: seq<Module>, w: Module -> real, m: nat, k: nat)
    requires k < m <= |modules| && Distinct(modules) && forall x | x in modules :: w(x) > 0.0
    ensures Shard(modules, w, Zero, m, k) != []
  {
    var s, f := Sorted(modules, w), Planned(modules, w, Zero, m);
    assert |s| == |multiset(s)| == |multiset(modules)| == |modules|;
    hide Sorted, Planned, Shard, Falling, Distinct, Greedy;
    PlanIsGreedy(modules, w, Zero, m);
    SortedSame(modules, w);
    EveryShardIsUsed(s, w, f, m, k);
    var x :| x in s && f(x) == k;
    OnShard(modules, w, Zero, m, k, x);
  }

  // ------------------------------------------------------------ the planners

  datatype Result<T> = Ok(value: T) | Err

  const DEFAULT_SECONDS := 1.0

  /** weights.get(module, DEFAULT_SECONDS) */
  function Seconds(weights: map<Module, real>): Module -> real {
    x => if x in weights then weights[x] else DEFAULT_SECONDS
  }

  function Preload(support: real): int -> real {
    k => if k == 0 then support else 0.0
  }

  method SortByWeight(modules: seq<Module>, w: Module -> real) returns (order: seq<Module>)
    ensures order == Sorted(modules, w)
  {
    order := [];
    var i := 0;
    while i < |modules|
      invariant i <= |modules| && order == Sorted(modules[..i], w)
    {
      assert modules[..i + 1][..i] == modules[..i];
      order := Insert(order, modules[i], w);
      i := i + 1;
    }
    assert modules[..i] == modules;
  }

  /** The loads are those of the modules assigned so far. */
  ghost predicate Tracks(loads: seq<real>, s: seq<Module>, w: Module -> real, pre: int -> real, a: map<Module, nat>) {
    forall k | 0 <= k < |loads| :: loads[k] == pre(k) + Load(s, w, Fn(a), k)
  }

  /** The first index of a least value. */
  predicate IsLeast(loads: seq<real>, index: nat) {
    index < |loads|
    && (forall k | 0 <= k < |loads| :: loads[index] <= loads[k])
    && (forall k | 0 <= k < index :: loads[index] < loads[k])
  }

  /** min(range(count), key=lambda index: (loads[index], index)) */
  method LeastLoaded(loads: array<real>) returns (index: nat)
    requires loads.Length > 0
    ensures IsLeast(loads[..], index)
  {
    index := 0;
    var k := 1;
    while k < loads.Length
      invariant 1 <= k <= loads.Length && index < k
      invariant forall i | 0 <= i < k :: loads[index] <= loads[i]
      invariant forall i | 0 <= i < index :: loads[index] < loads[i]
    {
      if loads[k] < loads[index] { index := k; }
      k := k + 1;
    }
  }

  lemma LeastIs(loads: seq<real>, s: seq<Module>, w: Module -> real, pre: int -> real, a: map<Module, nat>, index: nat)
    requires Tracks(loads, s, w, pre, a) && IsLeast(loads, index)
    ensures index == Least(s, w, pre, Fn(a), |loads|)
  {
    var k := Least(s, w, pre, Fn(a), |loads|);
    assert loads[k] == pre(k) + Load(s, w, Fn(a), k);
  }

  lemma AssignedIs(s: seq<Module>, w: Module -> real, pre: int -> real, m: nat, i: nat)
    requires m > 0 && i < |s|
    ensures var a := Assigned(s[..i], w, pre, m);
      Assigned(s[..i + 1], w, pre, m) == a[s[i] := Least(s[..i], w, pre, Fn(a), m)]
  {
    assert s[..i + 1][..i] == s[..i];
  }

  lemma LoadStep(s: seq<Module>, w: Module -> real, a: map<Module, nat>, i: nat, index: nat, k: int)
    requires i < |s| && s[i] !in s[..i]
    ensures Load(s[..i + 1], w, Fn(a[s[i] := index]), k) == Load(s[..i], w, Fn(a), k) + if k == index then w(s[i]) else 0.0
  {
    assert s[..i + 1][..i] == s[..i];
    SameLoad(s[..i], w, Fn(a), Fn(a[s[i] := index]), k);
  }

  lemma DistinctPrefix(s: seq<Module>, i: nat)
    requires Distinct(s) && i < |s|
    ensures s[i] !in s[..i]
  {
  }

  lemma AssignedStep(loads: seq<real>, s: seq<Module>, w: Module -> real, pre: int -> real, i: nat, index: nat)
    requires Distinct(s) && i < |s| && IsLeast(loads, index)
    requires Tracks(loads, s[..i], w, pre, Assigned(s[..i], w, pre, |loads|))
    ensures var a, b := Assigned(s[..i], w, pre, |loads|), Assigned(s[..i + 1], w, pre, |loads|);
      b == a[s[i] := index] && Tracks(loads[index := loads[index] + w(s[i])], s[..i + 1], w, pre, b)
  {
    hide Assigned, Load, Fn, Distinct;
    DistinctPrefix(s, i);
    var a := Assigned(s[..i], w, pre, |loads|);
    AssignedIs(s, w, pre, |loads|, i);
    LeastIs(loads, s[..i], w, pre, a, index);
    forall k | 0 <= k < |loads|
      ensures Load(s[..i + 1], w, Fn(a[s[i] := index]), k) == Load(s[..i], w, Fn(a), k) + if k == index then w(s[i]) else 0.0
    {
      LoadStep(s, w, a, i, index, k);
    }
    hide Least;
  }

  /** The greedy loop, on loads that may start unequal. */
  method Assign(order: seq<Module>, w: Module -> real, loads: array<real>, ghost pre: int -> real)
      returns (assignments: map<Module, nat>)
    requires loads.Length > 0 && Distinct(order) && Tracks(loads[..], [], w, pre, map[])
    modifies loads
    ensures assignments == Assigned(order, w, pre, loads.Length)
    ensures Tracks(loads[..], order, w, pre, assignments)
  {
    assignments := map[];
    var i := 0;
    assert order[..0] == [];
    while i < |order|
      invariant i <= |order| && assignments == Assigned(order[..i], w, pre, loads.Length)
      invariant Tracks(loads[..], order[..i], w, pre, assignments)
    {
      hide Tracks, IsLeast, Assigned, Distinct;
      var index := LeastLoaded(loads);
      ghost var before := loads[..];
      AssignedStep(before, order, w, pre, i, index);
      assert index < loads.Length by { LeastInRange(before, index); }
      loads[index] := loads[index] + w(order[i]);
      assert loads[..] == before[index := before[index] + w(order[i])];
      assignments := assignments[order[i] := index];
      i := i + 1;
    }
    assert order[..i] == order;
  }

  lemma LeastInRange(loads: seq<real>, index: nat)
    requires IsLeast(loads, index)
    ensures index < |loads|
  {
  }

  lemma NothingTracks(loads: seq<real>, w: Module -> real, pre: int -> real)
    requires forall k | 0 <= k < |loads| :: loads[k] == pre(k)
    ensures Tracks(loads, [], w, pre, map[])
  {
  }

  /** [module for module in modules if assignments[module] == index] */
  method Choose(modules: seq<Module>, assignments: map<Module, nat>, index: nat) returns (shard: seq<Module>)
    requires forall x | x in modules :: x in assignments
    ensures shard == Chosen(modules, Fn(assignments), index)
  {
    shard := [];
    var i := 0;
    while i < |modules|
      invariant i <= |modules| && shard == Chosen(modules[..i], Fn(assignments), index)
    {
      assert modules[..i + 1][..i] == modules[..i];
      if assignments[modules[i]] == index { shard := shard + [modules[i]]; }
      i := i + 1;
    }
    assert modules[..i] == modules;
  }

  method HasDuplicates(modules: seq<Module>) returns (yes: bool)
    ensures yes <==> !Distinct(modules)
  {
    var seen: set<Module> := {};
    var i := 0;
    while i < |modules|
      invariant i <= |modules| && Distinct(modules[..i]) && forall x :: x in seen <==> x in modules[..i]
    {
      if modules[i] in seen {
        assert exists j | 0 <= j < i :: modules[j] == modules[i];
        return true;
      }
      seen := seen + {modules[i]};
      i := i + 1;
      assert modules[..i] == modules[..i - 1] + [modules[i - 1]];
    }
    assert modules[..i] == modules;
    return false;
  }

  /** Sorting, then the greedy loop. */
  method Plan(modules: seq<Module>, w: Module -> real, loads: array<real>, ghost pre: int -> real)
      returns (assignments: map<Module, nat>)
    requires loads.Length > 0 && Distinct(modules) && forall k | 0 <= k < loads.Length :: loads[k] == pre(k)
    modifies loads
    ensures Fn(assignments) == Planned(modules, w, pre, loads.Length)
    ensures forall x | x in modules :: x in assignments
  {
    NothingTracks(loads[..], w, pre);
    hide Tracks;
    var order := SortByWeight(modules, w);
    SortedDistinct(modules, w);
    SortedSame(modules, w);
    hide Sorted, Distinct;
    assignments := Assign(order, w, loads, pre);
    hide Assigned;
  }

  /** shard_modules refuses what would lose a module or leave a shard empty; what
      it answers is the plan without preload, shard by shard. */
  method ShardModules(modules: seq<Module>, weights: map<Module, real>, count: int) returns (r: Result<seq<seq<Module>>>)
    requires forall x | x in weights :: weights[x] > 0.0
    ensures r.Err? <==> modules == [] || !Distinct(modules) || count < 1 || count > |modules|
    ensures r.Ok? ==>
      (|r.value| == count
       && forall k | 0 <= k < count :: r.value[k] == Shard(modules, Seconds(weights), Zero, count, k) && r.value[k] != [])
  {
    hide Distinct, Planned;
    var duplicates := HasDuplicates(modules);
    if modules == [] || duplicates || count < 1 || count > |modules| { return Err; }
    var w := Seconds(weights);
    assert forall x | x in modules :: w(x) > 0.0;
    var totals := new real[count](_ => 0.0);
    var assignments := Plan(modules, w, totals, Zero);
    var shards := ListShards(modules, assignments, count);
    forall k | 0 <= k < count
      ensures shards[k] == Shard(modules, Seconds(weights), Zero, count, k) && shards[k] != []
    {
      NoShardIsEmpty(modules, w, count, k);
    }
    return Ok(shards);
  }

  method ListShards(modules: seq<Module>, assignments: map<Module, nat>, count: nat) returns (shards: seq<seq<Module>>)
    requires forall x | x in modules :: x in assignments
    ensures |shards| == count && forall k | 0 <= k < count :: shards[k] == Chosen(modules, Fn(assignments), k)
  {
    shards := [];
    while |shards| < count
      invariant |shards| <= count
      invariant forall k | 0 <= k < |shards| :: shards[k] == Chosen(modules, Fn(assignments), k)
    {
      var shard := Choose(modules, assignments, |shards|);
      shards := shards + [shard];
    }
  }

  /** plan_native_modules: the first shard starts with the helper packs' cost. The
      data are those of the tier. */
  method PlanNativeModules(
      modules: seq<Module>, tier: string, shard: int, count: int, support: real, seconds: map<Module, real>,
      routine: map<Module, real>) returns (r: Result<seq<Module>>)
    ensures r.Err? <==> !(tier == "full" || tier == "routine") || !(1 <= shard <= count) || !Distinct(modules)
    ensures r.Ok? && count == 1 ==> r.value == modules
    ensures r.Ok? && count > 1 ==>
      r.value == Shard(modules, Seconds(if tier == "routine" then routine else seconds), Preload(support), count, shard - 1)
  {
    hide Distinct, Planned;
    if (tier != "full" && tier != "routine") || !(1 <= shard <= count) { return Err; }
    var duplicates := HasDuplicates(modules);
    if duplicates { return Err; }
    if count == 1 { return Ok(modules); }
    var w := Seconds(if tier == "routine" then routine else seconds);
    var loads := new real[count](k => if k == 0 then support else 0.0);
    var assignments := Plan(modules, w, loads, Preload(support));
    var chosen := Choose(modules, assignments, shard - 1);
    return Ok(chosen);
  }

  // ------------------------------------------------- in the measured seconds

  /** What these modules took when they were measured; one that was not counts as one second. */
  function Measured(modules: seq<Module>, weights: map<Module, real>): real {
    if modules == [] then 0.0
    else (if modules[0] in weights then weights[modules[0]] else 1.0) + Measured(modules[1..], weights)
  }

  lemma {:induction false} MeasuredMore(modules: seq<Module>, x: Module, weights: map<Module, real>)
    ensures Measured(modules + [x], weights) == Measured(modules, weights) + if x in weights then weights[x] else 1.0
    decreases |modules|
  {
    if modules == [] {
      assert modules + [x] == [x];
    } else {
      MeasuredMore(modules[1..], x, weights);
      assert (modules + [x])[1..] == modules[1..] + [x];
    }
  }

  lemma {:induction false} TotalIsMeasured(modules: seq<Module>, weights: map<Module, real>)
    ensures Total(modules, Seconds(weights)) == Measured(modules, weights)
    decreases |modules|
  {
    if modules != [] {
      var t, x := modules[..|modules|-1], modules[|modules|-1];
      TotalIsMeasured(t, weights);
      MeasuredMore(t, x, weights);
      assert modules == t + [x];
    }
  }

  /** No shard that shard_modules plans takes longer than 4/3 - 1/(3m) of the longest
      shard of any other way to spread the modules over as many. */
  lemma ShardsAreNearBest(
      modules: seq<Module>, weights: map<Module, real>, count: nat, other: Module -> int, longest: real, k: nat)
    requires k < count && Distinct(modules) && forall x | x in weights :: weights[x] > 0.0
    requires Onto(modules, other, count)
    requires forall j | 0 <= j < count :: Measured(Chosen(modules, other, j), weights) <= longest
    ensures Measured(Shard(modules, Seconds(weights), Zero, count, k), weights) <= Ratio(count) * longest
  {
    var w := Seconds(weights);
    assert forall x :: w(x) > 0.0;
    hide Ratio, Onto, Distinct, Shard, Measured, Total;
    forall j | 0 <= j < count ensures Total(Chosen(modules, other, j), w) <= longest {
      TotalIsMeasured(Chosen(modules, other, j), weights);
    }
    TotalIsMeasured(Shard(modules, w, Zero, count, k), weights);
    PlanIsNearBest(modules, w, count, other, longest, k);
  }

  lemma {:induction false} SupportIsAll(support: real, m: nat)
    ensures PreSum(Preload(support), m) == if m == 0 then 0.0 else support
    decreases m
  {
    if m > 0 { SupportIsAll(support, m - 1); }
  }

  /** A shard that plan_native_modules plans takes no time but the helper packs', or with
      it at most the average of everything and 1 - 1/m of its quickest module. */
  lemma NativeIsBalanced(modules: seq<Module>, weights: map<Module, real>, support: real, count: nat, k: nat)
      returns (last: Module)
    requires k < count && Distinct(modules) && forall x | x in weights :: weights[x] >= 0.0
    ensures var shard := Shard(modules, Seconds(weights), Preload(support), count, k);
      var own := if k == 0 then support else 0.0;
      Measured(shard, weights) == 0.0
      || (last in shard && (forall x | x in shard :: Measured([last], weights) <= Measured([x], weights))
          && Times(own + Measured(shard, weights), count)
             <= support + Measured(modules, weights) + Times(Measured([last], weights), count - 1))
  {
    hide *;
    var w, pre := Seconds(weights), Preload(support);
    forall x | x in modules ensures w(x) >= 0.0 { OneMeasured(x, weights); }
    last := PlanIsBalanced(modules, w, pre, count, k);
    InSeconds(modules, weights, support, count, k, last);
  }

  /** What the plan's own weights say, in seconds. */
  lemma InSeconds(modules: seq<Module>, weights: map<Module, real>, support: real, count: nat, k: nat, last: Module)
    requires k < count
    ensures var w, pre := Seconds(weights), Preload(support);
      var shard := Shard(modules, w, pre, count, k);
      && Total(shard, w) == Measured(shard, weights) && Total(modules, w) == Measured(modules, weights)
      && pre(k) == (if k == 0 then support else 0.0) && PreSum(pre, count) == support
      && forall x :: w(x) == Measured([x], weights)
  {
    hide *;
    var w, pre := Seconds(weights), Preload(support);
    TotalIsMeasured(Shard(modules, w, pre, count, k), weights);
    TotalIsMeasured(modules, weights);
    SupportIsAll(support, count);
    PreloadIs(support, k);
    forall x ensures w(x) == Measured([x], weights) { OneMeasured(x, weights); }
  }

  lemma PreloadIs(support: real, k: int)
    ensures Preload(support)(k) == if k == 0 then support else 0.0
  {
  }

  lemma OneMeasured(x: Module, weights: map<Module, real>)
    ensures Measured([x], weights) == Seconds(weights)(x)
    ensures (forall y | y in weights :: weights[y] >= 0.0) ==> Seconds(weights)(x) >= 0.0
  {
  }
}
