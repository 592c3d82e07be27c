/** Longest-processing-time assignment of whole modules to shards: how far its
    heaviest shard can be from the best there is. */
module Sharding {

  type Module = string

  /** What the modules of `s` that `f` puts on shard `k` weigh together. */
  function Load(s: seq<Module>, w: Module -> real, f: Module -> int, k: int): real {
    if s == [] then 0.0
    else Load(s[..|s|-1], w, f, k) + if f(s[|s|-1]) == k then w(s[|s|-1]) else 0.0
  }

  function Total(s: seq<Module>, w: Module -> real): real {
    if s == [] then 0.0 else Total(s[..|s|-1], w) + w(s[|s|-1])
  }

  /** The loads of the first `m` shards together. */
  function Sum(s: seq<Module>, w: Module -> real, f: Module -> int, m: nat): real {
    if m == 0 then 0.0 else Sum(s, w, f, m - 1) + Load(s, w, f, m - 1)
  }

  ghost predicate Onto(s: seq<Module>, f: Module -> int, m: nat) {
    forall x | x in s :: 0 <= f(x) < m
  }

  lemma {:induction false} SumGrows(s: seq<Module>, w: Module -> real, f: Module -> int, m: nat)
    requires s != []
    ensures var x := s[|s|-1];
      Sum(s, w, f, m) == Sum(s[..|s|-1], w, f, m) + if 0 <= f(x) < m then w(x) else 0.0
    decreases m
  {
    if m > 0 { SumGrows(s, w, f, m - 1); }
  }

  lemma {:induction false} SumEmpty(w: Module -> real, f: Module -> int, m: nat)
    ensures Sum([], w, f, m) == 0.0
    decreases m
  {
    if m > 0 { SumEmpty(w, f, m - 1); }
  }

  /** However the modules are assigned, the loads add up to the same total. */
  lemma {:induction false} SumIsTotal(s: seq<Module>, w: Module -> real, f: Module -> int, m: nat)
    requires Onto(s, f, m)
    ensures Sum(s, w, f, m) == Total(s, w)
    decreases |s|
  {
    if s == [] {
      SumEmpty(w, f, m);
    } else {
      assert forall x | x in s[..|s|-1] :: x in s;
      assert s[|s|-1] in s;
      SumIsTotal(s[..|s|-1], w, f, m);
      SumGrows(s, w, f, m);
    }
  }

  function Times(x: real, m: nat): real {
    x * m as real
  }

  lemma TimesStep(x: real, m: nat)
    requires m > 0
    ensures Times(x, 0) == 0.0 && Times(x, m) == Times(x, m - 1) + x
  {
    assert m as real == (m - 1) as real + 1.0;
  }

  lemma {:induction false} SumAtMost(s: seq<Module>, w: Module -> real, f: Module -> int, m: nat, bound: real)
    requires forall k | 0 <= k < m :: Load(s, w, f, k) <= bound
    ensures Sum(s, w, f, m) <= Times(bound, m)
    decreases m
  {
    if m > 0 {
      SumAtMost(s, w, f, m - 1, bound);
      TimesStep(bound, m);
    }
  }

  lemma {:induction false} SumAtLeast(s: seq<Module>, w: Module -> real, f: Module -> int, m: nat, bound: real)
    requires forall k | 0 <= k < m :: Load(s, w, f, k) >= bound
    ensures Sum(s, w, f, m) >= Times(bound, m)
    decreases m
  {
    if m > 0 {
      SumAtLeast(s, w, f, m - 1, bound);
      TimesStep(bound, m);
    }
  }

  lemma {:induction false} LoadMonotone(s: seq<Module>, w: Module -> real, f: Module -> int, k: int, n: nat)
    requires n <= |s| && forall x | x in s :: w(x) >= 0.0
    ensures 0.0 <= Load(s[..n], w, f, k) <= Load(s, w, f, k)
    decreases |s|
  {
    if n < |s| {
      assert forall x | x in s[..|s|-1] :: x in s;
      LoadMonotone(s[..|s|-1], w, f, k, n);
      assert s[..|s|-1][..n] == s[..n] && s[|s|-1] in s;
    } else if s != [] {
      assert forall x | x in s[..|s|-1] :: x in s;
      LoadMonotone(s[..|s|-1], w, f, k, n - 1);
      assert s[|s|-1] in s && s[..n] == s;
    }
  }

  // ---------------------------------------------------------- the algorithm

  /** Each module, in this order, goes to a shard that is then least loaded;
      `pre` is what each shard starts with. */
  ghost predicate Greedy(s: seq<Module>, w: Module -> real, pre: int -> real, f: Module -> int, m: nat) {
    Onto(s, f, m)
    && forall j, k | 0 <= j < |s| && 0 <= k < m ::
         pre(f(s[j])) + Load(s[..j], w, f, f(s[j])) <= pre(k) + Load(s[..j], w, f, k)
  }

  ghost predicate Falling(s: seq<Module>, w: Module -> real) {
    forall i, j | 0 <= i < j < |s| :: w(s[i]) >= w(s[j])
  }

  function Zero(k: int): real { 0.0 }

  /** The last module on a shard: where its load was last raised. */
  lemma {:induction false} LastOn(s: seq<Module>, w: Module -> real, f: Module -> int, k: int) returns (l: int)
    ensures -1 <= l < |s|
    ensures l == -1 ==> Load(s, w, f, k) == 0.0 && forall x | x in s :: f(x) != k
    ensures l >= 0 ==> f(s[l]) == k && Load(s, w, f, k) == Load(s[..l], w, f, k) + w(s[l])
    ensures forall j | l < j < |s| :: f(s[j]) != k
    decreases |s|
  {
    if s == [] {
      l := -1;
    } else if f(s[|s|-1]) == k {
      l := |s| - 1;
    } else {
      var t := s[..|s|-1];
      l := LastOn(t, w, f, k);
      if l >= 0 { assert t[..l] == s[..l]; }
      assert forall x | x in s :: x in t || x == s[|s|-1];
    }
  }

  // ------------------------------------------------------- the simple bound

  function PreSum(pre: int -> real, m: nat): real {
    if m == 0 then 0.0 else PreSum(pre, m - 1) + pre(m - 1)
  }

  lemma {:induction false} LeastIsBelowAverage(
      s: seq<Module>, w: Module -> real, pre: int -> real, f: Module -> int, m: nat, least: real)
    requires forall k | 0 <= k < m :: least <= pre(k) + Load(s, w, f, k)
    ensures Times(least, m) <= PreSum(pre, m) + Sum(s, w, f, m)
    decreases m
  {
    if m > 0 {
      LeastIsBelowAverage(s, w, pre, f, m - 1, least);
      TimesStep(least, m);
    }
  }

  /** A shard ends with what it started with, or its last module `l`, after which
      none comes to it, came when it was no fuller than the average of all that was
      there before. */
  lemma PreloadedBound(s: seq<Module>, w: Module -> real, pre: int -> real, f: Module -> int, m: nat, k: nat) returns (l: int)
    requires Greedy(s, w, pre, f, m) && k < m && forall x | x in s :: w(x) >= 0.0
    ensures -1 <= l < |s|
    ensures l == -1 ==> pre(k) + Load(s, w, f, k) == pre(k)
    ensures l >= 0 ==>
      f(s[l]) == k && (forall j | l < j < |s| :: f(s[j]) != k)
      && Times(pre(k) + Load(s, w, f, k), m) <= PreSum(pre, m) + Total(s, w) + Times(w(s[l]), m - 1)
  {
    l := LastOn(s, w, f, k);
    if l >= 0 {
      var t := s[..l];
      assert forall x | x in t :: x in s;
      var least := pre(k) + Load(t, w, f, k);
      LeastIsBelowAverage(t, w, pre, f, m, least);
      SumIsTotal(t, w, f, m);
      TotalMore(s, w, l);
      hide Load, Sum, Total, PreSum, Times;
      RaisedAverage(m, least, w(s[l]), PreSum(pre, m) + Total(s[..l], w), PreSum(pre, m) + Total(s, w));
    }
  }

  lemma RaisedAverage(m: nat, least: real, last: real, before: real, all: real)
    requires m >= 1 && Times(least, m) <= before && before + last <= all
    ensures Times(least + last, m) <= all + Times(last, m - 1)
  {
    var n := m as real;
    assert (m - 1) as real == n - 1.0;
    assert (least + last) * n == least * n + last * n;
  }

  lemma {:induction false} TotalMore(s: seq<Module>, w: Module -> real, l: nat)
    requires l < |s| && forall x | x in s :: w(x) >= 0.0
    ensures Total(s[..l], w) + w(s[l]) <= Total(s, w)
    decreases |s|
  {
    var t := s[..|s|-1];
    assert forall x | x in t :: x in s;
    assert s[|s|-1] in s;
    if l < |s| - 1 {
      TotalMore(t, w, l);
      assert t[..l] == s[..l];
    } else {
      assert t == s[..l];
    }
  }

  // ---------------------------------------------------- against the best

  /** The weight that counts a module twice if no other fits beside it. */
  function Phi(w: Module -> real, room: real): Module -> real {
    x => if w(x) > room then 2.0 else 1.0
  }

  /** A shard of any assignment that stays within `bound` has two of these
      modules, or one: each is more than a third of it. */
  predicate Packed(load: real, phi: real, least: real, room: real) {
    (load == 0.0 && phi == 0.0)
    || (load >= least && phi == if load > room then 2.0 else 1.0)
    || (load >= 2.0 * least && phi == 2.0)
  }

  lemma {:induction false} PackedShard(s: seq<Module>, w: Module -> real, g: Module -> int, k: int, least: real, bound: real)
    requires forall x | x in s :: w(x) >= least
    requires 0.0 < least && bound < 3.0 * least && Load(s, w, g, k) <= bound
    ensures Packed(Load(s, w, g, k), Load(s, Phi(w, bound - least), g, k), least, bound - least)
    decreases |s|
  {
    if s != [] {
      var t, x := s[..|s|-1], s[|s|-1];
      assert forall y | y in t :: y in s;
      assert x in s;
      PackedShard(t, w, g, k, least, bound);
    }
  }

  /** A shard filled beyond the room that is left has two of them, or one that
      fits beside no other. */
  predicate Filled(load: real, phi: real, room: real) {
    (load == 0.0 && phi == 0.0) || phi == (if load > room then 2.0 else 1.0) || phi >= 2.0
  }

  lemma {:induction false} FilledShard(s: seq<Module>, w: Module -> real, f: Module -> int, k: int, room: real)
    ensures Filled(Load(s, w, f, k), Load(s, Phi(w, room), f, k), room)
    ensures Load(s, Phi(w, room), f, k) >= 0.0
    decreases |s|
  {
    if s != [] { FilledShard(s[..|s|-1], w, f, k, room); }
  }

  /** If the least module is more than a third of what some assignment achieves,
      the last one still fits within that. */
  lemma LargeModulesFit(s: seq<Module>, w: Module -> real, f: Module -> int, g: Module -> int, m: nat, bound: real)
      returns (k: nat)
    requires s != [] && m > 0 && Onto(s, f, m) && Onto(s, g, m)
    requires var last := w(s[|s|-1]);
      0.0 < last <= bound < 3.0 * last && forall x | x in s :: w(x) >= last
    requires forall k | 0 <= k < m :: Load(s, w, g, k) <= bound
    ensures k < m && Load(s[..|s|-1], w, f, k) + w(s[|s|-1]) <= bound
  {
    var x := s[|s|-1];
    var t, room := s[..|s|-1], bound - w(x);
    var phi := Phi(w, room);
    if i: nat :| i < m && Load(t, w, f, i) <= room {
      k := i;
    } else {
      k := 0;
      assert Total(s, phi) == Total(t, phi) + phi(x) && phi(x) >= 1.0;
      hide Load, Total, Sum, Phi;
      assert forall y | y in t :: y in s;
      LightShards(s, w, g, m, w(x), bound);
      HeavyShards(t, w, f, m, room);
    }
  }

  /** Counted so, no shard of the given assignment holds more than two, */
  lemma LightShards(s: seq<Module>, w: Module -> real, g: Module -> int, m: nat, least: real, bound: real)
    requires Onto(s, g, m) && 0.0 < least && bound < 3.0 * least && forall x | x in s :: w(x) >= least
    requires forall k | 0 <= k < m :: Load(s, w, g, k) <= bound
    ensures Total(s, Phi(w, bound - least)) <= Times(2.0, m)
  {
    hide Load, Total, Sum, Phi;
    var phi := Phi(w, bound - least);
    forall k | 0 <= k < m ensures Load(s, phi, g, k) <= 2.0 { PackedShard(s, w, g, k, least, bound); }
    SumAtMost(s, phi, g, m, 2.0);
    SumIsTotal(s, phi, g, m);
  }

  /** and every shard too full for the last module holds at least two. */
  lemma HeavyShards(t: seq<Module>, w: Module -> real, f: Module -> int, m: nat, room: real)
    requires Onto(t, f, m) && 0.0 <= room && forall k: nat | k < m :: Load(t, w, f, k) > room
    ensures Total(t, Phi(w, room)) >= Times(2.0, m)
  {
    hide Load, Total, Sum, Phi;
    var phi := Phi(w, room);
    forall k | 0 <= k < m ensures Load(t, phi, f, k) >= 2.0 { FilledShard(t, w, f, k, room); }
    SumAtLeast(t, phi, f, m, 2.0);
    SumIsTotal(t, phi, f, m);
  }

  lemma ItsShardHoldsIt(s: seq<Module>, w: Module -> real, g: Module -> int, bound: real)
    requires s != [] && Load(s, w, g, g(s[|s|-1])) <= bound && forall x | x in s :: w(x) >= 0.0
    ensures w(s[|s|-1]) <= bound
  {
    var t := s[..|s|-1];
    assert forall x | x in t :: x in s;
    LoadMonotone(t, w, g, g(s[|s|-1]), 0);
  }

  /** Up to the last module of a shard, by the size of that module. */
  predicate LeastOf(t: seq<Module>, w: Module -> real, f: Module -> int, m: nat, i: int) {
    forall k | 0 <= k < m :: Load(t, w, f, i) <= Load(t, w, f, k)
  }

  /** Within 4/3 - 1/(3m) of the bound, without dividing. */
  predicate NearBest(m: nat, c: real, bound: real) {
    3.0 * m as real * c <= (4.0 * m as real - 1.0) * bound
  }

  lemma LastModuleBound(s: seq<Module>, w: Module -> real, f: Module -> int, g: Module -> int, m: nat, bound: real, c: real)
    requires s != [] && m > 0 && Onto(s, f, m) && Onto(s, g, m) && Falling(s, w)
    requires forall x | x in s :: w(x) > 0.0
    requires forall k | 0 <= k < m :: Load(s, w, g, k) <= bound
    requires LeastOf(s[..|s|-1], w, f, m, f(s[|s|-1]))
    requires c == Load(s[..|s|-1], w, f, f(s[|s|-1])) + w(s[|s|-1])
    ensures NearBest(m, c, bound)
  {
    var x := s[|s|-1];
    assert x in s;
    var least, last := Load(s[..|s|-1], w, f, f(x)), w(x);
    hide NearBest, Load, Times;
    LastIsLeast(s, w);
    ItsShardHoldsIt(s, w, g, bound);
    if bound < 3.0 * last {
      LargeLast(s, w, f, g, m, bound);
      hide *;
      Scaled(m, c, bound);
    } else {
      AverageLast(s, w, f, g, m, bound);
      hide *;
      SmallLast(m, least, last, bound, c);
    }
  }

  lemma LargeLast(s: seq<Module>, w: Module -> real, f: Module -> int, g: Module -> int, m: nat, bound: real)
    requires s != [] && m > 0 && Onto(s, f, m) && Onto(s, g, m)
    requires var last := w(s[|s|-1]);
      0.0 < last <= bound < 3.0 * last && forall x | x in s :: w(x) >= last
    requires forall k | 0 <= k < m :: Load(s, w, g, k) <= bound
    requires LeastOf(s[..|s|-1], w, f, m, f(s[|s|-1]))
    ensures Load(s[..|s|-1], w, f, f(s[|s|-1])) + w(s[|s|-1]) <= bound
  {
    hide Load, Onto;
    var k := LargeModulesFit(s, w, f, g, m, bound);
  }

  lemma LastIsLeast(s: seq<Module>, w: Module -> real)
    requires s != [] && Falling(s, w)
    ensures forall y | y in s :: w(y) >= w(s[|s|-1])
  {
    forall y | y in s ensures w(y) >= w(s[|s|-1]) {
      var i :| 0 <= i < |s| && s[i] == y;
    }
  }

  lemma AverageLast(s: seq<Module>, w: Module -> real, f: Module -> int, g: Module -> int, m: nat, bound: real)
    requires s != [] && m > 0 && Onto(s, f, m) && Onto(s, g, m)
    requires forall k | 0 <= k < m :: Load(s, w, g, k) <= bound
    requires LeastOf(s[..|s|-1], w, f, m, f(s[|s|-1]))
    ensures Times(Load(s[..|s|-1], w, f, f(s[|s|-1])), m) + w(s[|s|-1]) <= Times(bound, m)
  {
    var t := s[..|s|-1];
    assert forall y | y in t :: y in s;
    assert Total(s, w) == Total(t, w) + w(s[|s|-1]);
    hide Load, Total, Sum, Times;
    SumAtLeast(t, w, f, m, Load(t, w, f, f(s[|s|-1])));
    SumIsTotal(t, w, f, m);
    SumAtMost(s, w, g, m, bound);
    SumIsTotal(s, w, g, m);
  }

  lemma Scaled(m: nat, c: real, bound: real)
    requires m >= 1 && c <= bound && 0.0 <= bound
    ensures NearBest(m, c, bound)
  {
    var n := m as real;
    assert n * c <= n * bound;
    assert (n - 1.0) * bound >= 0.0;
  }

  lemma SmallLast(m: nat, least: real, last: real, bound: real, c: real)
    requires m >= 1 && c == least + last && 3.0 * last <= bound && Times(least, m) + last <= Times(bound, m)
    ensures NearBest(m, c, bound)
  {
    var n := m as real;
    assert (n - 1.0) * (bound - 3.0 * last) >= 0.0;
  }

  lemma NearTheBest(s: seq<Module>, w: Module -> real, f: Module -> int, g: Module -> int, m: nat, bound: real, k: nat, c: real)
    requires Greedy(s, w, Zero, f, m) && Falling(s, w) && Onto(s, g, m) && k < m
    requires forall x | x in s :: w(x) > 0.0
    requires forall j | 0 <= j < m :: Load(s, w, g, j) <= bound
    requires c == Load(s, w, f, k)
    ensures NearBest(m, c, bound)
  {
    LoadMonotone(s, w, g, k, 0);
    hide NearBest;
    var l := LastOn(s, w, f, k);
    if l >= 0 {
      assert Load(s[..l], w, f, k) + w(s[l]) == c;
      hide Load;
      var t := s[..l + 1];
      assert t[..l] == s[..l] && t[l] == s[l] && forall x | x in t :: x in s;
      forall j | 0 <= j < m ensures Load(t, w, g, j) <= bound { LoadMonotone(s, w, g, j, l + 1); }
      forall j | 0 <= j < m ensures Load(s[..l], w, f, f(s[l])) <= Load(s[..l], w, f, j) {
        assert Zero(f(s[l])) + Load(s[..l], w, f, f(s[l])) <= Zero(j) + Load(s[..l], w, f, j);
      }
      hide Greedy;
      LastModuleBound(t, w, f, g, m, bound, c);
    } else {
      Scaled(m, 0.0, bound);
    }
  }

  function Ratio(m: nat): real
    requires m > 0
  {
    4.0 / 3.0 - 1.0 / (3.0 * m as real)
  }

  lemma Divided(m: nat, c: real, bound: real)
    requires m >= 1 && NearBest(m, c, bound)
    ensures c <= Ratio(m) * bound
  {
    var n := m as real;
    var q := 1.0 / (3.0 * n);
    assert q * (3.0 * n) == 1.0;
    assert q * (3.0 * n * c) <= q * ((4.0 * n - 1.0) * bound);
    assert q * (3.0 * n * c) == (q * (3.0 * n)) * c;
    assert q * ((4.0 * n - 1.0) * bound) == (4.0 * (q * n) - q) * bound;
    assert q * n == 1.0 / 3.0;
  }

  /** No shard weighs more than 4/3 - 1/(3m) of what any assignment to `m` shards
      must put on its heaviest. */
  lemma FourThirds(s: seq<Module>, w: Module -> real, f: Module -> int, g: Module -> int, m: nat, bound: real, k: nat)
    requires Greedy(s, w, Zero, f, m) && Falling(s, w) && Onto(s, g, m) && k < m
    requires forall x | x in s :: w(x) > 0.0
    requires forall j | 0 <= j < m :: Load(s, w, g, j) <= bound
    ensures Load(s, w, f, k) <= Ratio(m) * bound
  {
    NearTheBest(s, w, f, g, m, bound, k, Load(s, w, f, k));
    hide *;
    Divided(m, Load(s, w, f, k), bound);
  }
}
