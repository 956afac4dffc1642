/** The pass@k statistics (eval/passk.py), over exact reals: the product form of the estimator is the
    fraction of the k-subsets of the samples that hold a passing one. */
module PassAtK {
  import B = Basics

  // ----- Counting subsets -----

  function Choose(n: nat, k: nat): nat {
    if k == 0 then 1 else if n == 0 then 0 else Choose(n - 1, k - 1) + Choose(n - 1, k)
  }

  ghost function Subsets(s: set<nat>, k: nat): set<set<nat>> {
    set t: set<nat> | t <= s && |t| == k
  }

  ghost function AllWith(ts: set<set<nat>>, x: nat): set<set<nat>> {
    set t | t in ts :: t + {x}
  }

  lemma NoneWith(x: nat)
    ensures AllWith({}, x) == {}
  {
  }

  lemma AllWithOne(ts: set<set<nat>>, x: nat, t: set<nat>)
    requires t in ts && forall u <- ts :: x !in u
    ensures AllWith(ts, x) == AllWith(ts - {t}, x) + {t + {x}} && t + {x} !in AllWith(ts - {t}, x)
  {
    forall u | u in ts - {t}
      ensures u + {x} != t + {x}
    {
      assert (u + {x}) - {x} == u && (t + {x}) - {x} == t;
    }
  }

  lemma {:induction false} AllWithCount(ts: set<set<nat>>, x: nat)
    requires forall t <- ts :: x !in t
    ensures |AllWith(ts, x)| == |ts|
    decreases ts
  {
    hide AllWith;
    if ts == {} {
      NoneWith(x);
    } else {
      var t :| t in ts;
      AllWithCount(ts - {t}, x);
      AllWithOne(ts, x, t);
    }
  }

  lemma SubsetsSplit(s: set<nat>, x: nat, k: nat)
    requires x in s && k > 0
    ensures Subsets(s, k) == Subsets(s - {x}, k) + AllWith(Subsets(s - {x}, k - 1), x)
    ensures Subsets(s - {x}, k) !! AllWith(Subsets(s - {x}, k - 1), x)
  {
    forall t | t in Subsets(s, k) && x in t
      ensures t in AllWith(Subsets(s - {x}, k - 1), x)
    {
      assert t - {x} in Subsets(s - {x}, k - 1) && t == (t - {x}) + {x};
    }
    forall t | t in Subsets(s - {x}, k - 1)
      ensures t + {x} in Subsets(s, k)
    {
      assert |t + {x}| == |t| + 1;
    }
  }

  lemma SubsetsEnd(s: set<nat>, k: nat)
    ensures k == 0 ==> |Subsets(s, k)| == 1
    ensures k > 0 && s == {} ==> |Subsets(s, k)| == 0
  {
    assert k == 0 ==> Subsets(s, k) == {{}};
    assert k > 0 && s == {} ==> Subsets(s, k) == {};
  }

  lemma SubsetsWithout(s: set<nat>, x: nat, k: nat)
    ensures forall t <- Subsets(s - {x}, k) :: x !in t
  {
  }

  /** A set of `n` has `Choose(n, k)` subsets of `k`. */
  lemma {:induction false} SubsetsCount(s: set<nat>, k: nat)
    ensures |Subsets(s, k)| == Choose(|s|, k)
    decreases |s|
  {
    hide Subsets, AllWith;
    SubsetsEnd(s, k);
    if k > 0 && s != {} {
      var x :| x in s;
      assert |s - {x}| == |s| - 1;
      SubsetsSplit(s, x, k);
      SubsetsWithout(s, x, k - 1);
      SubsetsCount(s - {x}, k);
      SubsetsCount(s - {x}, k - 1);
      AllWithCount(Subsets(s - {x}, k - 1), x);
    }
  }

  /** Those that hold at least one of `passing`. */
  ghost function Hits(s: set<nat>, passing: set<nat>, k: nat): set<set<nat>> {
    set t: set<nat> | t <= s && |t| == k && t * passing != {}
  }

  lemma HitsCount(s: set<nat>, passing: set<nat>, k: nat)
    requires passing <= s
    ensures |Hits(s, passing, k)| == Choose(|s|, k) - Choose(|s - passing|, k)
  {
    var misses := Subsets(s - passing, k);
    SubsetsCount(s, k);
    SubsetsCount(s - passing, k);
    assert Subsets(s, k) == Hits(s, passing, k) + misses by {
      forall t: set<nat> | t <= s && t * passing == {}
        ensures t <= s - passing
      {
        forall y | y in t
          ensures y in s - passing
        {
          assert y in passing ==> y in t * passing;
        }
      }
    }
    assert Hits(s, passing, k) !! misses;
  }

  // ----- Identities -----

  lemma {:induction false} ChooseTop(n: nat, k: nat)
    ensures k > n ==> Choose(n, k) == 0
    ensures k <= n ==> Choose(n, k) > 0
  {
    if k > 0 && n > 0 {
      ChooseTop(n - 1, k - 1);
      ChooseTop(n - 1, k);
    }
  }

  lemma {:induction false} ChooseAbsorb(n: nat, k: nat)
    requires n > 0 && k > 0
    ensures k * Choose(n, k) == n * Choose(n - 1, k - 1)
  {
    if n == 1 {
      assert k == 1 ==> Choose(1, 1) == Choose(0, 0) + Choose(0, 1) == 1;
      assert k > 1 ==> Choose(0, k - 1) == 0 && Choose(0, k) == 0 && Choose(1, k) == 0;
    } else {
      ChooseAbsorb(n - 1, k);
      var a, b := Choose(n - 1, k - 1), Choose(n - 1, k);
      assert Choose(n, k) == a + b;
      if k == 1 {
        assert Choose(n - 2, 0) == 1 && a == 1;
      } else {
        ChooseAbsorb(n - 1, k - 1);
        var c, d := Choose(n - 2, k - 2), Choose(n - 2, k - 1);
        assert a == c + d;
        AbsorbStep(n, k, a, b, c, d);
      }
    }
  }

  lemma AbsorbStep(n: int, k: int, a: int, b: int, c: int, d: int)
    requires (k - 1) * a == (n - 1) * c && k * b == (n - 1) * d && a == c + d
    ensures k * (a + b) == n * a
  {
    assert k * (a + b) == (k - 1) * a + a + k * b;
    assert (n - 1) * c + (n - 1) * d == (n - 1) * a;
  }

  /** Leaving one sample out. */
  lemma ChooseLess(n: nat, k: nat)
    requires n > 0 && k <= n
    ensures (n - k) * Choose(n, k) == n * Choose(n - 1, k)
  {
    if k > 0 {
      ChooseAbsorb(n, k);
      LessStep(n, k, Choose(n, k), Choose(n - 1, k - 1), Choose(n - 1, k));
    }
  }

  lemma LessStep(n: int, k: int, x: int, a: int, b: int)
    requires x == a + b && k * x == n * a
    ensures (n - k) * x == n * b
  {
    assert n * x == n * a + n * b;
  }

  /** Taking one more. */
  lemma ChooseMore(n: nat, k: nat)
    requires k < n
    ensures (k + 1) * Choose(n, k + 1) == (n - k) * Choose(n, k)
  {
    ChooseAbsorb(n, k + 1);
    ChooseLess(n, k);
  }

  // ----- The estimator -----

  /** The chance that `k` samples drawn of `n` hold none of the `c` passing ones. */
  function Miss(n: nat, c: nat, k: nat): real
    requires c <= n && k <= n
  {
    ChooseTop(n, k);
    Choose(n - c, k) as real / Choose(n, k) as real
  }

  /** What the estimator takes from one, for any whole number `k` up to `n`. */
  function Missed(n: nat, c: nat, k: int): real
    requires c <= n && k <= n
  {
    ChooseTop(n, c);
    Choose(n - k, c) as real / Choose(n, c) as real
  }

  /** Where `k` counts samples, that is the chance. */
  lemma MissedIsMiss(n: nat, c: nat, k: nat)
    requires c <= n && k <= n
    ensures Missed(n, c, k) == Miss(n, c, k)
  {
    hide Choose;
    ChooseTop(n, c);
    ChooseTop(n, k);
    Trinomial(n, c, k);
    SameQuotient(Choose(n - k, c) as real, Choose(n, c) as real, Choose(n - c, k) as real, Choose(n, k) as real);
  }

  lemma SameQuotient(a: real, b: real, x: real, y: real)
    requires b > 0.0 && y > 0.0 && a * y == x * b
    ensures a / b == x / y
  {
    CrossLess(a, b, x, y);
    CrossLess(x, y, a, b);
  }

  /** Choosing `c` and then `k` of the others, or `k` and then `c`. */
  lemma {:induction false} Trinomial(n: nat, c: nat, k: nat)
    requires c <= n && k <= n
    ensures Choose(n - k, c) * Choose(n, k) == Choose(n - c, k) * Choose(n, c)
  {
    hide Choose;
    ChooseNone(n - k);
    ChooseNone(n);
    if c > 0 {
      var e := c - 1;
      Trinomial(n, e, k);
      ChooseMore(n, e);
      if k + c <= n {
        ChooseMore(n - k, e);
        ChooseLess(n - e, k);
        TrinomialStep(n - e, n - e - k, c, Choose(n - k, e), Choose(n, k), Choose(n - e, k), Choose(n, e),
                      Choose(n - k, c), Choose(n - c, k), Choose(n, c));
      } else {
        ChooseTop(n - k, c);
        ChooseTop(n - c, k);
      }
    }
  }

  lemma ChooseNone(n: nat)
    ensures Choose(n, 0) == 1
  {
  }

  lemma TrinomialStep(m: int, l: int, c: int, a: int, b: int, x: int, y: int, a': int, x': int, y': int)
    requires m > 0 && c > 0 && a * b == x * y && c * y' == m * y && c * a' == l * a && l * x == m * x'
    ensures a' * b == x' * y'
  {
    assert c * (a' * b) == (c * a') * b == (l * a) * b == l * (a * b) == l * (x * y) == (l * x) * y == (m * x') * y;
    assert (m * x') * y == x' * (m * y) == x' * (c * y') == c * (x' * y');
    assert c * (a' * b - x' * y') == 0;
  }

  /** One factor of the product. */
  lemma FactorStep(m: nat, j: nat, k: int, p: real)
    requires k <= m && p * Choose(m, j) as real == Choose(m - k, j) as real
    ensures p * (1.0 - k as real / (m + 1) as real) * Choose(m + 1, j + 1) as real == Choose(m + 1 - k, j + 1) as real
  {
    hide Choose;
    ChooseAbsorb(m + 1, j + 1);
    ChooseAbsorb(m + 1 - k, j + 1);
    Factor((m + 1) as real, k as real, (j + 1) as real, p, Choose(m, j) as real, Choose(m - k, j) as real,
           Choose(m + 1, j + 1) as real, Choose(m + 1 - k, j + 1) as real);
  }

  lemma Factor(m: real, k: real, j: real, p: real, x: real, y: real, x': real, y': real)
    requires m > 0.0 && j > 0.0 && p * x == y && j * x' == m * x && j * y' == (m - k) * y
    ensures p * (1.0 - k / m) * x' == y'
  {
    assert k / m * m == k;
    assert (1.0 - k / m) * m == m - k;
    assert j * (p * (1.0 - k / m) * x') == p * (1.0 - k / m) * (j * x') == p * (1.0 - k / m) * (m * x);
    assert p * (1.0 - k / m) * (m * x) == ((1.0 - k / m) * m) * (p * x) == (m - k) * y;
    Cancel(p * (1.0 - k / m) * x', y', j);
  }

  datatype Result = Raised | Rate(p: real)

  /** `pass_at_k`, by its product. */
  method Estimate(n: int, c: int, k: int) returns (r: Result)
    ensures r.Raised? <==> !(0 <= c <= n) || k > n
    ensures r.Rate? ==> r.p == 1.0 - Missed(n, c, k)
    ensures r.Rate? && k >= 0 ==> r.p == 1.0 - Miss(n, c, k)
  {
    if !(0 <= c <= n) {
      return Raised;
    }
    if k > n {
      return Raised;
    }
    if k >= 0 {
      MissedIsMiss(n, c, k);
    }
    if n - c < k {
      ChooseTop(n - k, c);
      ChooseTop(n, c);
      assert Missed(n, c, k) == 0.0;
      return Rate(1.0);
    }
    var p := Product(n, c, k);
    return Rate(1.0 - p);
  }

  method Product(n: nat, c: nat, k: int) returns (p: real)
    requires c <= n && k <= n - c
    ensures p == Missed(n, c, k)
  {
    hide Choose;
    p := 1.0;
    ChooseNone(n - c);
    ChooseNone(n - c - k);
    for i := n - c + 1 to n + 1
      invariant p * Choose(i - 1, i - 1 - (n - c)) as real == Choose(i - 1 - k, i - 1 - (n - c)) as real
    {
      FactorStep(i - 1, i - 1 - (n - c), k, p);
      p := p * (1.0 - k as real / i as real);
    }
    ChooseTop(n, c);
    Divided(Choose(n - k, c) as real, p, Choose(n, c) as real);
  }

  lemma Divided(base: real, p: real, x: real)
    requires base == p * x && x != 0.0
    ensures p == base / x
  {
    assert base / x * x == base;
    assert (p - base / x) * x == 0.0;
  }

  /** The estimate is the fraction of the k-subsets of the samples that hold a passing one. */
  lemma FractionOfSubsets(s: set<nat>, passing: set<nat>, k: nat)
    requires passing <= s && k <= |s|
    ensures |passing| <= |s| && |Subsets(s, k)| > 0
    ensures 1.0 - Miss(|s|, |passing|, k) == |Hits(s, passing, k)| as real / |Subsets(s, k)| as real
  {
    assert |s| == |s - passing| + |passing| by {
      assert s == (s - passing) + passing;
    }
    HitsCount(s, passing, k);
    SubsetsCount(s, k);
    ChooseTop(|s|, k);
    Complement(Choose(|s|, k) as real, Choose(|s| - |passing|, k) as real);
  }

  lemma Complement(x: real, y: real)
    requires x > 0.0
    ensures 1.0 - y / x == (x - y) / x
  {
    var u, v := 1.0 - y / x, (x - y) / x;
    assert y / x * x == y;
    assert u * x == x - y;
    assert v * x == x - y;
    Cancel(u, v, x);
  }

  lemma Cancel(u: real, v: real, x: real)
    requires x != 0.0 && u * x == v * x
    ensures u == v
  {
    assert (u - v) * x == 0.0;
  }

  // ----- Monotonicity -----

  lemma CrossLess(a: real, b: real, x: real, y: real)
    requires b > 0.0 && y > 0.0 && a * y <= x * b
    ensures a / b <= x / y
  {
    var u, v := a / b, x / y;
    assert u * b == a && v * y == x;
    assert (v - u) * (b * y) == (v * y) * b - (u * b) * y;
    NotNegative(v - u, b * y);
  }

  lemma NotNegative(d: real, z: real)
    requires z > 0.0 && d * z >= 0.0
    ensures d >= 0.0
  {
  }

  lemma {:induction false} ChooseGrows(n: nat, k: nat)
    ensures Choose(n, k) <= Choose(n + 1, k)
  {
    if k > 0 {
      assert Choose(n + 1, k) == Choose(n, k - 1) + Choose(n, k);
    }
  }

  /** More passing samples never lower the estimate. */
  lemma MonotoneInC(n: nat, c: nat, k: nat)
    requires c < n && k <= n
    ensures Miss(n, c + 1, k) <= Miss(n, c, k)
  {
    ChooseTop(n, k);
    ChooseGrows(n - c - 1, k);
    var x := Choose(n, k) as real;
    var a, b := Choose(n - c - 1, k) as real, Choose(n - c, k) as real;
    assert a * x <= b * x;
    CrossLess(a, x, b, x);
  }

  /** Nor do more draws. */
  lemma MonotoneInK(n: nat, c: nat, k: nat)
    requires c <= n && k < n
    ensures Miss(n, c, k + 1) <= Miss(n, c, k)
  {
    hide Choose;
    ChooseTop(n, k);
    ChooseTop(n, k + 1);
    ChooseMore(n, k);
    var m := n - c;
    var a, b, x, y := Choose(m, k + 1), Choose(n, k + 1), Choose(m, k), Choose(n, k);
    if k < m {
      ChooseMore(m, k);
      DrawMore(n, m, k, a, b, x, y);
    } else {
      ChooseTop(m, k + 1);
    }
    assert a * y <= x * b;
    CrossLess(a as real, b as real, x as real, y as real);
  }

  /** And with `k` any whole number, below zero too. */
  lemma MissedFalls(n: nat, c: nat, k: int)
    requires c <= n && k < n
    ensures Missed(n, c, k + 1) <= Missed(n, c, k)
  {
    ChooseTop(n, c);
    ChooseGrows(n - k - 1, c);
    var x, a, b := Choose(n, c) as real, Choose(n - k - 1, c) as real, Choose(n - k, c) as real;
    assert a * x <= b * x;
    CrossLess(a, x, b, x);
  }

  lemma DrawMore(n: nat, m: nat, k: nat, a: nat, b: nat, x: nat, y: nat)
    requires m <= n && k < m && (k + 1) * b == (n - k) * y && (k + 1) * a == (m - k) * x
    ensures a * y <= x * b
  {
    assert (k + 1) * (a * y) == ((k + 1) * a) * y == ((m - k) * x) * y;
    assert (k + 1) * (x * b) == x * ((k + 1) * b) == x * ((n - k) * y);
    assert ((m - k) * x) * y == (m - k) * (x * y);
    assert x * ((n - k) * y) == (n - k) * (x * y);
    assert (m - k) * (x * y) <= (n - k) * (x * y);
    LessOf(a * y, x * b, k + 1);
  }

  lemma LessOf(u: int, v: int, z: nat)
    requires z > 0 && z * u <= z * v
    ensures u <= v
  {
    assert z * (v - u) >= 0;
  }

  // ----- The ladder -----

  ghost predicate CountsOk(counts: seq<int>, n: int) {
    forall i :: 0 <= i < |counts| ==> 0 <= counts[i] <= n
  }

  ghost function MissSum(counts: seq<int>, n: int, k: int): real
    requires k <= n && CountsOk(counts, n)
  {
    if counts == [] then 0.0 else (1.0 - Missed(n, counts[0], k)) + MissSum(counts[1..], n, k)
  }

  ghost function MeanAt(counts: seq<int>, n: int, k: int): real
    requires k <= n && CountsOk(counts, n) && counts != []
  {
    MissSum(counts, n, k) / |counts| as real
  }

  lemma {:induction false} SumMonotone(counts: seq<int>, n: nat, k: int)
    requires k < n && CountsOk(counts, n)
    ensures MissSum(counts, n, k) <= MissSum(counts, n, k + 1)
  {
    if counts != [] {
      MissedFalls(n, counts[0], k);
      SumMonotone(counts[1..], n, k);
    }
  }

  datatype Rung = NotANumber | Mean(p: real)

  datatype Ladder = Failed | Rungs(at: map<int, Rung>)

  /** The mean estimate over problems, for each `k`; not a number without problems, and a failure
      where any estimate is one. */
  method MakeLadder(counts: seq<int>, n: int, ks: seq<int>) returns (r: Ladder)
    ensures r.Failed? <==> counts != [] && ks != [] && (!CountsOk(counts, n) || exists k :: k in ks && k > n)
    ensures r.Rungs? ==> r.at.Keys == set k | k in ks
    ensures r.Rungs? && counts == [] ==> forall k <- ks :: r.at[k] == NotANumber
    ensures r.Rungs? && counts != [] ==>
      forall k <- ks :: k <= n && CountsOk(counts, n) && r.at[k] == Mean(MeanAt(counts, n, k))
  {
    hide MissSum, CountsOk;
    if counts == [] {
      return Rungs(map k | k in ks :: NotANumber);
    }
    var at: map<int, Rung> := map[];
    for j := 0 to |ks|
      invariant at.Keys == set k | k in ks[..j]
      invariant forall k <- ks[..j] :: k <= n && CountsOk(counts, n) && at[k] == Mean(MeanAt(counts, n, k))
    {
      var k := ks[j];
      assert k in ks;
      var s := Sum(counts, n, k);
      if s.Raised? {
        return Failed;
      }
      at := at[k := Mean(s.p / |counts| as real)];
      assert ks[..j + 1] == ks[..j] + [k];
    }
    assert ks[..|ks|] == ks;
    if ks != [] {
      assert ks[0] in ks;
      assert forall k <- ks :: k <= n;
    }
    return Rungs(at);
  }

  method Sum(counts: seq<int>, n: int, k: int) returns (r: Result)
    requires counts != []
    ensures r.Raised? <==> k > n || !CountsOk(counts, n)
    ensures r.Rate? ==> r.p == MissSum(counts, n, k)
  {
    hide Missed, Miss;
    if k > n {
      return Raised;
    }
    var sum := 0.0;
    for i := 0 to |counts|
      invariant forall j :: 0 <= j < i ==> 0 <= counts[j] <= n
      invariant CountsOk(counts, n) ==>
        CountsOk(counts[i..], n) && sum + MissSum(counts[i..], n, k) == MissSum(counts, n, k)
    {
      var e := Estimate(n, counts[i], k);
      if e.Raised? {
        return Raised;
      }
      assert counts[i..][1..] == counts[i + 1..];
      sum := sum + e.p;
    }
    return Rate(sum);
  }

  /** The ladder never falls. */
  lemma {:induction false} LadderRises(counts: seq<int>, n: nat, k: int, l: int)
    requires counts != [] && k <= l <= n && CountsOk(counts, n)
    ensures MeanAt(counts, n, k) <= MeanAt(counts, n, l)
    decreases l - k
  {
    hide MissSum;
    if k < l {
      SumMonotone(counts, n, k);
      LadderRises(counts, n, k + 1, l);
      SameShare(MissSum(counts, n, k), MissSum(counts, n, k + 1), |counts| as real);
    }
  }

  lemma SameShare(x: real, y: real, m: real)
    requires m > 0.0 && x <= y
    ensures x / m <= y / m
  {
    CrossLess(x, m, y, m);
  }

  // ----- The split -----

  /** A paired difference as a syntax term and a conditional term. */
  function Split(sp: real, qp: B.Option<real>, sd: real, qd: B.Option<real>): (real, real) {
    if qp.None? && qd.None? then (0.0, 0.0)
    else
      var p := if qp.None? then qd.value else qp.value;
      var d := if qd.None? then qp.value else qd.value;
      ((sp - sd) * (p + d) / 2.0, (p - d) * (sp + sd) / 2.0)
  }

  /** The terms sum to the difference of the functional rates, exactly; a rate one arm lacks is taken
      from the other, and then the whole difference is in the syntax term. */
  lemma SplitSums(sp: real, qp: B.Option<real>, sd: real, qd: B.Option<real>)
    ensures qp.Some? && qd.Some? ==> Split(sp, qp, sd, qd).0 + Split(sp, qp, sd, qd).1 == sp * qp.value - sd * qd.value
    ensures qp.None? && qd.Some? ==> Split(sp, qp, sd, qd).0 == (sp - sd) * qd.value && Split(sp, qp, sd, qd).1 == 0.0
    ensures qp.Some? && qd.None? ==> Split(sp, qp, sd, qd).0 == (sp - sd) * qp.value && Split(sp, qp, sd, qd).1 == 0.0
    ensures Split(sp, qp, sd, qd).0 == -Split(sd, qd, sp, qp).0 && Split(sp, qp, sd, qd).1 == -Split(sd, qd, sp, qp).1
  {
    if qp.None? && qd.Some? {
      OneRate(sp, sd, qd.value);
    }
    if qp.Some? && qd.None? {
      OneRate(sp, sd, qp.value);
    }
  }

  lemma OneRate(sp: real, sd: real, q: real)
    ensures (sp - sd) * (q + q) / 2.0 == (sp - sd) * q && (q - q) * (sp + sd) / 2.0 == 0.0
  {
    assert (sp - sd) * (q + q) == 2.0 * ((sp - sd) * q);
    assert q - q == 0.0 && 0.0 * (sp + sd) == 0.0;
  }
}
