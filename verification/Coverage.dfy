/** `measure_skills.py`: the greedy choice of the largest skills. */
module Coverage {
  datatype Measurement = Measurement(name: string, skillChars: nat)

  predicate Descending(ms: seq<Measurement>) {
    forall i, j :: 0 <= i < j < |ms| ==> ms[i].skillChars >= ms[j].skillChars
  }

  /** The size of the first `n` skills. */
  function Prefix(ms: seq<Measurement>, n: nat): nat
    requires n <= |ms|
  {
    if n == 0 then 0 else Prefix(ms, n - 1) + ms[n - 1].skillChars
  }

  function Total(ms: seq<Measurement>): nat { Prefix(ms, |ms|) }

  /** The size of the skills at positions below `n` that are in `picked`. */
  function Picked(ms: seq<Measurement>, picked: set<nat>, n: nat): nat
    requires n <= |ms|
  {
    if n == 0 then 0
    else Picked(ms, picked, n - 1) + if n - 1 in picked then ms[n - 1].skillChars else 0
  }

  function Below(picked: set<nat>, n: nat): set<nat> {
    set i | i in picked && i < n
  }

  lemma BelowNext(picked: set<nat>, n: nat)
    ensures |Below(picked, n + 1)| == |Below(picked, n)| + if n in picked then 1 else 0
  {
    assert Below(picked, n + 1) == Below(picked, n) + if n in picked then {n} else {};
  }

  lemma {:induction false} CountBounded(picked: set<nat>, n: nat)
    ensures |Below(picked, n)| <= n
  {
    if n > 0 {
      BelowNext(picked, n - 1);
      CountBounded(picked, n - 1);
    } else {
      assert Below(picked, 0) == {};
    }
  }

  lemma {:induction false} PrefixGrows(ms: seq<Measurement>, k: nat, n: nat)
    requires k <= n <= |ms|
    ensures Prefix(ms, k) <= Prefix(ms, n)
    decreases n
  {
    if k < n { PrefixGrows(ms, k, n - 1); }
  }

  /** No choice of skills is larger than the same number taken from the front. */
  lemma {:induction false} FrontIsLargest(ms: seq<Measurement>, picked: set<nat>, n: nat)
    requires Descending(ms) && n <= |ms|
    ensures |Below(picked, n)| <= n
    ensures Picked(ms, picked, n) <= Prefix(ms, |Below(picked, n)|)
  {
    CountBounded(picked, n);
    if n > 0 {
      FrontIsLargest(ms, picked, n - 1);
      BelowNext(picked, n - 1);
      var k := |Below(picked, n - 1)|;
      if n - 1 in picked {
        assert k < n - 1 ==> ms[k].skillChars >= ms[n - 1].skillChars;
        assert Prefix(ms, k + 1) == Prefix(ms, k) + ms[k].skillChars;
      }
    }
  }

  /** No prefix of fewer than `n` skills reaches the goal. */
  predicate ShortOf(ms: seq<Measurement>, goal: real, n: nat)
    requires n <= |ms|
  {
    forall j :: 0 <= j < n ==> (Prefix(ms, j) as real) < goal
  }

  /** Reaching the target needs no fewer skills than the first prefix that reaches it. */
  lemma NothingSmallerReaches(ms: seq<Measurement>, goal: real, k: nat, picked: set<nat>)
    requires Descending(ms) && k <= |ms|
    requires ShortOf(ms, goal, k)
    requires forall i :: i in picked ==> i < |ms|
    requires Picked(ms, picked, |ms|) as real >= goal
    ensures k <= |picked|
  {
    FrontIsLargest(ms, picked, |ms|);
    assert Below(picked, |ms|) == picked;
  }

  function Goal(ms: seq<Measurement>, target: real): real { target * (Total(ms) as real) }

  /** The whole is reached by a target of at most 1, and by any target when there is nothing. */
  lemma WholeReaches(ms: seq<Measurement>, target: real)
    ensures Total(ms) as real >= Goal(ms, target) <==> target <= 1.0 || Total(ms) == 0
  {
    SharesCompare(Total(ms) as real, target);
  }

  lemma SharesCompare(t: real, target: real)
    requires t >= 0.0
    ensures t >= target * t <==> target <= 1.0 || t == 0.0
  {
    assert t - target * t == (1.0 - target) * t;
    if t > 0.0 && target > 1.0 { assert (target - 1.0) * t > 0.0; }
  }

  /** A first prefix that reaches the goal, or else everything, reaches it when the whole does. */
  lemma StoppedReaches(ms: seq<Measurement>, n: nat, goal: real)
    requires n <= |ms| && (n < |ms| ==> Prefix(ms, n) as real >= goal)
    ensures Prefix(ms, n) as real >= goal <==> Total(ms) as real >= goal
  {
    PrefixGrows(ms, n, |ms|);
  }

  /** What makes a chosen number of skills the fewest. */
  ghost predicate Fewest(ms: seq<Measurement>, goal: real, k: nat) {
    forall picked: set<nat> ::
      (forall i :: i in picked ==> i < |ms|) && Picked(ms, picked, |ms|) as real >= goal ==> k <= |picked|
  }

  lemma FirstReachingIsFewest(ms: seq<Measurement>, goal: real, k: nat)
    requires Descending(ms) && k <= |ms|
    requires ShortOf(ms, goal, k)
    ensures Fewest(ms, goal, k)
  {
    forall picked: set<nat> | (forall i :: i in picked ==> i < |ms|) && Picked(ms, picked, |ms|) as real >= goal
      ensures k <= |picked|
    {
      NothingSmallerReaches(ms, goal, k, picked);
    }
  }

  function Names(ms: seq<Measurement>): seq<string> {
    seq(|ms|, i requires 0 <= i < |ms| => ms[i].name)
  }

  /** The second loop of `coverage_set`. */
  method TakeUntil(ms: seq<Measurement>, goal: real) returns (chosen: seq<string>)
    ensures |chosen| <= |ms| && chosen == Names(ms[..|chosen|])
    ensures ShortOf(ms, goal, |chosen|)
    ensures |chosen| < |ms| ==> Prefix(ms, |chosen|) as real >= goal
  {
    chosen := [];
    var running := 0;
    var n := 0;
    while n < |ms| && !(running as real >= goal)
      invariant n <= |ms| && |chosen| == n && chosen == Names(ms[..n])
      invariant running == Prefix(ms, n)
      invariant forall j :: 0 <= j < n ==> (Prefix(ms, j) as real) < goal
    {
      NamesNext(ms, n);
      chosen := chosen + [ms[n].name];
      running := running + ms[n].skillChars;
      n := n + 1;
    }
  }

  /** `coverage_set`: the first skills in the order given, the fewest of them that reach the target; on
      measurements ordered largest first no other choice of fewer skills reaches it either. They do
      reach it exactly for a target of at most 1, or when all sizes are zero. */
  method CoverageSet(ms: seq<Measurement>, target: real) returns (chosen: seq<string>)
    ensures |chosen| <= |ms| && chosen == Names(ms[..|chosen|])
    ensures ShortOf(ms, Goal(ms, target), |chosen|)
    ensures Prefix(ms, |chosen|) as real >= Goal(ms, target) <==> target <= 1.0 || Total(ms) == 0
    ensures Descending(ms) ==> Fewest(ms, Goal(ms, target), |chosen|)
  {
    var total := 0;
    for i := 0 to |ms|
      invariant total == Prefix(ms, i)
    {
      total := total + ms[i].skillChars;
    }
    var goal := target * (total as real);
    assert goal == Goal(ms, target);
    chosen := TakeUntil(ms, goal);
    StoppedReaches(ms, |chosen|, goal);
    WholeReaches(ms, target);
    if Descending(ms) {
      FirstReachingIsFewest(ms, goal, |chosen|);
    }
  }

  lemma NamesNext(ms: seq<Measurement>, n: nat)
    requires n < |ms|
    ensures Names(ms[..n + 1]) == Names(ms[..n]) + [ms[n].name]
  {
  }
}
