/** Facts about finite sets, sums, chains of steps and ordered strings. */
module Collections {

  lemma SubsetSize<T>(small: set<T>, large: set<T>)
    requires small <= large
    ensures |small| <= |large|
    ensures |small| == |large| ==> small == large
  {
    assert large == small + (large - small);
  }

  function Sum(s: seq<nat>): nat {
    if s == [] then 0 else Sum(s[..|s| - 1]) + s[|s| - 1]
  }

  lemma {:induction false} SumUpdate(s: seq<nat>, k: nat, v: nat)
    requires k < |s|
    ensures Sum(s[k := v]) == Sum(s) - s[k] + v
  {
    var n := |s| - 1;
    if k == n {
      assert s[k := v][..n] == s[..n];
    } else {
      assert s[k := v][..n] == s[..n][k := v];
      SumUpdate(s[..n], k, v);
    }
  }

  lemma {:induction false} SumAtMost(s: seq<nat>, bound: nat)
    requires forall i | 0 <= i < |s| :: s[i] <= bound
    ensures Sum(s) <= |s| * bound
  {
    if s != [] {
      SumAtMost(s[..|s| - 1], bound);
      assert |s| * bound == (|s| - 1) * bound + bound;
    }
  }

  lemma {:induction false} PartOfSum(s: seq<nat>, k: nat)
    requires k < |s|
    ensures s[k] <= Sum(s)
  {
    if k < |s| - 1 {
      PartOfSum(s[..|s| - 1], k);
    }
  }

  /** The ticks from `i` to before `j`. */
  function Elapsed(ticks: seq<nat>, i: nat, j: nat): nat
    requires i <= j <= |ticks|
  {
    if i == j then 0 else Elapsed(ticks, i, j - 1) + ticks[j - 1]
  }

  /** A quantity that every tick lowers by one bounds the ticks. */
  lemma {:induction false} Descends(left: seq<nat>, ticks: seq<nat>, i: nat, j: nat)
    requires i <= j <= |ticks| < |left|
    requires forall k {:trigger ticks[k]} | i <= k < |ticks| :: left[k + 1] + ticks[k] <= left[k]
    ensures Elapsed(ticks, i, j) + left[j] <= left[i]
  {
    if i < j {
      Descends(left, ticks, i, j - 1);
      var _ := ticks[j - 1];
    }
  }

  /** A quantity that every tick raises by one counts the ticks. */
  lemma {:induction false} CountsTicks(counts: seq<int>, ticks: seq<nat>, n: nat)
    requires n <= |ticks| < |counts|
    requires forall k {:trigger ticks[k]} | 0 <= k < |ticks| :: counts[k + 1] == counts[k] + ticks[k]
    ensures counts[n] == counts[0] + Elapsed(ticks, 0, n)
  {
    if n > 0 {
      CountsTicks(counts, ticks, n - 1);
      var _ := ticks[n - 1];
    }
  }

  /** A chain of steps can be extended by one more. */
  lemma ChainGrows<S, A>(step: (S, A, S) -> bool, states: seq<S>, actions: seq<A>, a: A, t: S)
    requires |states| == |actions| + 1 && step(states[|actions|], a, t)
    requires forall i {:trigger actions[i]} | 0 <= i < |actions| :: step(states[i], actions[i], states[i + 1])
    ensures forall i {:trigger (actions + [a])[i]} | 0 <= i < |actions| + 1 ::
              step((states + [t])[i], (actions + [a])[i], (states + [t])[i + 1])
  {
    forall i | 0 <= i < |actions| + 1
      ensures step((states + [t])[i], (actions + [a])[i], (states + [t])[i + 1])
    {
      if i < |actions| {
        assert (actions + [a])[i] == actions[i];
      }
    }
  }

  /** The order of strings by their characters. */
  predicate Before(a: string, b: string) {
    if |b| == 0 then false
    else if |a| == 0 then true
    else a[0] < b[0] || (a[0] == b[0] && Before(a[1..], b[1..]))
  }

  lemma {:induction false} BeforeIsTotal(a: string, b: string)
    ensures a == b || Before(a, b) || Before(b, a)
  {
    if |a| > 0 && |b| > 0 && a[0] == b[0] {
      BeforeIsTotal(a[1..], b[1..]);
      assert a == [a[0]] + a[1..] && b == [b[0]] + b[1..];
    }
  }

  lemma {:induction false} BeforeIsTransitive(a: string, b: string, c: string)
    requires Before(a, b) && Before(b, c)
    ensures Before(a, c)
  {
    if |a| > 0 && a[0] == b[0] == c[0] {
      BeforeIsTransitive(a[1..], b[1..], c[1..]);
    }
  }

  /** The first string of a set. */
  method FirstOf(s: set<string>) returns (least: string)
    requires s != {}
    ensures least in s && forall x | x in s && x != least :: Before(least, x)
  {
    var todo := s;
    least :| least in todo;
    todo := todo - {least};
    while todo != {}
      invariant todo <= s && least in s - todo
      invariant forall x | x in s - todo && x != least :: Before(least, x)
      decreases todo
    {
      var next :| next in todo;
      todo := todo - {next};
      BeforeIsTotal(next, least);
      if Before(next, least) {
        forall x | x in s - todo && x != next
          ensures Before(next, x)
        {
          if x != least {
            BeforeIsTransitive(next, least, x);
          }
        }
        least := next;
      }
    }
  }
}
