/** Keys of generated-id mode. The reader seeds its id generator once with the
    split's path, a dash and the split's start offset (DelimitedJSONReader
    lines 92-94). IdGenerator is not part of this model: its n-th
    incrementAndGet(), n counted from 1, is taken to be the seed, a dash and
    the decimal text of n. */
module Ids {
  import opened Text

  function Seed(path: string, start: int): (r: string)
    ensures |r| > |path| + 1 && r[..|path|] == path && r[|path|] == '-'
  {
    path + "-" + IntText(start)
  }

  function GeneratedId(seed: string, n: nat): (r: string)
    ensures |r| > |seed| + 1 && r[..|seed|] == seed && r[|seed|] == '-'
  {
    seed + "-" + NatText(n)
  }

  /** Length of the dash-free tail of a string. */
  function TailLength(w: string): nat {
    if w == [] || w[|w| - 1] == '-' then 0 else 1 + TailLength(w[..|w| - 1])
  }

  lemma {:induction false} TailAfterDash(x: string, u: string)
    requires '-' !in u
    ensures TailLength(x + "-" + u) == |u|
  {
    var w := x + "-" + u;
    if u == [] {
      assert w[|w| - 1] == '-';
    } else {
      assert w[|w| - 1] == u[|u| - 1];
      assert w[..|w| - 1] == x + "-" + u[..|u| - 1];
      TailAfterDash(x, u[..|u| - 1]);
    }
  }

  /** A string that ends in a dash and a dash-free tail splits there in one way only. */
  lemma SplitAtLastDash(x: string, u: string, y: string, v: string)
    requires '-' !in u && '-' !in v
    requires x + "-" + u == y + "-" + v
    ensures x == y && u == v
  {
    var w := x + "-" + u;
    TailAfterDash(x, u);
    TailAfterDash(y, v);
    assert |x| == |y|;
    assert x == w[..|x|] == (y + "-" + v)[..|y|] == y;
    assert u == w[|x| + 1..] == (y + "-" + v)[|y| + 1..] == v;
  }

  lemma NoDashInDigits(n: nat)
    ensures '-' !in NatText(n)
  {
    NatTextDigits(n);
  }

  /** Ids from one generator are pairwise distinct, and ids from generators
      with different seeds never collide. */
  lemma GeneratedIdInjective(seed1: string, a: nat, seed2: string, b: nat)
    requires GeneratedId(seed1, a) == GeneratedId(seed2, b)
    ensures seed1 == seed2 && a == b
  {
    NoDashInDigits(a);
    NoDashInDigits(b);
    SplitAtLastDash(seed1, NatText(a), seed2, NatText(b));
    NatTextInjective(a, b);
  }

  /** Two readers share a generated id only if they read a split with the same
      path and start offset, and then only for the same call number. */
  lemma GeneratedIdsGloballyUnique(path1: string, start1: nat, a: nat, path2: string, start2: nat, b: nat)
    requires GeneratedId(Seed(path1, start1), a) == GeneratedId(Seed(path2, start2), b)
    ensures path1 == path2 && start1 == start2 && a == b
  {
    GeneratedIdInjective(Seed(path1, start1), a, Seed(path2, start2), b);
    NoDashInDigits(start1);
    NoDashInDigits(start2);
    SplitAtLastDash(path1, IntText(start1), path2, IntText(start2));
    NatTextInjective(start1, start2);
  }
}
