/**
 * Protease combinations: every selection of 1..max proteases, each keeping the
 * order of the protease list, listed the way `itertools.combinations` lists them
 * for one size after another.
 */
module Combinations {
  import opened Strings
  import W = Wrappers

  /** `itertools.combinations(s, k)`: combinations with the first element come first. */
  function Combos(s: seq<String>, k: nat): (r: seq<seq<String>>)
    decreases |s|
  {
    if k == 0 then [[]]
    else if s == [] then []
    else Prepend(s[0], Combos(s[1..], k - 1)) + Combos(s[1..], k)
  }

  function Prepend(x: String, cs: seq<seq<String>>): (r: seq<seq<String>>)
    ensures |r| == |cs|
    ensures forall i :: 0 <= i < |cs| ==> r[i] == [x] + cs[i]
  {
    if cs == [] then [] else [[x] + cs[0]] + Prepend(x, cs[1..])
  }

  /** The binomial coefficient, by Pascal's rule. */
  function Binom(n: nat, k: nat): nat
  {
    if k == 0 then 1 else if n == 0 then 0 else Binom(n - 1, k - 1) + Binom(n - 1, k)
  }

  function Pow2(n: nat): nat
  {
    if n == 0 then 1 else 2 * Pow2(n - 1)
  }

  /** `c` is `s` with some elements deleted. */
  predicate SubseqOf(c: seq<String>, s: seq<String>)
    decreases |s|
  {
    if c == [] then true
    else if s == [] then false
    else (c[0] == s[0] && SubseqOf(c[1..], s[1..])) || SubseqOf(c, s[1..])
  }

  predicate NoDuplicates(s: seq<String>)
  {
    forall i, j :: 0 <= i < j < |s| ==> s[i] != s[j]
  }

  predicate NoDuplicateLists(s: seq<seq<String>>)
  {
    forall i, j :: 0 <= i < j < |s| ==> s[i] != s[j]
  }

  // ---------------------------------------------------------------- one size

  /** There are C(n, k) combinations of size k. */
  lemma {:induction false} CombosCount(s: seq<String>, k: nat)
    ensures |Combos(s, k)| == Binom(|s|, k)
    decreases |s|
  {
    if k > 0 && s != [] {
      CombosCount(s[1..], k - 1);
      CombosCount(s[1..], k);
    }
  }

  lemma {:induction false} SubseqElements(c: seq<String>, s: seq<String>, x: String)
    requires SubseqOf(c, s) && x in c
    ensures x in s
    decreases |s|
  {
    if c[0] == s[0] && SubseqOf(c[1..], s[1..]) {
      if x != c[0] { SubseqElements(c[1..], s[1..], x); }
    } else {
      SubseqElements(c, s[1..], x);
    }
  }

  lemma {:induction false} SubseqLength(c: seq<String>, s: seq<String>)
    requires SubseqOf(c, s)
    ensures |c| <= |s|
    decreases |s|
  {
    if c != [] {
      if c[0] == s[0] && SubseqOf(c[1..], s[1..]) {
        SubseqLength(c[1..], s[1..]);
      } else {
        SubseqLength(c, s[1..]);
      }
    }
  }

  /** A list belongs to `Combos(s, k)` exactly when it has k entries and is a subsequence of `s`. */
  lemma {:induction false} CombosMembers(s: seq<String>, k: nat, c: seq<String>)
    ensures c in Combos(s, k) <==> |c| == k && SubseqOf(c, s)
    decreases |s|
  {
    if k > 0 && s != [] {
      CombosMembers(s[1..], k, c);
      if c != [] {
        CombosMembers(s[1..], k - 1, c[1..]);
        PrependMembers(s[0], Combos(s[1..], k - 1), c);
      }
    }
  }

  /** A list lies in `Prepend(x, cs)` iff it starts with `x` and its rest lies in `cs`. */
  lemma PrependMembers(x: String, cs: seq<seq<String>>, c: seq<String>)
    requires c != []
    ensures c in Prepend(x, cs) <==> c[0] == x && c[1..] in cs
  {
    var r := Prepend(x, cs);
    if c in r {
      var i :| 0 <= i < |r| && r[i] == c;
      assert c[1..] == cs[i];
    }
    if c[0] == x && c[1..] in cs {
      var i := IndexOf(cs, c[1..]);
      assert [x] + c[1..] == c;
      assert r[i] == c;
    }
  }

  function IndexOf(cs: seq<seq<String>>, c: seq<String>): (i: nat)
    requires c in cs
    ensures i < |cs| && cs[i] == c
  {
    if cs[0] == c then 0 else 1 + IndexOf(cs[1..], c)
  }

  lemma PrependDistinct(x: String, cs: seq<seq<String>>)
    requires NoDuplicateLists(cs)
    ensures NoDuplicateLists(Prepend(x, cs))
  {
    var r := Prepend(x, cs);
    forall i, j | 0 <= i < j < |r| ensures r[i] != r[j] {
      assert r[i][1..] == cs[i] && r[j][1..] == cs[j];
    }
  }

  /** Over a list without repeats, no combination is listed twice. */
  lemma {:induction false} CombosDistinct(s: seq<String>, k: nat)
    requires NoDuplicates(s)
    ensures NoDuplicateLists(Combos(s, k))
    decreases |s|
  {
    if k > 0 && s != [] {
      var head, tail := Prepend(s[0], Combos(s[1..], k - 1)), Combos(s[1..], k);
      assert NoDuplicates(s[1..]);
      CombosDistinct(s[1..], k - 1);
      CombosDistinct(s[1..], k);
      PrependDistinct(s[0], Combos(s[1..], k - 1));
      forall i, j | 0 <= i < |head| && 0 <= j < |tail| ensures head[i] != tail[j] {
        CombosMembers(s[1..], k, tail[j]);
        assert s[0] !in s[1..];
        if s[0] in tail[j] {
          SubseqElements(tail[j], s[1..], s[0]);
        }
        assert head[i][0] == s[0];
      }
      forall x, y | x in head && y in tail ensures x != y {
        var i :| 0 <= i < |head| && head[i] == x;
        var j :| 0 <= j < |tail| && tail[j] == y;
        assert head[i] != tail[j];
      }
      ConcatDistinct(head, tail);
    }
  }

  // ---------------------------------------------------------------- sizes 1..max

  /** The combinations of sizes 1, 2, ..., m, size by size. */
  function AllCombos(s: seq<String>, m: nat): seq<seq<String>>
  {
    if m == 0 then [] else AllCombos(s, m - 1) + Combos(s, m)
  }

  /** `max_proteases` after the clamp: at most the number of proteases. */
  function ClampedMax(n: nat, maxProteases: int): int
  {
    if maxProteases >= n + 1 then n else maxProteases
  }

  /**
   * `get_protease_combinations`: the loop over sizes 1..max appends each size's
   * combinations in turn; a max of zero or less gives no combination.
   */
  method GetProteaseCombinations(proteases: seq<String>, maxProteases: int) returns (r: seq<seq<String>>)
    ensures r == (if ClampedMax(|proteases|, maxProteases) <= 0 then []
                  else AllCombos(proteases, ClampedMax(|proteases|, maxProteases)))
  {
    var max := maxProteases;
    if max >= |proteases| + 1 {
      max := |proteases|;
    }
    r := [];
    var ii := 1;
    while ii < max + 1
      invariant 1 <= ii && (ii <= max + 1 || ii == 1)
      invariant r == AllCombos(proteases, ii - 1)
    {
      var tmp := Combos(proteases, ii);
      r := AppendEach(r, tmp);
      AllCombosUnfold(proteases, ii, r);
      ii := ii + 1;
    }
    assert max == ClampedMax(|proteases|, maxProteases);
    if max >= 1 {
      assert ii - 1 == max;
    } else {
      assert ii == 1 && AllCombos(proteases, 0) == [];
    }
  }

  /** One more size: the lists so far followed by the combinations of that size. */
  lemma AllCombosUnfold(s: seq<String>, m: nat, r: seq<seq<String>>)
    requires m > 0 && r == AllCombos(s, m - 1) + Combos(s, m)
    ensures r == AllCombos(s, m)
  {
  }

  /** The inner loop of `get_protease_combinations`: each combination of one size appended in turn. */
  method AppendEach(r: seq<seq<String>>, tmp: seq<seq<String>>) returns (out: seq<seq<String>>)
    ensures out == r + tmp
  {
    out := r;
    var t := 0;
    while t < |tmp|
      invariant 0 <= t <= |tmp|
      invariant out == r + tmp[..t]
    {
      W.PrefixSnoc(tmp, t);
      W.AppendAssoc(r, tmp[..t], [tmp[t]]);
      out := out + [tmp[t]];
      t := t + 1;
    }
    assert tmp[..t] == tmp;
  }

  /** The sizes-1..m list holds exactly the subsequences with 1..m entries. */
  lemma {:induction false} AllCombosMembers(s: seq<String>, m: nat, c: seq<String>)
    ensures c in AllCombos(s, m) <==> 1 <= |c| <= m && SubseqOf(c, s)
  {
    if m > 0 {
      AllCombosMembers(s, m - 1, c);
      CombosMembers(s, m, c);
      var a, b := AllCombos(s, m - 1), Combos(s, m);
      assert AllCombos(s, m) == a + b;
      assert c in a + b <==> c in a || c in b;
    }
  }

  function BinomSum(n: nat, m: nat): nat
  {
    if m == 0 then 0 else BinomSum(n, m - 1) + Binom(n, m)
  }

  /** The sizes-1..m list has C(n,1) + ... + C(n,m) entries. */
  lemma {:induction false} AllCombosCount(s: seq<String>, m: nat)
    ensures |AllCombos(s, m)| == BinomSum(|s|, m)
  {
    if m > 0 {
      AllCombosCount(s, m - 1);
      CombosCount(s, m);
    }
  }

  /** Over a list without repeats, the sizes-1..m list has no repeats either. */
  lemma {:induction false} AllCombosDistinct(s: seq<String>, m: nat)
    requires NoDuplicates(s)
    ensures NoDuplicateLists(AllCombos(s, m))
  {
    if m > 0 {
      AllCombosDistinct(s, m - 1);
      CombosDistinct(s, m);
      AllCombosStep(s, m);
    }
  }

  lemma AllCombosStep(s: seq<String>, m: nat)
    requires m > 0
    requires NoDuplicateLists(AllCombos(s, m - 1)) && NoDuplicateLists(Combos(s, m))
    ensures NoDuplicateLists(AllCombos(s, m))
  {
    AllCombosShorter(s, m);
    CombosLengths(s, m);
    ConcatByLength(AllCombos(s, m - 1), Combos(s, m), AllCombos(s, m), m);
  }

  lemma AllCombosShorter(s: seq<String>, m: nat)
    requires m > 0
    ensures forall x :: x in AllCombos(s, m - 1) ==> |x| < m
  {
    AllCombosLengths(s, m - 1);
  }

  lemma CombosLengths(s: seq<String>, k: nat)
    ensures forall c :: c in Combos(s, k) ==> |c| == k
  {
    forall c | c in Combos(s, k) ensures |c| == k {
      CombosMembers(s, k, c);
    }
  }

  lemma AllCombosLengths(s: seq<String>, m: nat)
    ensures forall c :: c in AllCombos(s, m) ==> 1 <= |c| <= m
  {
    forall c | c in AllCombos(s, m) ensures 1 <= |c| <= m {
      AllCombosMembers(s, m, c);
    }
  }

  /** Lists shorter than m and lists of length m concatenate without repeats. */
  lemma ConcatByLength(a: seq<seq<String>>, b: seq<seq<String>>, c: seq<seq<String>>, m: nat)
    requires c == a + b
    requires NoDuplicateLists(a) && NoDuplicateLists(b)
    requires forall x :: x in a ==> |x| < m
    requires forall y :: y in b ==> |y| == m
    ensures NoDuplicateLists(c)
  {
    ConcatDistinct(a, b);
  }

  /** Two repeat-free lists with no common entry concatenate to a repeat-free list. */
  lemma ConcatDistinct(a: seq<seq<String>>, b: seq<seq<String>>)
    requires NoDuplicateLists(a) && NoDuplicateLists(b)
    requires forall x, y :: x in a && y in b ==> x != y
    ensures NoDuplicateLists(a + b)
  {
    var r := a + b;
    forall i, j | 0 <= i < j < |r| ensures r[i] != r[j] {
      if j < |a| {
        assert r[i] == a[i] && r[j] == a[j];
      } else if i >= |a| {
        assert r[i] == b[i - |a|] && r[j] == b[j - |a|];
      } else {
        assert r[i] in a && r[j] in b;
      }
    }
  }

  lemma {:induction false} BinomAbove(n: nat, k: nat)
    requires k > n
    ensures Binom(n, k) == 0
  {
    if n > 0 { BinomAbove(n - 1, k - 1); BinomAbove(n - 1, k); }
  }

  /** Pascal's rule summed: the sizes-1..m totals for n + 1 in terms of those for n. */
  lemma {:induction false} BinomSumStep(n: nat, m: nat)
    requires m >= 1
    ensures BinomSum(n + 1, m) == BinomSum(n, m) + BinomSum(n, m - 1) + 1
  {
    assert Binom(n + 1, m) == Binom(n, m - 1) + Binom(n, m);
    if m > 1 {
      BinomSumStep(n, m - 1);
      assert BinomSum(n, m - 1) == BinomSum(n, m - 2) + Binom(n, m - 1);
    } else {
      assert Binom(n, 0) == 1 && BinomSum(n, 1) == Binom(n, 1);
    }
  }

  /** All sizes together give every non-empty selection: 2^n - 1 combinations. */
  lemma {:induction false} BinomSumAll(n: nat)
    ensures BinomSum(n, n) + 1 == Pow2(n)
  {
    if n > 0 {
      BinomSumAll(n - 1);
      BinomSumStep(n - 1, n);
      BinomAbove(n - 1, n);
    }
  }

  /** With max at least the number of proteases there are 2^n - 1 combinations. */
  lemma AllSizesCount(s: seq<String>, maxProteases: int)
    requires maxProteases >= |s| >= 1
    ensures |AllCombos(s, ClampedMax(|s|, maxProteases))| == Pow2(|s|) - 1
  {
    AllCombosCount(s, |s|);
    BinomSumAll(|s|);
  }
}
