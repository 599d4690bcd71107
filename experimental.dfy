/**
 * The comparison of experimental results with the simulation
 * (`CoMPaseD_vs_Experimental_AnalysisScript_subcell.py`): the five-character
 * enzyme code of a file name or a protease combination, the rows of an
 * experimental file grouped by protein length, the per-group statistics, the
 * pairing of every file and group with each trypsin-only file, and the
 * columns of the result table.
 */
module ExperimentalAnalysis {
  import opened Wrappers
  import opened Strings

  // ---------------------------------------------------------------- enzyme codes

  const Chymotrypsin: String := "chymotrypsin"
  const ChymTrps: String := "chymTrps"
  const Trypsin: String := "trypsin"

  /** `exp_valid_enzymes_edit`: the names looked for in an experimental file name. */
  const ExpEnzymes: seq<String> := [ChymTrps, "gluc", "lysc", "lysarginase", Trypsin]

  /** `insilico_valid_enzymes_edit`: the names looked for in a simulated protease combination. */
  const InsilicoEnzymes: seq<String> := [ChymTrps, "glu-c", "lys-c", "lysarginase", Trypsin]

  /** The code of a file using trypsin alone. */
  const TrypsinOnly: String := "00001"

  /** `.replace('chymotrypsin', 'chymTrps')`, which keeps the "trypsin" inside "chymotrypsin" from counting. */
  function Edit(s: String): String
  {
    Replace(s, Chymotrypsin, ChymTrps)
  }

  /** One '1' or '0' per name: whether the name occurs in the text. */
  function EnzymeCode(names: seq<String>, text: String): (code: String)
    ensures |code| == |names|
    ensures forall i :: 0 <= i < |names| ==> (code[i] == '1' <==> Contains(text, names[i])) && (code[i] == '1' || code[i] == '0')
  {
    seq(|names|, i requires 0 <= i < |names| => if Contains(text, names[i]) then '1' else '0')
  }

  /** The code of an experimental file name: lower-cased, then edited. */
  function ExpCode(fl: String): String
  {
    EnzymeCode(ExpEnzymes, Edit(Lower(fl)))
  }

  /** The code of a simulated protease combination: edited, without lower-casing. */
  function InsilicoCode(combination: String): String
  {
    EnzymeCode(InsilicoEnzymes, Edit(combination))
  }

  /** The loop over the names, appending "1" or "0". */
  method CodeOf(names: seq<String>, text: String) returns (code: String)
    ensures code == EnzymeCode(names, text)
  {
    code := [];
    var i := 0;
    while i < |names|
      invariant 0 <= i <= |names| && code == EnzymeCode(names[..i], text)
    {
      if Contains(text, names[i]) {
        code := code + "1";
      } else {
        code := code + "0";
      }
      i := i + 1;
      assert names[..i][..i - 1] == names[..i - 1];
    }
    assert names[..i] == names;
  }

  /** `exp_contains_ls`: the code of every experimental file, in file order. */
  method ExpCodes(files: seq<String>) returns (codes: seq<String>)
    ensures |codes| == |files| && forall i :: 0 <= i < |files| ==> codes[i] == ExpCode(files[i])
  {
    codes := [];
    var i := 0;
    while i < |files|
      invariant 0 <= i <= |files| && |codes| == i
      invariant forall j :: 0 <= j < i ==> codes[j] == ExpCode(files[j])
    {
      var flEdit := Edit(Lower(files[i]));
      var code := CodeOf(ExpEnzymes, flEdit);
      codes := codes + [code];
      i := i + 1;
    }
  }

  /** `insilico_contains_ls`: the code of every result row's protease combination, in row order. */
  method InsilicoCodes(combinations: seq<String>) returns (codes: seq<String>)
    ensures |codes| == |combinations| && forall i :: 0 <= i < |combinations| ==> codes[i] == InsilicoCode(combinations[i])
  {
    codes := [];
    var i := 0;
    while i < |combinations|
      invariant 0 <= i <= |combinations| && |codes| == i
      invariant forall j :: 0 <= j < i ==> codes[j] == InsilicoCode(combinations[j])
    {
      var code := CodeOf(InsilicoEnzymes, Edit(combinations[i]));
      codes := codes + [code];
      i := i + 1;
    }
  }

  /** A name whose first character is not in `x` occurs in `x + y` only within `y`. */
  lemma {:induction false} ContainsSkip(x: String, y: String, w: String)
    requires |w| >= 1 && w[0] !in x
    requires Contains(x + y, w)
    ensures Contains(y, w)
    decreases |x|
  {
    if x == [] {
      assert x + y == y;
    } else {
      assert (x + y)[0] == x[0];
      assert (x + y)[1..] == x[1..] + y;
      ContainsSkip(x[1..], y, w);
    }
  }

  /** A text contains what any of its suffixes contains. */
  lemma {:induction false} ContainsFrom(s: String, k: nat, w: String)
    requires k <= |s| && Contains(s[k..], w)
    ensures Contains(s, w)
    decreases k
  {
    if k > 0 {
      assert s[1..][k - 1..] == s[k..];
      ContainsFrom(s[1..], k - 1, w);
    }
  }

  /** A prefix without 'c' of the edited text is a prefix of the text itself. */
  lemma {:induction false} EditPrefix(u: String, w: String)
    requires 'c' !in w
    requires StartsWith(Edit(u), w)
    ensures StartsWith(u, w)
    decreases |w|
  {
    if w != [] {
      if StartsWith(u, Chymotrypsin) {
        EditLeadingC(u);
        assert false;
      } else {
        assert u != [];
        assert Edit(u) == [u[0]] + Edit(u[1..]);
        assert Edit(u)[1..] == Edit(u[1..]);
        assert Edit(u[1..])[..|w| - 1] == w[1..];
        EditPrefix(u[1..], w[1..]);
        assert u[..|w|] == [u[0]] + u[1..][..|w| - 1];
      }
    }
  }

  /** An edited text that begins with "chymotrypsin" begins with 'c'. */
  lemma EditLeadingC(u: String)
    requires StartsWith(u, Chymotrypsin)
    ensures |Edit(u)| >= 1 && Edit(u)[0] == 'c'
  {
    assert Edit(u) == ChymTrps + Edit(u[|Chymotrypsin|..]);
  }

  /** The edit never makes "trypsin" appear: the trypsin bit is set only for a text containing "trypsin". */
  lemma {:induction false} EditTrypsinSound(t: String)
    requires Contains(Edit(t), Trypsin)
    ensures Contains(t, Trypsin)
    decreases |t|
  {
    if StartsWith(t, Chymotrypsin) {
      var rest := t[|Chymotrypsin|..];
      assert Edit(t) == ChymTrps + Edit(rest);
      ContainsSkip(ChymTrps, Edit(rest), Trypsin);
      EditTrypsinSound(rest);
      ContainsFrom(t, |Chymotrypsin|, Trypsin);
    } else if t != [] {
      assert Edit(t) == [t[0]] + Edit(t[1..]);
      if StartsWith(Edit(t), Trypsin) {
        EditPrefix(t, Trypsin);
      } else {
        assert Edit(t)[1..] == Edit(t[1..]);
        EditTrypsinSound(t[1..]);
      }
    }
  }

  /** A leading "chymotrypsin" sets the chymotrypsin bit and leaves the trypsin bit to the rest of the text. */
  lemma LeadingChymotrypsin(x: String)
    ensures Edit(Chymotrypsin + x) == ChymTrps + Edit(x)
    ensures Contains(Edit(Chymotrypsin + x), ChymTrps)
    ensures Contains(Edit(Chymotrypsin + x), Trypsin) <==> Contains(Edit(x), Trypsin)
  {
    var t := Chymotrypsin + x;
    assert StartsWith(t, Chymotrypsin);
    assert t[|Chymotrypsin|..] == x;
    assert (ChymTrps + Edit(x))[..|ChymTrps|] == ChymTrps;
    if Contains(Edit(t), Trypsin) {
      ContainsSkip(ChymTrps, Edit(x), Trypsin);
    }
    if Contains(Edit(x), Trypsin) {
      ContainsSuffix(ChymTrps, Edit(x), Trypsin);
    }
  }

  /** A file whose lower-cased name starts with "chymotrypsin" is coded as using chymotrypsin, and as trypsin only through the rest of its name. */
  lemma ChymotrypsinFile(fl: String, x: String)
    requires Lower(fl) == Chymotrypsin + x
    ensures ExpCode(fl)[0] == '1'
    ensures ExpCode(fl)[4] == '1' <==> Contains(Edit(x), Trypsin)
  {
    LeadingChymotrypsin(x);
  }

  /** A set trypsin bit means "trypsin" occurs in the lower-cased file name. */
  lemma TrypsinBitSound(fl: String)
    requires ExpCode(fl)[4] == '1'
    ensures Contains(Lower(fl), Trypsin)
  {
    EditTrypsinSound(Lower(fl));
  }

  /** The code "00001" means: trypsin, and none of the other four enzymes. */
  lemma TrypsinOnlyMeaning(fl: String)
    ensures ExpCode(fl) == TrypsinOnly <==>
      var e := Edit(Lower(fl));
      Contains(e, Trypsin) && !Contains(e, ChymTrps) && !Contains(e, "gluc") &&
      !Contains(e, "lysc") && !Contains(e, "lysarginase")
  {
    var c := ExpCode(fl);
    assert |c| == 5;
    if c[0] == '0' && c[1] == '0' && c[2] == '0' && c[3] == '0' && c[4] == '1' {
      assert c == TrypsinOnly;
    }
  }

  // ---------------------------------------------------------------- the trypsin baseline

  /** `exp_dict_try`: the positions of the files coded "00001", in file order. */
  function TrypsinFiles(codes: seq<String>): (r: seq<nat>)
    ensures forall j :: 0 <= j < |r| ==> r[j] < |codes| && codes[r[j]] == TrypsinOnly
    ensures forall i :: 0 <= i < |codes| && codes[i] == TrypsinOnly ==> i in r
    ensures forall i, j :: 0 <= i < j < |r| ==> r[i] < r[j]
  {
    if codes == [] then []
    else
      var n := |codes| - 1;
      var init := TrypsinFiles(codes[..n]);
      assert forall i :: 0 <= i < n ==> codes[..n][i] == codes[i];
      init + (if codes[n] == TrypsinOnly then [n] else [])
  }

  /** The loop that collects the trypsin-only files. */
  method TrypsinDicts(codes: seq<String>) returns (tryIdx: seq<nat>)
    ensures tryIdx == TrypsinFiles(codes)
  {
    tryIdx := [];
    var i := 0;
    while i < |codes|
      invariant 0 <= i <= |codes| && tryIdx == TrypsinFiles(codes[..i])
    {
      assert codes[..i + 1][..i] == codes[..i];
      if codes[i] == TrypsinOnly {
        tryIdx := tryIdx + [i];
      }
      i := i + 1;
    }
    assert codes[..i] == codes;
  }

  // ---------------------------------------------------------------- experimental rows and length groups

  /** One protein row of an experimental result file. */
  datatype ExpRow = ExpRow(protein: String, length: int, coverage: real, peptides: int)

  /** The rows `keep` accepts, in order (a boolean `.loc` selection). */
  function Where(rows: seq<ExpRow>, keep: ExpRow -> bool): (r: seq<ExpRow>)
    ensures |r| <= |rows|
  {
    if rows == [] then []
    else Where(rows[..|rows| - 1], keep) + (if keep(rows[|rows| - 1]) then [rows[|rows| - 1]] else [])
  }

  /** A selection holds exactly the accepted rows. */
  lemma {:induction false} WhereMembers(rows: seq<ExpRow>, keep: ExpRow -> bool)
    ensures forall x :: x in Where(rows, keep) <==> x in rows && keep(x)
  {
    if rows != [] {
      var init := rows[..|rows| - 1];
      WhereMembers(init, keep);
      assert rows == init + [rows[|rows| - 1]];
    }
  }

  function NotDecoy(decoy: String): ExpRow -> bool
  {
    (r: ExpRow) => !StartsWith(r.protein, decoy)
  }

  function NotTagged(tag: String): ExpRow -> bool
  {
    (r: ExpRow) => !Contains(r.protein, tag)
  }

  function Tagged(tag: String): ExpRow -> bool
  {
    (r: ExpRow) => Contains(r.protein, tag)
  }

  /** Decoy and iRT rows removed; with a positive tag, only rows whose protein contains it kept. */
  function Cleaned(rows: seq<ExpRow>, decoy: String, irt: String, positive: Option<String>): seq<ExpRow>
  {
    var noDecoy := Where(rows, NotDecoy(decoy));
    var noIrt := Where(noDecoy, NotTagged(irt));
    if positive.Some? then Where(noIrt, Tagged(positive.value)) else noIrt
  }

  /** A row survives the cleaning exactly when it is no decoy, no iRT protein and (if asked) carries the tag. */
  lemma CleanedMembers(rows: seq<ExpRow>, decoy: String, irt: String, positive: Option<String>, x: ExpRow)
    ensures x in Cleaned(rows, decoy, irt, positive) <==>
      x in rows && !StartsWith(x.protein, decoy) && !Contains(x.protein, irt) &&
      (positive.Some? ==> Contains(x.protein, positive.value))
  {
    var noDecoy := Where(rows, NotDecoy(decoy));
    var noIrt := Where(noDecoy, NotTagged(irt));
    WhereMembers(rows, NotDecoy(decoy));
    WhereMembers(noDecoy, NotTagged(irt));
    if positive.Some? {
      WhereMembers(noIrt, Tagged(positive.value));
    }
  }

  /** Group k: lengths from stop k + 1 to stop k+1 + 1, both included (`between`). */
  function GroupOf(rows: seq<ExpRow>, g: seq<int>, k: nat): seq<ExpRow>
    requires k + 1 < |g|
  {
    Where(rows, InGroup(g[k], g[k + 1]))
  }

  function InGroup(lo: int, hi: int): ExpRow -> bool
  {
    (r: ExpRow) => lo + 1 <= r.length <= hi + 1
  }

  function MultiPeptide(): ExpRow -> bool
  {
    (r: ExpRow) => r.peptides > 1
  }

  /** The rows with more than one stripped peptide. */
  function Detected(rows: seq<ExpRow>): seq<ExpRow>
  {
    Where(rows, MultiPeptide())
  }

  function CoverageSum(rows: seq<ExpRow>): real
  {
    if rows == [] then 0.0 else CoverageSum(rows[..|rows| - 1]) + rows[|rows| - 1].coverage
  }

  function PeptideSum(rows: seq<ExpRow>): int
  {
    if rows == [] then 0 else PeptideSum(rows[..|rows| - 1]) + rows[|rows| - 1].peptides
  }

  /** The mean coverage; pandas gives NaN, here None, for no rows. */
  function CoverageMean(rows: seq<ExpRow>): Option<real>
  {
    if rows == [] then None else Some(CoverageSum(rows) / |rows| as real)
  }

  /** The values stored in `grp_dict` for one group. */
  datatype GroupStats = GroupStats(lower: int, upper: int,
                                   coverage: Option<real>, proteins: nat, peptides: int,
                                   coverageFiltered: Option<real>, proteinsFiltered: nat, peptidesFiltered: int)

  function Stats(rows: seq<ExpRow>, g: seq<int>, k: nat): GroupStats
    requires k + 1 < |g|
  {
    var grp := GroupOf(rows, g, k);
    var det := Detected(grp);
    GroupStats(g[k] + 1, g[k + 1], CoverageMean(grp), |grp|, PeptideSum(grp),
               CoverageMean(det), |det|, PeptideSum(det))
  }

  /** The statistics of every group of one file. */
  function FileStats(rows: seq<ExpRow>, g: seq<int>): (r: seq<GroupStats>)
    ensures |r| == if |g| >= 1 then |g| - 1 else 0
  {
    seq(if |g| >= 1 then |g| - 1 else 0, k requires 0 <= k < |g| - 1 => Stats(rows, g, k))
  }

  /** The loop over the grouping stops of one file. */
  method CollectStats(rows: seq<ExpRow>, g: seq<int>) returns (stats: seq<GroupStats>)
    ensures stats == FileStats(rows, g)
  {
    stats := [];
    var idx2 := 0;
    while idx2 < |g|
      invariant 0 <= idx2 <= |g|
      invariant |stats| == if idx2 <= |g| - 1 then idx2 else if |g| >= 1 then |g| - 1 else 0
      invariant forall k :: 0 <= k < |stats| ==> stats[k] == Stats(rows, g, k)
    {
      if idx2 < |g| - 1 {
        stats := stats + [Stats(rows, g, idx2)];
      }
      idx2 := idx2 + 1;
    }
  }

  /** A row is in group k exactly when its length lies in the inclusive range the group checks. */
  lemma GroupMembers(rows: seq<ExpRow>, g: seq<int>, k: nat, x: ExpRow)
    requires k + 1 < |g|
    ensures x in GroupOf(rows, g, k) <==> x in rows && g[k] + 1 <= x.length <= g[k + 1] + 1
  {
    WhereMembers(rows, InGroup(g[k], g[k + 1]));
  }

  /**
   * Neighbouring ranges share their border: a protein one longer than a stop
   * is counted in the group below the stop and in the group above it, while
   * the recorded upper bound of the group below is the stop itself.
   */
  lemma BorderInTwoGroups(rows: seq<ExpRow>, g: seq<int>, k: nat, x: ExpRow)
    requires k + 2 < |g| && g[k] < g[k + 1] <= g[k + 2]
    requires x in rows && x.length == g[k + 1] + 1
    ensures x in GroupOf(rows, g, k) && x in GroupOf(rows, g, k + 1)
    ensures x.length > Stats(rows, g, k).upper
  {
    GroupMembers(rows, g, k, x);
    GroupMembers(rows, g, k + 1, x);
  }

  /**
   * The filtered statistics take only the group's rows with more than one
   * peptide: no more proteins than unfiltered, at least two peptides per
   * protein, and (with no negative counts) no more peptides.
   */
  lemma FilteredStats(rows: seq<ExpRow>, g: seq<int>, k: nat)
    requires k + 1 < |g|
    requires forall i :: 0 <= i < |rows| ==> rows[i].peptides >= 0
    ensures var s := Stats(rows, g, k);
      s.lower == g[k] + 1 && s.upper == g[k + 1] &&
      s.proteinsFiltered <= s.proteins && 2 * s.proteinsFiltered <= s.peptidesFiltered <= s.peptides
  {
    var grp := GroupOf(rows, g, k);
    WhereMembers(rows, InGroup(g[k], g[k + 1]));
    assert forall i :: 0 <= i < |grp| ==> grp[i].peptides >= 0 by {
      forall i | 0 <= i < |grp| ensures grp[i].peptides >= 0 {
        assert grp[i] in rows;
        var j :| 0 <= j < |rows| && rows[j] == grp[i];
      }
    }
    DetectedSums(grp);
  }

  lemma {:induction false} DetectedSums(rows: seq<ExpRow>)
    requires forall i :: 0 <= i < |rows| ==> rows[i].peptides >= 0
    ensures 2 * |Detected(rows)| <= PeptideSum(Detected(rows)) <= PeptideSum(rows)
  {
    if rows != [] {
      var init := rows[..|rows| - 1];
      var last := rows[|rows| - 1];
      assert forall i :: 0 <= i < |init| ==> init[i] == rows[i];
      DetectedSums(init);
      var d := Detected(init);
      assert MultiPeptide()(last) == (last.peptides > 1);
      assert Detected(rows) == d + (if last.peptides > 1 then [last] else []);
      assert last.peptides >= 0 by {
        assert last == rows[|rows| - 1];
      }
      assert PeptideSum(rows) == PeptideSum(init) + last.peptides;
      if last.peptides > 1 {
        var dl := d + [last];
        assert dl[..|dl| - 1] == d && dl[|dl| - 1] == last;
        assert PeptideSum(dl) == PeptideSum(d) + last.peptides;
        assert |Detected(rows)| == |d| + 1;
      } else {
        assert d + [] == d;
      }
    }
  }

  // ---------------------------------------------------------------- pairing with the trypsin files

  /** One output row (one entry of each result list). */
  datatype ScoreRow = ScoreRow(group: String, lower: int, upper: int, code: String,
                               unfiltered: real, filtered: real)

  /**
   * The experimental files: their codes and per-group statistics, with
   * `groups` groups for every file (as `CollectStats` gives with one grouping).
   */
  datatype Experiments = Experiments(codes: seq<String>, stats: seq<seq<GroupStats>>, groups: nat)

  predicate Shaped(x: Experiments)
  {
    |x.stats| == |x.codes| && forall e :: 0 <= e < |x.stats| ==> |x.stats[e]| == x.groups
  }

  /** Statistics collected with one grouping have one shape. */
  lemma CollectedShaped(codes: seq<String>, rows: seq<seq<ExpRow>>, g: seq<int>)
    requires |rows| == |codes|
    ensures Shaped(Experiments(codes, seq(|rows|, e requires 0 <= e < |rows| => FileStats(rows[e], g)), if |g| >= 1 then |g| - 1 else 0))
  {
  }

  /**
   * The protease score of a file against a trypsin file, from the protein
   * counts, peptide counts and mean coverages of both: the weighted geometric
   * mean of the three ratios, a parameter here.
   */
  type Score = (nat, nat, int, int, Option<real>, Option<real>) -> real

  /** The row for file `e`, group `k` and trypsin file `t`. */
  function Row(x: Experiments, score: Score, e: nat, k: nat, t: nat): ScoreRow
    requires Shaped(x) && e < |x.codes| && t < |x.codes| && k < x.groups
  {
    var s := x.stats[e][k];
    var b := x.stats[t][k];
    ScoreRow("group_" + NatToString(k + 1), s.lower, s.upper, x.codes[e],
             score(s.proteins, b.proteins, s.peptides, b.peptides, s.coverage, b.coverage),
             score(s.proteinsFiltered, b.proteinsFiltered, s.peptidesFiltered, b.peptidesFiltered,
                   s.coverageFiltered, b.coverageFiltered))
  }

  /** The rows for file `e` and group `k` against the first `n` trypsin files. */
  function TryRows(x: Experiments, score: Score, e: nat, k: nat, n: nat): (r: seq<ScoreRow>)
    requires Shaped(x) && e < |x.codes| && k < x.groups && n <= |TrypsinFiles(x.codes)|
    ensures |r| == n
  {
    var ts := TrypsinFiles(x.codes);
    seq(n, j requires 0 <= j < n => Row(x, score, e, k, ts[j]))
  }

  /** The rows for file `e` and its first `k` groups. */
  function GroupRows(x: Experiments, score: Score, e: nat, k: nat): seq<ScoreRow>
    requires Shaped(x) && e < |x.codes| && k <= x.groups
  {
    if k == 0 then [] else GroupRows(x, score, e, k - 1) + TryRows(x, score, e, k - 1, |TrypsinFiles(x.codes)|)
  }

  /** The rows for the first `e` files. */
  function FileRows(x: Experiments, score: Score, e: nat): seq<ScoreRow>
    requires Shaped(x) && e <= |x.codes|
  {
    if e == 0 then [] else FileRows(x, score, e - 1) + GroupRows(x, score, e - 1, x.groups)
  }

  /** The scoring loops: every file, every group, every trypsin file. */
  method PairScores(x: Experiments, score: Score) returns (rows: seq<ScoreRow>)
    requires Shaped(x)
    ensures rows == FileRows(x, score, |x.codes|)
  {
    var tryIdx := TrypsinDicts(x.codes);
    rows := [];
    var e := 0;
    while e < |x.codes|
      invariant 0 <= e <= |x.codes| && rows == FileRows(x, score, e)
    {
      var more := PairGroups(x, score, e, tryIdx);
      rows := rows + more;
      e := e + 1;
    }
  }

  /** The loop over the groups of file `e`. */
  method PairGroups(x: Experiments, score: Score, e: nat, tryIdx: seq<nat>) returns (rows: seq<ScoreRow>)
    requires Shaped(x) && e < |x.codes| && tryIdx == TrypsinFiles(x.codes)
    ensures rows == GroupRows(x, score, e, x.groups)
  {
    rows := [];
    var k := 0;
    while k < x.groups
      invariant 0 <= k <= x.groups && rows == GroupRows(x, score, e, k)
    {
      var more := PairWithTrypsin(x, score, e, k, tryIdx);
      rows := rows + more;
      k := k + 1;
    }
  }

  /** The innermost loop: file `e` and group `k` scored against every trypsin file in turn. */
  method PairWithTrypsin(x: Experiments, score: Score, e: nat, k: nat, tryIdx: seq<nat>) returns (rows: seq<ScoreRow>)
    requires Shaped(x) && e < |x.codes| && k < x.groups && tryIdx == TrypsinFiles(x.codes)
    ensures rows == TryRows(x, score, e, k, |tryIdx|)
  {
    rows := [];
    var t := 0;
    while t < |tryIdx|
      invariant 0 <= t <= |tryIdx| && rows == TryRows(x, score, e, k, t)
    {
      rows := rows + [Row(x, score, e, k, tryIdx[t])];
      t := t + 1;
      assert TryRows(x, score, e, k, t) == TryRows(x, score, e, k, t - 1) + [Row(x, score, e, k, tryIdx[t - 1])];
    }
  }

  /**
   * `a * b`, added up one `b` at a time: the row positions below are sums of
   * these, which keeps the reasoning about them linear.
   */
  function Mul(a: nat, b: nat): nat
  {
    if a == 0 then 0 else Mul(a - 1, b) + b
  }

  /** `Mul` is multiplication. */
  lemma {:induction false} MulIsProduct(a: nat, b: nat)
    ensures Mul(a, b) == a * b
  {
    if a > 0 {
      MulIsProduct(a - 1, b);
      assert (a - 1) * b + b == a * b;
    }
  }

  /** a * n + j < b * n when a < b and j < n. */
  lemma {:induction false} MulLess(a: nat, b: nat, n: nat, j: nat)
    requires a < b && j < n
    ensures Mul(a, n) + j < Mul(b, n) && Mul(a, n) + j + n <= Mul(b, n) + j
  {
    if a < b - 1 {
      MulLess(a, b - 1, n, j);
    }
  }

  lemma {:induction false} GroupRowsLen(x: Experiments, score: Score, e: nat, k: nat)
    requires Shaped(x) && e < |x.codes| && k <= x.groups
    ensures |GroupRows(x, score, e, k)| == Mul(k, |TrypsinFiles(x.codes)|)
  {
    if k > 0 {
      GroupRowsLen(x, score, e, k - 1);
    }
  }

  lemma {:induction false} FileRowsLen(x: Experiments, score: Score, e: nat)
    requires Shaped(x) && e <= |x.codes|
    ensures |FileRows(x, score, e)| == Mul(e, Mul(x.groups, |TrypsinFiles(x.codes)|))
  {
    if e > 0 {
      FileRowsLen(x, score, e - 1);
      GroupRowsLen(x, score, e - 1, x.groups);
    }
  }

  lemma {:induction false} GroupRowsAt(x: Experiments, score: Score, e: nat, k: nat, k0: nat, j: nat)
    requires Shaped(x) && e < |x.codes| && k <= x.groups && k0 < k
    requires j < |TrypsinFiles(x.codes)|
    ensures var n := |TrypsinFiles(x.codes)|;
      Mul(k0, n) + j < |GroupRows(x, score, e, k)| &&
      GroupRows(x, score, e, k)[Mul(k0, n) + j] == Row(x, score, e, k0, TrypsinFiles(x.codes)[j])
  {
    var n := |TrypsinFiles(x.codes)|;
    GroupRowsLen(x, score, e, k - 1);
    GroupRowsLen(x, score, e, k);
    MulLess(k0, k, n, j);
    var prev := GroupRows(x, score, e, k - 1);
    var last := TryRows(x, score, e, k - 1, n);
    assert GroupRows(x, score, e, k) == prev + last;
    if k0 < k - 1 {
      GroupRowsAt(x, score, e, k - 1, k0, j);
      MulLess(k0, k - 1, n, j);
    } else {
      assert Mul(k0, n) + j - |prev| == j;
    }
  }

  /**
   * Every (file, group, trypsin file) triple has its own row, trypsin files
   * paired with themselves included: the rows of a file come after those of
   * the files before it, group after group. The row of file `e0`, group `k0`
   * and trypsin file `j` sits at `(e0 * groups + k0) * n + j`, `Mul` standing
   * for the products.
   */
  lemma {:induction false} PairRowsAt(x: Experiments, score: Score, e: nat, e0: nat, k0: nat, j: nat)
    requires Shaped(x) && e <= |x.codes| && e0 < e && k0 < x.groups
    requires j < |TrypsinFiles(x.codes)|
    ensures var n := |TrypsinFiles(x.codes)|; var per := Mul(x.groups, n);
      Mul(e0, per) + Mul(k0, n) + j < |FileRows(x, score, e)| &&
      FileRows(x, score, e)[Mul(e0, per) + Mul(k0, n) + j] == Row(x, score, e0, k0, TrypsinFiles(x.codes)[j])
  {
    var n := |TrypsinFiles(x.codes)|;
    if e0 < e - 1 {
      PairRowsAt(x, score, e - 1, e0, k0, j);
      FileRowsPrefix(x, score, e, Mul(e0, Mul(x.groups, n)) + Mul(k0, n) + j);
    } else {
      FileRowsLast(x, score, e0, k0, j);
    }
  }

  /** The rows of the files before the last one come first. */
  lemma FileRowsPrefix(x: Experiments, score: Score, e: nat, pos: nat)
    requires Shaped(x) && 0 < e <= |x.codes| && pos < |FileRows(x, score, e - 1)|
    ensures pos < |FileRows(x, score, e)| && FileRows(x, score, e)[pos] == FileRows(x, score, e - 1)[pos]
  {
    assert FileRows(x, score, e) == FileRows(x, score, e - 1) + GroupRows(x, score, e - 1, x.groups);
  }

  /** The rows of file `e0` follow those of the files before it, group after group. */
  lemma FileRowsLast(x: Experiments, score: Score, e0: nat, k0: nat, j: nat)
    requires Shaped(x) && e0 < |x.codes| && k0 < x.groups
    requires j < |TrypsinFiles(x.codes)|
    ensures var n := |TrypsinFiles(x.codes)|; var per := Mul(x.groups, n);
      Mul(e0, per) + Mul(k0, n) + j < |FileRows(x, score, e0 + 1)| &&
      FileRows(x, score, e0 + 1)[Mul(e0, per) + Mul(k0, n) + j] == Row(x, score, e0, k0, TrypsinFiles(x.codes)[j])
  {
    var n := |TrypsinFiles(x.codes)|;
    var i := Mul(k0, n) + j;
    var prev := FileRows(x, score, e0);
    var here := GroupRows(x, score, e0, x.groups);
    assert FileRows(x, score, e0 + 1) == prev + here;
    FileRowsLen(x, score, e0);
    GroupRowsLen(x, score, e0, x.groups);
    GroupRowsAt(x, score, e0, x.groups, k0, j);
    assert (prev + here)[|prev| + i] == here[i];
  }

  // ---------------------------------------------------------------- the result table

  /** `exp_result_df` without alternative grouping, column by column. */
  datatype ResultTable = ResultTable(group: seq<String>, lower: seq<int>, upper: seq<int>, code: seq<String>,
                                     unfiltered: seq<real>, filtered: seq<real>)

  /** The table as the script assembles it: the filtered column is given the unfiltered list. */
  function Table(rows: seq<ScoreRow>): ResultTable
  {
    var unf := seq(|rows|, i requires 0 <= i < |rows| => rows[i].unfiltered);
    ResultTable(seq(|rows|, i requires 0 <= i < |rows| => rows[i].group),
                seq(|rows|, i requires 0 <= i < |rows| => rows[i].lower),
                seq(|rows|, i requires 0 <= i < |rows| => rows[i].upper),
                seq(|rows|, i requires 0 <= i < |rows| => rows[i].code),
                unf, unf)
  }

  /**
   * The table has one line per row, and its filtered column repeats the
   * unfiltered scores: a filtered score that differs is lost.
   */
  lemma TableColumns(rows: seq<ScoreRow>, i: int)
    requires 0 <= i < |rows|
    ensures var t := Table(rows);
      |t.group| == |t.filtered| == |rows| && t.filtered == t.unfiltered &&
      t.group[i] == rows[i].group && t.code[i] == rows[i].code && t.unfiltered[i] == rows[i].unfiltered &&
      (rows[i].filtered != rows[i].unfiltered ==> t.filtered[i] != rows[i].filtered)
  {
  }
}
