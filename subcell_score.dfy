/**
 * The score script run on an existing sampling table (the subcellular-location study):
 * every combination of the enzymes present, one result record per trial and
 * combination built from a fresh protein list, and the separation of the trypsin-only
 * baseline from the other results before they are joined to it. Its protein and
 * result classes are the ones of ProteinModel.
 */
module SubcellScore {
  import opened Wrappers
  import opened Strings
  import opened ProteinModel
  import opened Combinations

  /**
   * A row of the sampling table: the peptide's enzyme, protein, 1-based location and
   * sequence, and its value in each `sampling_N` column (parallel to the column names).
   */
  datatype SampledRow = SampledRow(enzyme: String, protein: String, location: int, peptide: String, samplings: seq<int>)

  /** `tmp_df[sampling_col]` for a missing column, or a `calcCoverage` failure. */
  datatype ScoreError = KeyError | CoverageFailed

  // ================================================================ combinations over the enzyme set

  /** `set(pep_df.Enzyme)`. */
  function EnzymeSet(rows: seq<SampledRow>): set<String>
  {
    set r | r in rows :: r.enzyme
  }

  /** An iteration order of a set: each member once. */
  predicate Enumerates(order: seq<String>, s: set<String>)
  {
    NoDuplicates(order) && (forall x :: x in order ==> x in s) && (forall x :: x in s ==> x in order)
  }

  lemma {:induction false} EnumerationExists(s: set<String>)
    ensures exists order :: Enumerates(order, s)
    decreases |s|
  {
    if s == {} {
      assert Enumerates([], s);
    } else {
      var x :| x in s;
      EnumerationExists(s - {x});
      var rest :| Enumerates(rest, s - {x});
      var order := rest + [x];
      assert forall i :: 0 <= i < |rest| ==> order[i] == rest[i];
      assert Enumerates(order, s);
    }
  }

  lemma {:induction false} EnumerationLength(order: seq<String>, s: set<String>)
    requires Enumerates(order, s)
    ensures |order| == |s|
    decreases |order|
  {
    if order != [] {
      var n := |order| - 1;
      var init := order[..n];
      assert order[n] !in init;
      assert Enumerates(init, s - {order[n]}) by {
        forall x ensures x in init <==> x in s - {order[n]} {
          if x in init {
            var i :| 0 <= i < n && init[i] == x;
            assert order[i] == x;
          }
          if x in s - {order[n]} {
            var i :| 0 <= i < |order| && order[i] == x;
            assert i < n && init[i] == x;
          }
        }
      }
      EnumerationLength(init, s - {order[n]});
    }
  }

  /**
   * The script's combinations: all combinations of 1..n enzymes, n the number of distinct
   * enzymes, in the order the set is iterated (any order, each enzyme once): 2^n - 1 of them.
   */
  method SubsetCombinations(rows: seq<SampledRow>) returns (r: seq<seq<String>>, order: seq<String>)
    ensures Enumerates(order, EnzymeSet(rows)) && |order| == |EnzymeSet(rows)|
    ensures r == AllCombos(order, |order|)
    ensures |r| == Pow2(|EnzymeSet(rows)|) - 1
    ensures forall c :: c in r <==> 1 <= |c| && SubseqOf(c, order)
  {
    var s := EnzymeSet(rows);
    EnumerationExists(s);
    order :| Enumerates(order, s);
    EnumerationLength(order, s);
    r := GetProteaseCombinations(order, |s|);
    forall c ensures c in AllCombos(order, |order|) <==> 1 <= |c| && SubseqOf(c, order) {
      AllCombosMembers(order, |order|, c);
      if SubseqOf(c, order) {
        SubseqLength(c, order);
      }
    }
    if |order| >= 1 {
      AllSizesCount(order, |s|);
    }
  }

  // ================================================================ the combination label

  /** The label of a result is "trypsin" exactly for the combination of trypsin alone. */
  lemma TrypsinLabel(c: seq<String>)
    requires |c| >= 1
    ensures Join(c, " - ") == "trypsin" <==> c == ["trypsin"]
  {
    if |c| >= 2 {
      var l, head := Join(c, " - "), c[0] + " - ";
      assert l == head + Join(c[1..], " - ");
      assert head[|c[0]|] == ' ';
      assert ' ' in l;
      assert ' ' !in "trypsin";
    }
  }

  // ================================================================ analyse_sampling

  /** The name of trial `t`'s column, `"sampling_" + str(t)`. */
  function TrialName(t: nat): String
  {
    "sampling_" + NatToString(t)
  }

  /** The position of a column name, the first one if it appears twice. */
  function ColumnIndex(columns: seq<String>, name: String): (r: Option<nat>)
    ensures r.Some? ==> r.value < |columns| && columns[r.value] == name
    ensures r.None? <==> name !in columns
  {
    if columns == [] then None
    else if columns[0] == name then Some(0)
    else match ColumnIndex(columns[1..], name)
      case None => None
      case Some(k) => Some(k + 1)
  }

  predicate WellFormed(rows: seq<SampledRow>, columns: seq<String>)
  {
    forall i :: 0 <= i < |rows| ==> |rows[i].samplings| == |columns|
  }

  /** The rows one trial fills in: enzyme in the combination and a 1 in column `col`, in row order. */
  function TrialRows(rows: seq<SampledRow>, combin: seq<String>, col: nat): (r: seq<PeptideRow>)
    requires forall i :: 0 <= i < |rows| ==> col < |rows[i].samplings|
  {
    if rows == [] then []
    else
      var last := rows[|rows| - 1];
      TrialRows(rows[..|rows| - 1], combin, col)
        + (if last.enzyme in combin && last.samplings[col] == 1 then [PeptideRow(last.protein, last.location, last.peptide)] else [])
  }

  /** A row belongs to a trial exactly when its enzyme is in the combination and its column holds 1. */
  lemma {:induction false} TrialRowsMembers(rows: seq<SampledRow>, combin: seq<String>, col: nat, x: PeptideRow)
    requires forall i :: 0 <= i < |rows| ==> col < |rows[i].samplings|
    ensures x in TrialRows(rows, combin, col) <==>
      exists i :: 0 <= i < |rows| && rows[i].enzyme in combin && rows[i].samplings[col] == 1 &&
        x == PeptideRow(rows[i].protein, rows[i].location, rows[i].peptide)
  {
    if rows != [] {
      var init := rows[..|rows| - 1];
      TrialRowsMembers(init, combin, col, x);
      assert forall i :: 0 <= i < |init| ==> init[i] == rows[i];
    }
  }

  /** What the proteins of one trial hold once filled: the FASTA records with their trial peptides. */
  function TrialData(fasta: seq<FastaRecord>, trial: seq<PeptideRow>): (r: seq<ProteinData>)
    ensures |r| == |fasta|
    ensures forall j :: 0 <= j < |fasta| ==>
      r[j] == ProteinData(fasta[j].id, fasta[j].sequence, |fasta[j].sequence|,
        PeptidesOf(trial, fasta[j].id), LocationsOf(trial, fasta[j].id), Lengths(PeptidesOf(trial, fasta[j].id)))
  {
    seq(|fasta|, j requires 0 <= j < |fasta| =>
      ProteinData(fasta[j].id, fasta[j].sequence, |fasta[j].sequence|,
        PeptidesOf(trial, fasta[j].id), LocationsOf(trial, fasta[j].id), Lengths(PeptidesOf(trial, fasta[j].id))))
  }

  function DataCounts(ds: seq<ProteinData>): (r: seq<nat>)
    ensures |r| == |ds| && forall j :: 0 <= j < |ds| ==> r[j] == |ds[j].peps|
  {
    seq(|ds|, j requires 0 <= j < |ds| => |ds[j].peps|)
  }

  function DataCoverages(ds: seq<ProteinData>): (r: seq<real>)
    requires !SomeCoverageFails(ds)
    ensures |r| == |ds| && forall j :: 0 <= j < |ds| ==> CoverageOf(ds[j]) == Ok(r[j])
  {
    seq(|ds|, j requires 0 <= j < |ds| => CoverageOf(ds[j]).value)
  }

  /** What a result record holds once `analyse_sampling` has filled it. */
  datatype TrialRecord = TrialRecord(combination: String, randomSampling: String, group: String, minPepsPerProt: int,
                                     numberProteins: nat, numberProteinsFiltered: nat,
                                     peptideCounts: seq<nat>, peptideCountsFiltered: seq<nat>,
                                     numberPeptidesTotal: nat, numberPeptidesTotalFiltered: nat,
                                     coverages: seq<real>, coveragesFiltered: seq<real>)

  function Summary(res: Results): TrialRecord
    reads res
  {
    TrialRecord(res.combination, res.randomSampling, res.group, res.minPepsPerProt,
      res.numberProteins, res.numberProteinsFiltered, res.peptideCounts, res.peptideCountsFiltered,
      res.numberPeptidesTotal, res.numberPeptidesTotalFiltered, res.coverages, res.coveragesFiltered)
  }

  function Summaries(rs: seq<Results>): (r: seq<TrialRecord>)
    reads rs
    ensures |r| == |rs| && forall i :: 0 <= i < |rs| ==> r[i] == Summary(rs[i])
  {
    seq(|rs|, i requires 0 <= i < |rs| reads rs => Summary(rs[i]))
  }

  /**
   * Trial `t` on its own: a missing `sampling_t` column is a KeyError, a protein whose
   * coverage cannot be computed stops it, and otherwise the record counts the trial's
   * proteins with at least one and at least two peptides.
   */
  function TrialOutcome(rows: seq<SampledRow>, columns: seq<String>, combin: seq<String>, grp: String,
                        fasta: seq<FastaRecord>, t: nat): Result<TrialRecord, ScoreError>
    requires WellFormed(rows, columns)
  {
    match ColumnIndex(columns, TrialName(t))
    case None => Err(KeyError)
    case Some(col) =>
      var data := TrialData(fasta, TrialRows(rows, combin, col));
      if SomeCoverageFails(data) then Err(CoverageFailed)
      else
        var counts := DataCounts(data);
        Ok(TrialRecord(Join(combin, " - "), TrialName(t), grp, 2,
          |AtLeast(counts, 1)|, |AtLeast(counts, 2)|, AtLeast(counts, 1), AtLeast(counts, 2),
          Sum(AtLeast(counts, 1)), Sum(AtLeast(counts, 2)),
          SelectAtLeast(counts, DataCoverages(data), 1), SelectAtLeast(counts, DataCoverages(data), 2)))
  }

  /** The outcomes of trials 1..n, each on its own. */
  function TrialOutcomes(rows: seq<SampledRow>, columns: seq<String>, combin: seq<String>, grp: String,
                         fasta: seq<FastaRecord>, n: nat): (r: seq<Result<TrialRecord, ScoreError>>)
    requires WellFormed(rows, columns)
    ensures |r| == n
  {
    if n == 0 then [] else TrialOutcomes(rows, columns, combin, grp, fasta, n - 1) + [TrialOutcome(rows, columns, combin, grp, fasta, n)]
  }

  lemma {:induction false} TrialOutcomesAt(rows: seq<SampledRow>, columns: seq<String>, combin: seq<String>, grp: String,
                                           fasta: seq<FastaRecord>, n: nat, u: nat)
    requires WellFormed(rows, columns) && u < n
    ensures TrialOutcomes(rows, columns, combin, grp, fasta, n)[u] == TrialOutcome(rows, columns, combin, grp, fasta, u + 1)
  {
    if u < n - 1 {
      TrialOutcomesAt(rows, columns, combin, grp, fasta, n - 1, u);
    }
  }

  /** A fresh protein list from the FASTA records, filled with one trial's rows. */
  method TrialProteins(fasta: seq<FastaRecord>, trial: seq<PeptideRow>) returns (ps: seq<Protein>)
    ensures forall i :: 0 <= i < |ps| ==> fresh(ps[i])
    ensures Distinct(ps) && AllValid(ps)
    ensures Snapshot(ps) == TrialData(fasta, trial)
  {
    ps := MakeProteinList(fasta);
    FillProteinList(ps, trial);
    FilledData(ps, fasta, trial, TrialData(fasta, trial));
  }

  lemma FilledData(ps: seq<Protein>, fasta: seq<FastaRecord>, trial: seq<PeptideRow>, data: seq<ProteinData>)
    requires |ps| == |fasta| && AllValid(ps) && data == TrialData(fasta, trial)
    requires forall i :: 0 <= i < |ps| ==>
      ps[i].id == fasta[i].id && ps[i].sequence == fasta[i].sequence &&
      ps[i].peps == [] + PeptidesOf(trial, ps[i].id) && ps[i].pepPos == [] + LocationsOf(trial, ps[i].id) &&
      ps[i].pepLength == [] + Lengths(PeptidesOf(trial, ps[i].id))
    ensures Snapshot(ps) == data
  {
    forall j | 0 <= j < |ps|
      ensures Snapshot(ps)[j] == data[j]
    {
      assert ps[j].Valid();
      assert [] + PeptidesOf(trial, ps[j].id) == PeptidesOf(trial, ps[j].id);
      assert [] + LocationsOf(trial, ps[j].id) == LocationsOf(trial, ps[j].id);
      assert [] + Lengths(PeptidesOf(trial, ps[j].id)) == Lengths(PeptidesOf(trial, ps[j].id));
    }
  }

  /** Trial `u + 1` of `analyse_sampling`: fresh proteins filled with the trial's rows, then a new record. */
  method RunTrial(rows: seq<SampledRow>, columns: seq<String>, combin: seq<String>, grp: String,
                  fasta: seq<FastaRecord>, n: nat, u: nat)
    returns (r: Result<Results, ScoreError>)
    requires WellFormed(rows, columns) && u < n
    ensures r.Err? ==> TrialOutcomes(rows, columns, combin, grp, fasta, n)[u] == Err(r.error)
    ensures r.Ok? ==> fresh(r.value) && TrialOutcomes(rows, columns, combin, grp, fasta, n)[u] == Ok(Summary(r.value))
  {
    TrialOutcomesAt(rows, columns, combin, grp, fasta, n, u);
    var t := u + 1;
    var col := ColumnIndex(columns, TrialName(t));
    if col.None? {
      return Err(KeyError);
    }
    var trial := TrialRows(rows, combin, col.value);
    var ps := TrialProteins(fasta, trial);
    r := ScoreTrial(ps, TrialData(fasta, trial), combin, TrialName(t), grp);
  }

  /** A new result record for one trial's filled proteins, coverages recomputed; `CoverageFailed` when one cannot be. */
  method ScoreTrial(ps: seq<Protein>, data: seq<ProteinData>, combin: seq<String>, name: String, grp: String)
    returns (r: Result<Results, ScoreError>)
    requires AllValid(ps) && Distinct(ps) && Snapshot(ps) == data
    modifies ps
    ensures r.Err? <==> SomeCoverageFails(data)
    ensures r.Err? ==> r.error == CoverageFailed
    ensures r.Ok? ==> fresh(r.value)
    ensures r.Ok? ==> var counts := DataCounts(data);
      Summary(r.value) == TrialRecord(Join(combin, " - "), name, grp, 2,
        |AtLeast(counts, 1)|, |AtLeast(counts, 2)|, AtLeast(counts, 1), AtLeast(counts, 2),
        Sum(AtLeast(counts, 1)), Sum(AtLeast(counts, 2)),
        SelectAtLeast(counts, DataCoverages(data), 1), SelectAtLeast(counts, DataCoverages(data), 2))
  {
    var res := new Results(combin, name, grp, 2);
    var failure := res.GetResults(ps, true);
    if failure.Some? {
      return Err(CoverageFailed);
    }
    TrialCountsAre(ps, data);
    SummaryOfFilled(res, DataCounts(data), DataCoverages(data));
    r := Ok(res);
  }

  /** A record filled from peptide counts `counts` and coverages `covs` at threshold 2. */
  lemma SummaryOfFilled(res: Results, counts: seq<nat>, covs: seq<real>)
    requires res.minPepsPerProt == 2 && res.Counted(counts) && res.Collected(counts, covs)
    ensures Summary(res) == TrialRecord(res.combination, res.randomSampling, res.group, 2,
      |AtLeast(counts, 1)|, |AtLeast(counts, 2)|, AtLeast(counts, 1), AtLeast(counts, 2),
      Sum(AtLeast(counts, 1)), Sum(AtLeast(counts, 2)),
      SelectAtLeast(counts, covs, 1), SelectAtLeast(counts, covs, 2))
  {
  }

  /**
   * `analyse_sampling`: for trials 1..max, a fresh protein list from the FASTA records,
   * filled with the trial's rows only, and a new result record with coverages recomputed.
   * The first trial whose column is missing or whose coverage fails stops the analysis.
   */
  method AnalyseSampling(rows: seq<SampledRow>, columns: seq<String>, combin: seq<String>, grp: String,
                         maxSampling: int, fasta: seq<FastaRecord>)
    returns (r: Result<seq<Results>, ScoreError>)
    requires WellFormed(rows, columns)
    ensures var os := TrialOutcomes(rows, columns, combin, grp, fasta, if maxSampling < 0 then 0 else maxSampling);
      r.Err? ==> FirstError(os) == Err(r.error)
    ensures var os := TrialOutcomes(rows, columns, combin, grp, fasta, if maxSampling < 0 then 0 else maxSampling);
      r.Ok? ==> FirstError(os) == Ok(Summaries(r.value))
    ensures r.Ok? ==> forall u :: 0 <= u < |r.value| ==> fresh(r.value[u])
  {
    var n: nat := if maxSampling < 0 then 0 else maxSampling;
    ghost var os := TrialOutcomes(rows, columns, combin, grp, fasta, n);
    var out: seq<Results> := [];
    while |out| < n
      invariant |out| <= n
      invariant FirstError(os[..|out|]) == Ok(Summaries(out))
      invariant forall u :: 0 <= u < |out| ==> fresh(out[u])
    {
      var res := RunTrial(rows, columns, combin, grp, fasta, n, |out|);
      FirstErrorSnoc(os, |out|);
      if res.Err? {
        FirstErrorStops(os, |out| + 1);
        return Err(res.error);
      }
      assert Summaries(out + [res.value]) == Summaries(out) + [Summary(res.value)];
      out := out + [res.value];
    }
    assert os[..n] == os;
    r := Ok(out);
  }

  lemma TrialCountsAre(ps: seq<Protein>, data: seq<ProteinData>)
    requires Snapshot(ps) == data && CoveragesComputed(ps)
    ensures PepCounts(ps) == DataCounts(data)
    ensures !SomeCoverageFails(data) && Coverages(ps) == DataCoverages(data)
  {
    assert forall j :: 0 <= j < |ps| ==> Data(ps[j]) == data[j];
  }

  // ================================================================ the trypsin baseline

  /** The combination labels of a list of results. */
  function Labels(rs: seq<Results>): (r: seq<String>)
    reads rs
    ensures |r| == |rs| && forall i :: 0 <= i < |rs| ==> r[i] == rs[i].combination
  {
    seq(|rs|, i requires 0 <= i < |rs| reads rs => rs[i].combination)
  }

  /** The entries whose label is "trypsin" (`want`) or is not (`!want`), in order. */
  function Pick<T>(xs: seq<T>, labels: seq<String>, want: bool): seq<T>
    requires |xs| == |labels|
  {
    if xs == [] then []
    else
      var n := |xs| - 1;
      Pick(xs[..n], labels[..n], want) + (if (labels[n] == "trypsin") == want then [xs[n]] else [])
  }

  /** The positions whose label is "trypsin", increasing. */
  function TrypsinIndices(labels: seq<String>): (r: seq<nat>)
    ensures forall k :: 0 <= k < |r| ==> r[k] < |labels|
    ensures forall k, l :: 0 <= k < l < |r| ==> r[k] < r[l]
    ensures forall i :: 0 <= i < |labels| ==> (i in r <==> labels[i] == "trypsin")
  {
    if labels == [] then []
    else
      var n := |labels| - 1;
      assert forall i :: 0 <= i < n ==> labels[..n][i] == labels[i];
      TrypsinIndices(labels[..n]) + (if labels[n] == "trypsin" then [n] else [])
  }

  /** The list without the entries at the positions in `del`. */
  function Without<T>(xs: seq<T>, del: set<nat>): seq<T>
  {
    if xs == [] then []
    else Without(xs[..|xs| - 1], del) + (if |xs| - 1 in del then [] else [xs[|xs| - 1]])
  }

  lemma {:induction false} WithoutAbove<T>(xs: seq<T>, del: set<nat>)
    requires forall x :: x in del ==> x >= |xs|
    ensures Without(xs, del) == xs
  {
    if xs != [] {
      WithoutAbove(xs[..|xs| - 1], del);
    }
  }

  /**
   * Deleting position `d` from the list that already lost only positions above `d`
   * removes entry `d` of the original: `del result_list[idx]` in decreasing order.
   */
  lemma {:induction false} WithoutDelete<T>(xs: seq<T>, del: set<nat>, d: nat)
    requires d < |xs| && forall x :: x in del ==> x > d
    ensures var w := Without(xs, del);
      d < |w| && Without(xs, del + {d}) == w[..d] + w[d + 1..]
  {
    var n := |xs| - 1;
    var init := xs[..n];
    if d == n {
      WithoutAbove(init, del);
      WithoutAbove(init, del + {d});
    } else {
      WithoutDelete(init, del, d);
      var a := Without(init, del);
      var tail := if n in del then [] else [xs[n]];
      assert Without(xs, del) == a + tail;
      assert Without(xs, del + {d}) == Without(init, del + {d}) + tail;
      assert (a + tail)[..d] == a[..d];
      assert (a + tail)[d + 1..] == a[d + 1..] + tail;
    }
  }

  /** Removing the trypsin positions leaves exactly the other entries, in order. */
  lemma {:induction false} WithoutTrypsin<T>(xs: seq<T>, labels: seq<String>)
    requires |xs| == |labels|
    ensures Without(xs, Members(TrypsinIndices(labels))) == Pick(xs, labels, false)
  {
    if xs != [] {
      var n := |xs| - 1;
      var s := Members(TrypsinIndices(labels));
      var s' := Members(TrypsinIndices(labels[..n]));
      WithoutTrypsin(xs[..n], labels[..n]);
      assert forall k: nat :: k in s && k < n <==> k in s' by {
        forall k: nat ensures k in s && k < n <==> k in s' {
          if k < n {
            assert labels[..n][k] == labels[k];
          }
        }
      }
      WithoutBelow(xs[..n], s, s');
      assert n in s <==> labels[n] == "trypsin";
    }
  }

  lemma {:induction false} WithoutBelow<T>(xs: seq<T>, a: set<nat>, b: set<nat>)
    requires forall k: nat :: k in a && k < |xs| <==> k in b && k < |xs|
    ensures Without(xs, a) == Without(xs, b)
  {
    if xs != [] {
      WithoutBelow(xs[..|xs| - 1], a, b);
    }
  }

  /** The first pass of the separation: the results labelled "trypsin" and their positions. */
  method CollectTrypsin(rs: seq<Results>) returns (trypsin: seq<Results>, idx: seq<nat>)
    ensures trypsin == Pick(rs, Labels(rs), true)
    ensures idx == TrypsinIndices(Labels(rs))
  {
    ghost var labels := Labels(rs);
    trypsin := [];
    idx := [];
    var i := 0;
    while i < |rs|
      invariant 0 <= i <= |rs|
      invariant trypsin == Pick(rs[..i], labels[..i], true)
      invariant idx == TrypsinIndices(labels[..i])
    {
      TrypsinStep(rs, labels, i);
      if rs[i].combination == "trypsin" {
        trypsin := trypsin + [rs[i]];
        idx := idx + [i];
      }
      i := i + 1;
    }
    assert rs[..i] == rs && labels[..i] == labels;
  }

  lemma TrypsinStep<T>(xs: seq<T>, labels: seq<String>, i: nat)
    requires |xs| == |labels| && i < |xs|
    ensures Pick(xs[..i + 1], labels[..i + 1], true)
         == Pick(xs[..i], labels[..i], true) + (if labels[i] == "trypsin" then [xs[i]] else [])
    ensures TrypsinIndices(labels[..i + 1]) == TrypsinIndices(labels[..i]) + (if labels[i] == "trypsin" then [i] else [])
  {
    assert xs[..i + 1][..i] == xs[..i] && labels[..i + 1][..i] == labels[..i];
  }

  predicate Increasing(idx: seq<nat>)
  {
    forall k, l :: 0 <= k < l < |idx| ==> idx[k] < idx[l]
  }

  /** The positions a list names. */
  function Members(idx: seq<nat>): set<nat>
  {
    set m | m in idx
  }

  /** `for idx in sorted(idx_list, reverse=True): del xs[idx]`. */
  method DeleteIndices<T>(xs: seq<T>, idx: seq<nat>) returns (r: seq<T>)
    requires Increasing(idx) && forall k :: 0 <= k < |idx| ==> idx[k] < |xs|
    ensures r == Without(xs, Members(idx))
  {
    r := xs;
    var k := |idx|;
    WithoutAbove(xs, Members(idx[k..]));
    while k > 0
      invariant 0 <= k <= |idx|
      invariant r == Without(xs, Members(idx[k..]))
    {
      k := k - 1;
      var d := idx[k];
      ghost var rest := idx[k + 1..];
      forall x | x in Members(rest)
        ensures x > d
      {
        var l :| 0 <= l < |rest| && rest[l] == x;
        assert idx[k + 1 + l] == x;
      }
      WithoutDelete(xs, Members(rest), d);
      assert idx[k..] == [d] + rest;
      assert Members(idx[k..]) == Members(rest) + {d};
      r := r[..d] + r[d + 1..];
    }
    assert idx[0..] == idx;
  }

  /**
   * The script's separation: collect the results labelled "trypsin" with their positions,
   * then delete those positions from the list in decreasing order.
   */
  method SeparateTrypsin(rs: seq<Results>) returns (trypsin: seq<Results>, other: seq<Results>)
    ensures trypsin == Pick(rs, Labels(rs), true)
    ensures other == Pick(rs, Labels(rs), false)
  {
    var idx;
    trypsin, idx := CollectTrypsin(rs);
    other := DeleteIndices(rs, idx);
    WithoutTrypsin(rs, Labels(rs));
  }

  /** The two parts of the separation share the results between them: sizes add up. */
  lemma {:induction false} PickSizes<T>(xs: seq<T>, labels: seq<String>)
    requires |xs| == |labels|
    ensures |Pick(xs, labels, true)| + |Pick(xs, labels, false)| == |xs|
    ensures multiset(Pick(xs, labels, true)) + multiset(Pick(xs, labels, false)) == multiset(xs)
  {
    if xs != [] {
      var n := |xs| - 1;
      var init := xs[..n];
      PickSizes(init, labels[..n]);
      var last: seq<T> := [xs[n]];
      var a := Pick(init, labels[..n], true);
      var b := Pick(init, labels[..n], false);
      SplitLast(xs);
      assert multiset(xs) == multiset(init) + multiset(last);
      PickSnoc(xs, labels, true);
      PickSnoc(xs, labels, false);
      if labels[n] == "trypsin" {
        assert multiset(a + last) == multiset(a) + multiset(last);
      } else {
        assert multiset(b + last) == multiset(b) + multiset(last);
      }
    }
  }

  lemma PickSnoc<T>(xs: seq<T>, labels: seq<String>, want: bool)
    requires |xs| == |labels| && xs != []
    ensures var n := |xs| - 1;
      Pick(xs, labels, want) == Pick(xs[..n], labels[..n], want) + (if (labels[n] == "trypsin") == want then [xs[n]] else [])
  {
  }

  /** The separated results carry exactly the labels they were selected for. */
  lemma {:induction false} PickMembers<T>(xs: seq<T>, labels: seq<String>, want: bool, x: T)
    requires |xs| == |labels|
    ensures x in Pick(xs, labels, want) <==> exists i :: 0 <= i < |xs| && xs[i] == x && (labels[i] == "trypsin") == want
  {
    if xs != [] {
      var n := |xs| - 1;
      PickMembers(xs[..n], labels[..n], want, x);
      assert forall i :: 0 <= i < n ==> xs[..n][i] == xs[i] && labels[..n][i] == labels[i];
    }
  }

  // ================================================================ the join on (sampling, group)

  /** The columns the other results are joined to the trypsin results on. */
  datatype JoinKey = JoinKey(sampling: String, grp: String)

  function Keys(rs: seq<Results>): (r: seq<JoinKey>)
    reads rs
    ensures |r| == |rs| && forall i :: 0 <= i < |rs| ==> r[i] == JoinKey(rs[i].randomSampling, rs[i].group)
  {
    seq(|rs|, i requires 0 <= i < |rs| reads rs => JoinKey(rs[i].randomSampling, rs[i].group))
  }

  /** The right entries whose key is `k`, in order. */
  function Matches<R>(right: seq<R>, rk: seq<JoinKey>, k: JoinKey): seq<R>
    requires |right| == |rk|
  {
    if right == [] then []
    else
      var n := |right| - 1;
      Matches(right[..n], rk[..n], k) + (if rk[n] == k then [right[n]] else [])
  }

  /** One left entry's rows of the left join: one per match, or one without a partner. */
  function JoinRows<L, R>(l: L, ms: seq<R>): (r: seq<(L, Option<R>)>)
    ensures |r| >= 1
  {
    if ms == [] then [(l, None)] else seq(|ms|, j requires 0 <= j < |ms| => (l, Some(ms[j])))
  }

  /** `merge(left, right, on=[sampling, group], how='left')`, in left order. */
  function LeftJoin<L, R>(left: seq<L>, lk: seq<JoinKey>, right: seq<R>, rk: seq<JoinKey>): seq<(L, Option<R>)>
    requires |left| == |lk| && |right| == |rk|
  {
    if left == [] then []
    else
      var n := |left| - 1;
      LeftJoin(left[..n], lk[..n], right, rk) + JoinRows(left[n], Matches(right, rk, lk[n]))
  }

  /** No left entry is lost: the join has at least as many rows, and every left entry is in it. */
  lemma {:induction false} LeftJoinKeepsLeft<L, R>(left: seq<L>, lk: seq<JoinKey>, right: seq<R>, rk: seq<JoinKey>)
    requires |left| == |lk| && |right| == |rk|
    ensures |LeftJoin(left, lk, right, rk)| >= |left|
    ensures forall i :: 0 <= i < |left| ==>
      exists k :: 0 <= k < |LeftJoin(left, lk, right, rk)| && LeftJoin(left, lk, right, rk)[k].0 == left[i]
  {
    if left != [] {
      var n := |left| - 1;
      var init: seq<(L, Option<R>)> := LeftJoin(left[..n], lk[..n], right, rk);
      var rows: seq<(L, Option<R>)> := JoinRows(left[n], Matches(right, rk, lk[n]));
      var all: seq<(L, Option<R>)> := init + rows;
      LeftJoinKeepsLeft(left[..n], lk[..n], right, rk);
      assert LeftJoin(left, lk, right, rk) == all;
      forall i | 0 <= i < |left|
        ensures exists k :: 0 <= k < |all| && all[k].0 == left[i]
      {
        if i < n {
          assert left[..n][i] == left[i];
          var k :| 0 <= k < |init| && init[k].0 == left[i];
          assert all[k] == init[k];
        } else {
          assert all[|init|] == rows[0];
        }
      }
    }
  }

  lemma {:induction false} MatchesUnique<R>(right: seq<R>, rk: seq<JoinKey>, k: JoinKey)
    requires |right| == |rk| && forall a, b :: 0 <= a < b < |rk| ==> rk[a] != rk[b]
    ensures |Matches(right, rk, k)| <= 1
    ensures Matches(right, rk, k) == [] <==> k !in rk
    ensures forall j :: 0 <= j < |rk| && rk[j] == k ==> Matches(right, rk, k) == [right[j]]
  {
    if right != [] {
      var n := |right| - 1;
      MatchesUnique(right[..n], rk[..n], k);
      assert forall j :: 0 <= j < n ==> rk[..n][j] == rk[j] && right[..n][j] == right[j];
      if rk[n] == k {
        assert k !in rk[..n];
      }
    }
  }

  /**
   * With one trypsin result per (sampling, group), the join has exactly one row per
   * other result, in order, paired with the trypsin result of its key when there is one.
   */
  lemma {:induction false} LeftJoinUnique<L, R>(left: seq<L>, lk: seq<JoinKey>, right: seq<R>, rk: seq<JoinKey>)
    requires |left| == |lk| && |right| == |rk|
    requires forall a, b :: 0 <= a < b < |rk| ==> rk[a] != rk[b]
    ensures JoinedAll(LeftJoin(left, lk, right, rk), left, lk, right, rk)
  {
    if left != [] {
      var n := |left| - 1;
      LeftJoinUnique(left[..n], lk[..n], right, rk);
      var prev := LeftJoin(left[..n], lk[..n], right, rk);
      var last := JoinRows(left[n], Matches(right, rk, lk[n]));
      LastJoined(left[n], lk[n], right, rk);
      var j := prev + last;
      assert LeftJoin(left, lk, right, rk) == j;
      forall i | 0 <= i < |left| ensures JoinedRow(j[i], left[i], lk[i], right, rk) {
        if i < n {
          assert j[i] == prev[i] && left[..n][i] == left[i] && lk[..n][i] == lk[i];
        } else {
          assert j[i] == last[0];
        }
      }
    }
  }

  /** The join has one row per left entry, row i joined for left entry i. */
  ghost predicate JoinedAll<L, R>(j: seq<(L, Option<R>)>, left: seq<L>, lk: seq<JoinKey>, right: seq<R>, rk: seq<JoinKey>)
    requires |left| == |lk| && |right| == |rk|
  {
    |j| == |left| && forall i :: 0 <= i < |left| ==> JoinedRow(j[i], left[i], lk[i], right, rk)
  }

  /**
   * A row of the join for left entry `l` with key `k`: `l` itself, no partner exactly when the key
   * is missing on the right, and otherwise the right entry of that key.
   */
  ghost predicate JoinedRow<L, R>(row: (L, Option<R>), l: L, k: JoinKey, right: seq<R>, rk: seq<JoinKey>)
    requires |right| == |rk|
  {
    row.0 == l && (row.1.None? <==> k !in rk) &&
    forall m :: 0 <= m < |rk| && rk[m] == k ==> row.1 == Some(right[m])
  }

  /** With unique right keys, one left entry gives one joined row. */
  lemma LastJoined<L, R>(l: L, k: JoinKey, right: seq<R>, rk: seq<JoinKey>)
    requires |right| == |rk| && forall a, b :: 0 <= a < b < |rk| ==> rk[a] != rk[b]
    ensures var rows := JoinRows(l, Matches(right, rk, k)); |rows| == 1 && JoinedRow(rows[0], l, k, right, rk)
  {
    MatchesUnique(right, rk, k);
  }
}
