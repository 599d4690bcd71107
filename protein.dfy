/**
 * The protein record that one sampling trial fills with peptides, the per-trial
 * result record that counts proteins and peptides, and the two helpers that build
 * and fill the protein list.
 *
 * Peptide positions are 1-based. Coverage marks every residue a peptide spans in a
 * copy of the sequence and divides the number of marked residues by the length.
 */
module ProteinModel {
  import opened Wrappers
  import opened Strings

  datatype CoverageError = IndexError | ZeroDivision

  /** One FASTA record: identifier and residue sequence. */
  datatype FastaRecord = FastaRecord(id: String, sequence: String)

  /** One selected peptide row: the protein it maps to, its 1-based location, its sequence. */
  datatype PeptideRow = PeptideRow(protein: String, location: int, peptide: String)

  // ------------------------------------------------------------------ coverage specification

  /** Every index a peptide at `pos` with `len` residues writes to is a valid list index. */
  predicate SpanInRange(pos: int, len: int, n: nat)
  {
    len <= 0 || (-(n as int) <= pos - 1 && pos - 1 + len <= n)
  }

  predicate AllSpansInRange(pos: seq<int>, len: seq<int>, n: nat)
    requires |pos| == |len|
  {
    forall m :: 0 <= m < |pos| ==> SpanInRange(pos[m], len[m], n)
  }

  /** Cell `k` of the copy is overwritten by the span (directly, or through a negative index). */
  predicate SpanHits(pos: int, len: int, n: nat, k: int)
  {
    (pos - 1 <= k < pos - 1 + len) || (pos - 1 <= k - n < pos - 1 + len)
  }

  /** Cell `k` holds "z" after the first `j` peptides have been marked. */
  predicate MarkedUpTo(s: String, pos: seq<int>, len: seq<int>, j: nat, k: nat)
    requires |pos| == |len| && j <= |pos| && k < |s|
  {
    if j == 0 then s[k] == 'z'
    else MarkedUpTo(s, pos, len, j - 1, k) || SpanHits(pos[j - 1], len[j - 1], |s|, k)
  }

  /** Number of cells among the first `m` that hold "z" once every peptide is marked. */
  function MarkedCount(s: String, pos: seq<int>, len: seq<int>, m: nat): nat
    requires |pos| == |len| && m <= |s|
  {
    if m == 0 then 0
    else MarkedCount(s, pos, len, m - 1) + (if MarkedUpTo(s, pos, len, |pos|, m - 1) then 1 else 0)
  }

  /** What `calcCoverage` returns or raises for a sequence and its peptide spans. */
  function Coverage(s: String, pos: seq<int>, len: seq<int>): Result<real, CoverageError>
    requires |pos| == |len|
  {
    if !AllSpansInRange(pos, len, |s|) then Err(IndexError)
    else if |s| == 0 then Err(ZeroDivision)
    else Ok(MarkedCount(s, pos, len, |s|) as real / |s| as real)
  }

  // ------------------------------------------------------------------ coverage properties

  /** 0-based residue `k` lies inside the 1-based span of some peptide. */
  predicate InSomeSpan(pos: seq<int>, len: seq<int>, k: int)
    requires |pos| == |len|
  {
    exists m :: 0 <= m < |pos| && pos[m] - 1 <= k < pos[m] - 1 + len[m]
  }

  /** The residues covered by at least one peptide. */
  function CoveredResidues(pos: seq<int>, len: seq<int>, n: nat): set<int>
    requires |pos| == |len|
  {
    set k | 0 <= k < n && InSomeSpan(pos, len, k)
  }

  /** Spans inside 1..length, on a sequence without "z": a cell is marked iff some span covers it. */
  lemma {:induction false} MarkedIsUnion(s: String, pos: seq<int>, len: seq<int>, j: nat, k: nat)
    requires |pos| == |len| && j <= |pos| && k < |s|
    requires forall m :: 0 <= m < |pos| ==> pos[m] >= 1
    requires 'z' !in s
    ensures MarkedUpTo(s, pos, len, j, k) <==> exists m :: 0 <= m < j && pos[m] - 1 <= k < pos[m] - 1 + len[m]
  {
    if j > 0 {
      MarkedIsUnion(s, pos, len, j - 1, k);
    }
  }

  lemma {:induction false} MarkedCountIsUnion(s: String, pos: seq<int>, len: seq<int>, m: nat)
    requires |pos| == |len| && m <= |s|
    requires forall i :: 0 <= i < |pos| ==> pos[i] >= 1
    requires 'z' !in s
    ensures MarkedCount(s, pos, len, m) == |CoveredResidues(pos, len, m)|
  {
    if m > 0 {
      MarkedCountIsUnion(s, pos, len, m - 1);
      MarkedIsUnion(s, pos, len, |pos|, m - 1);
      var prev, cur := CoveredResidues(pos, len, m - 1), CoveredResidues(pos, len, m);
      if InSomeSpan(pos, len, m - 1) {
        assert cur == prev + {m - 1};
      } else {
        assert cur == prev;
      }
    }
  }

  /**
   * With every span inside 1..length and no "z" in the sequence, the coverage is the
   * number of distinct residues covered by some peptide, over the length: overlaps count once.
   */
  lemma CoverageIsUnionOverLength(s: String, pos: seq<int>, len: seq<int>)
    requires |pos| == |len| && |s| > 0 && 'z' !in s
    requires forall m :: 0 <= m < |pos| ==> 1 <= pos[m] && pos[m] - 1 + len[m] <= |s|
    ensures Coverage(s, pos, len) == Ok(|CoveredResidues(pos, len, |s|)| as real / |s| as real)
  {
    MarkedCountIsUnion(s, pos, len, |s|);
  }

  lemma {:induction false} MarkedCountBound(s: String, pos: seq<int>, len: seq<int>, m: nat)
    requires |pos| == |len| && m <= |s|
    ensures MarkedCount(s, pos, len, m) <= m
  {
    if m > 0 { MarkedCountBound(s, pos, len, m - 1); }
  }

  /** A computed coverage lies in [0, 1]. */
  lemma CoverageInUnitInterval(s: String, pos: seq<int>, len: seq<int>)
    requires |pos| == |len| && Coverage(s, pos, len).Ok?
    ensures 0.0 <= Coverage(s, pos, len).value <= 1.0
  {
    MarkedCountBound(s, pos, len, |s|);
  }

  lemma {:induction false} MarkedCountAll(s: String, pos: seq<int>, len: seq<int>, m: nat)
    requires |pos| == |len| && m <= |s|
    requires forall k :: 0 <= k < m ==> MarkedUpTo(s, pos, len, |pos|, k)
    ensures MarkedCount(s, pos, len, m) == m
  {
    if m > 0 { MarkedCountAll(s, pos, len, m - 1); }
  }

  /** Peptides that together cover every residue 1..length give coverage exactly 1. */
  lemma FullTilingCoverage(s: String, pos: seq<int>, len: seq<int>)
    requires |pos| == |len| && |s| > 0
    requires AllSpansInRange(pos, len, |s|)
    requires forall k :: 0 <= k < |s| ==> InSomeSpan(pos, len, k)
    ensures Coverage(s, pos, len) == Ok(1.0)
  {
    forall k | 0 <= k < |s| ensures MarkedUpTo(s, pos, len, |pos|, k) {
      assert InSomeSpan(pos, len, k);
      var m :| 0 <= m < |pos| && pos[m] - 1 <= k < pos[m] - 1 + len[m];
      MarkedFromSpan(s, pos, len, |pos|, m, k);
    }
    MarkedCountAll(s, pos, len, |s|);
    assert MarkedCount(s, pos, len, |s|) == |s|;
    assert |s| as real / |s| as real == 1.0;
  }

  lemma {:induction false} MarkedFromSpan(s: String, pos: seq<int>, len: seq<int>, j: nat, m: nat, k: nat)
    requires |pos| == |len| && m < j <= |pos| && k < |s|
    requires SpanHits(pos[m], len[m], |s|, k)
    ensures MarkedUpTo(s, pos, len, j, k)
  {
    if m < j - 1 { MarkedFromSpan(s, pos, len, j - 1, m, k); }
  }

  lemma {:induction false} MarkedCountNone(s: String, m: nat)
    requires m <= |s| && 'z' !in s
    ensures MarkedCount(s, [], [], m) == 0
  {
    if m > 0 { MarkedCountNone(s, m - 1); }
  }

  /** A protein without peptides (and without "z" residues) has coverage 0. */
  lemma NoPeptidesNoCoverage(s: String)
    requires |s| > 0 && 'z' !in s
    ensures Coverage(s, [], []) == Ok(0.0)
  {
    MarkedCountNone(s, |s|);
  }

  /** Position 0 is index -1 in Python, so it marks the last residue. */
  lemma PositionZeroWrapsToLastResidue()
    ensures Coverage("ABC", [0], [1]) == Ok(1.0 / 3.0)
  {
    assert !MarkedUpTo("ABC", [0], [1], 1, 0) && !MarkedUpTo("ABC", [0], [1], 1, 1);
    assert MarkedUpTo("ABC", [0], [1], 1, 2);
    assert MarkedCount("ABC", [0], [1], 2) == 0;
  }

  /** A span running past the end raises IndexError. */
  lemma SpanPastEndRaises()
    ensures Coverage("ABC", [2], [3]) == Err(IndexError)
  {
    assert !SpanInRange(2, 3, 3);
  }

  /** A residue that already reads "z" is counted as covered. */
  lemma ResidueZCounted()
    ensures Coverage("Az", [], []) == Ok(1.0 / 2.0)
  {
    assert !MarkedUpTo("Az", [], [], 0, 0) && MarkedUpTo("Az", [], [], 0, 1);
    assert MarkedCount("Az", [], [], 1) == 0;
  }

  // ------------------------------------------------------------------ the protein record

  function Lengths(p: seq<String>): (r: seq<int>)
    ensures |r| == |p|
    ensures forall i :: 0 <= i < |p| ==> r[i] == |p[i]|
  {
    if p == [] then [] else Lengths(p[..|p| - 1]) + [|p[|p| - 1]|]
  }

  class Protein {
    var id: String
    var sequence: String
    var length: nat
    var peps: seq<String>
    var pepPos: seq<int>
    var pepLength: seq<int>
    var coverage: real

    /** The three peptide lists stay parallel and `length` is the sequence length. */
    ghost predicate Valid()
      reads this
    {
      |peps| == |pepPos| == |pepLength| && length == |sequence|
    }

    constructor (identifier: String, residues: String)
      ensures Valid()
      ensures id == identifier && sequence == residues && length == |residues|
      ensures peps == [] && pepPos == [] && pepLength == [] && coverage == 0.0
    {
      id := identifier;
      sequence := residues;
      length := |residues|;
      peps := [];
      pepPos := [];
      pepLength := [];
      coverage := 0.0;
    }

    /** Appends one peptide with the length given by the caller. */
    method AddPep(peptide: String, position: int, peptideLength: int)
      requires Valid()
      modifies this`peps, this`pepPos, this`pepLength
      ensures Valid()
      ensures peps == old(peps) + [peptide]
      ensures pepPos == old(pepPos) + [position]
      ensures pepLength == old(pepLength) + [peptideLength]
    {
      peps := peps + [peptide];
      pepPos := pepPos + [position];
      pepLength := pepLength + [peptideLength];
    }

    /** Appends one peptide, taking its length from the peptide itself. */
    method AddPepVariant2(peptide: String, position: int)
      requires Valid()
      modifies this`peps, this`pepPos, this`pepLength
      ensures Valid()
      ensures peps == old(peps) + [peptide]
      ensures pepPos == old(pepPos) + [position]
      ensures pepLength == old(pepLength) + [|peptide|]
    {
      peps := peps + [peptide];
      pepPos := pepPos + [position];
      pepLength := pepLength + [|peptide|];
    }

    /**
     * Marks the residues of every peptide in a copy of the sequence, counts the marks
     * and stores count / length. The peptide lists are left as they are, so a second
     * call computes the same value.
     */
    method CalcCoverage() returns (r: Result<real, CoverageError>)
      requires Valid()
      modifies this`coverage
      ensures Valid()
      ensures r == Coverage(sequence, pepPos, pepLength)
      ensures coverage == if r.Ok? then r.value else old(coverage)
    {
      var s := sequence;
      var n: int := |s|;
      var copy := new char[n](i requires 0 <= i < n => s[i]);
      var j := 0;
      while j < |pepPos|
        modifies copy
        invariant 0 <= j <= |pepPos|
        invariant forall m :: 0 <= m < j ==> SpanInRange(pepPos[m], pepLength[m], n)
        invariant forall k :: 0 <= k < n ==> (copy[k] == 'z' <==> MarkedUpTo(s, pepPos, pepLength, j, k))
      {
        var start := pepPos[j] - 1;
        var stop := start + pepLength[j];
        var ii := start;
        while ii < stop
          modifies copy
          invariant start <= ii && (ii <= stop || ii == start)
          invariant ii > start ==> -n <= start && ii <= n
          invariant forall k :: 0 <= k < n ==>
            (copy[k] == 'z' <==> MarkedUpTo(s, pepPos, pepLength, j, k) || start <= k < ii || start <= k - n < ii)
          decreases stop - ii
        {
          if ii >= n || ii < -n {
            assert !SpanInRange(pepPos[j], pepLength[j], n);
            return Err(IndexError);
          }
          var w := if ii < 0 then ii + n else ii;
          copy[w] := 'z';
          ii := ii + 1;
        }
        j := j + 1;
      }
      if length == 0 {
        return Err(ZeroDivision);
      }
      var covered := 0;
      var k := 0;
      while k < n
        invariant 0 <= k <= n
        invariant covered == MarkedCount(s, pepPos, pepLength, k)
      {
        if copy[k] == 'z' {
          covered := covered + 1;
        }
        k := k + 1;
      }
      coverage := covered as real / length as real;
      r := Ok(coverage);
    }
  }

  // ------------------------------------------------------------------ per-trial counting specification

  /** The entries of `counts` that reach `threshold`, in order. */
  function AtLeast(counts: seq<nat>, threshold: int): (r: seq<nat>)
    ensures |r| <= |counts|
    ensures forall i :: 0 <= i < |r| ==> r[i] >= threshold
  {
    if counts == [] then []
    else AtLeast(counts[..|counts| - 1], threshold)
         + (if counts[|counts| - 1] >= threshold then [counts[|counts| - 1]] else [])
  }

  lemma AtLeastPrefix(counts: seq<nat>, i: nat, threshold: int)
    requires i < |counts|
    ensures AtLeast(counts[..i + 1], threshold)
            == AtLeast(counts[..i], threshold) + (if counts[i] >= threshold then [counts[i]] else [])
  {
    assert counts[..i + 1][..i] == counts[..i];
  }

  /** One more entry is counted when it reaches the threshold. */
  lemma AtLeastCountStep(counts: seq<nat>, i: nat, threshold: int)
    requires i < |counts|
    ensures |AtLeast(counts[..i + 1], threshold)| == |AtLeast(counts[..i], threshold)| + (if counts[i] >= threshold then 1 else 0)
  {
    AtLeastPrefix(counts, i, threshold);
  }

  function Sum(c: seq<nat>): nat
  {
    if c == [] then 0 else Sum(c[..|c| - 1]) + c[|c| - 1]
  }

  lemma SumSnoc(c: seq<nat>, x: nat)
    ensures Sum(c + [x]) == Sum(c) + x
  {
    assert (c + [x])[..|c|] == c;
  }

  /** Raising the threshold keeps fewer entries and a smaller total. */
  lemma {:induction false} AtLeastMonotone(counts: seq<nat>, low: int, high: int)
    requires low <= high
    ensures |AtLeast(counts, high)| <= |AtLeast(counts, low)|
    ensures Sum(AtLeast(counts, high)) <= Sum(AtLeast(counts, low))
  {
    if counts != [] {
      var init := counts[..|counts| - 1];
      AtLeastMonotone(init, low, high);
      var x := counts[|counts| - 1];
      var h, l := AtLeast(init, high), AtLeast(init, low);
      SumSnoc(h, x);
      SumSnoc(l, x);
      assert h + [] == h && l + [] == l;
    }
  }

  /**
   * With `min_peps_per_prot` at least 1 the filtered protein count and the filtered
   * peptide total never exceed the unfiltered ones.
   */
  lemma FilteredAtMostUnfiltered(counts: seq<nat>, minPeps: int)
    requires minPeps >= 1
    ensures |AtLeast(counts, minPeps)| <= |AtLeast(counts, 1)|
    ensures Sum(AtLeast(counts, minPeps)) <= Sum(AtLeast(counts, 1))
  {
    AtLeastMonotone(counts, 1, minPeps);
  }

  /** The values of `vals` whose count reaches `threshold`, in order. */
  function SelectAtLeast(counts: seq<nat>, vals: seq<real>, threshold: int): seq<real>
    requires |counts| == |vals|
  {
    if counts == [] then []
    else SelectAtLeast(counts[..|counts| - 1], vals[..|vals| - 1], threshold)
         + (if counts[|counts| - 1] >= threshold then [vals[|vals| - 1]] else [])
  }

  /** The number of peptides of each protein, in list order. */
  function PepCounts(ps: seq<Protein>): (r: seq<nat>)
    reads ps
    ensures |r| == |ps|
    ensures forall i :: 0 <= i < |ps| ==> r[i] == |ps[i].peps|
  {
    seq(|ps|, i requires 0 <= i < |ps| reads ps => |ps[i].peps|)
  }

  /** The stored coverage of each protein, in list order. */
  function Coverages(ps: seq<Protein>): (r: seq<real>)
    reads ps
    ensures |r| == |ps|
    ensures forall i :: 0 <= i < |ps| ==> r[i] == ps[i].coverage
  {
    seq(|ps|, i requires 0 <= i < |ps| reads ps => ps[i].coverage)
  }

  /** The list holds each protein object once. */
  predicate Distinct(ps: seq<Protein>)
  {
    forall i, j :: 0 <= i < j < |ps| ==> ps[i] != ps[j]
  }

  ghost predicate AllValid(ps: seq<Protein>)
    reads ps
  {
    forall i :: 0 <= i < |ps| ==> ps[i].Valid()
  }

  /** Everything about a protein except its stored coverage. */
  datatype ProteinData = ProteinData(id: String, sequence: String, length: nat,
                                     peps: seq<String>, pepPos: seq<int>, pepLength: seq<int>)

  function Data(p: Protein): ProteinData
    reads p
  {
    ProteinData(p.id, p.sequence, p.length, p.peps, p.pepPos, p.pepLength)
  }

  function Snapshot(ps: seq<Protein>): (r: seq<ProteinData>)
    reads ps
    ensures |r| == |ps|
    ensures forall i :: 0 <= i < |ps| ==> r[i] == Data(ps[i])
  {
    seq(|ps|, i requires 0 <= i < |ps| reads ps => Data(ps[i]))
  }

  /** What `calcCoverage` gives for a protein, from its data alone. */
  function CoverageOf(d: ProteinData): Result<real, CoverageError>
  {
    if |d.pepPos| == |d.pepLength| then Coverage(d.sequence, d.pepPos, d.pepLength) else Err(IndexError)
  }

  /** Every protein holds the coverage `calcCoverage` computes for it. */
  ghost predicate CoveragesComputed(ps: seq<Protein>)
    reads ps
  {
    forall i :: 0 <= i < |ps| ==> CoverageOf(Data(ps[i])) == Ok(ps[i].coverage)
  }

  predicate SomeCoverageFails(ds: seq<ProteinData>)
  {
    exists i :: 0 <= i < |ds| && CoverageOf(ds[i]).Err?
  }

  // ------------------------------------------------------------------ the per-trial result record

  class Results {
    var combination: String
    var randomSampling: String
    var group: String
    var minPepsPerProt: int
    var numberProteins: nat
    var numberProteinsFiltered: nat
    var peptideCounts: seq<nat>
    var peptideCountsFiltered: seq<nat>
    var numberPeptidesTotal: nat
    var numberPeptidesTotalFiltered: nat
    var coverages: seq<real>
    var coveragesFiltered: seq<real>

    /** The combination label is the protease names joined by " - ". */
    constructor (proteaseCombination: seq<String>, replicate: String, grp: String, minPeps: int)
      ensures combination == Join(proteaseCombination, " - ")
      ensures randomSampling == replicate && group == grp && minPepsPerProt == minPeps
      ensures numberProteins == 0 && numberProteinsFiltered == 0
      ensures numberPeptidesTotal == 0 && numberPeptidesTotalFiltered == 0
      ensures peptideCounts == [] && peptideCountsFiltered == [] && coverages == [] && coveragesFiltered == []
    {
      combination := Join(proteaseCombination, " - ");
      randomSampling := replicate;
      group := grp;
      minPepsPerProt := minPeps;
      numberProteins := 0;
      numberProteinsFiltered := 0;
      peptideCounts := [];
      peptideCountsFiltered := [];
      numberPeptidesTotal := 0;
      numberPeptidesTotalFiltered := 0;
      coverages := [];
      coveragesFiltered := [];
    }

    /** Counts the proteins with at least one and with at least `minPepsPerProt` peptides. */
    method GetNumberProteins(ps: seq<Protein>)
      modifies this`numberProteins, this`numberProteinsFiltered
      ensures Snapshot(ps) == old(Snapshot(ps))
      ensures numberProteins == |AtLeast(PepCounts(ps), 1)|
      ensures numberProteinsFiltered == |AtLeast(PepCounts(ps), minPepsPerProt)|
    {
      ghost var counts := PepCounts(ps);
      ghost var snap := Snapshot(ps);
      var total, filtered := CountProteins(ps, minPepsPerProt);
      numberProteins := total;
      numberProteinsFiltered := filtered;
      assert Snapshot(ps) == snap;
      SameCounts(ps, snap, counts);
    }

    /** The loop of `get_number_proteins`: how many proteins have at least one and at least `minPeps` peptides. */
    static method CountProteins(ps: seq<Protein>, minPeps: int) returns (total: nat, filtered: nat)
      ensures total == |AtLeast(PepCounts(ps), 1)|
      ensures filtered == |AtLeast(PepCounts(ps), minPeps)|
    {
      ghost var counts := PepCounts(ps);
      total, filtered := 0, 0;
      var i := 0;
      while i < |ps|
        invariant 0 <= i <= |ps|
        invariant total == |AtLeast(counts[..i], 1)|
        invariant filtered == |AtLeast(counts[..i], minPeps)|
      {
        var c := |ps[i].peps|;
        assert c == counts[i];
        AtLeastCountStep(counts, i, 1);
        AtLeastCountStep(counts, i, minPeps);
        if c >= 1 {
          total := total + 1;
        }
        if c >= minPeps {
          filtered := filtered + 1;
        }
        i := i + 1;
      }
      assert counts[..i] == counts;
    }

    /** Collects the peptide counts of the counted proteins and their totals. */
    method GetNumberPeptides(ps: seq<Protein>)
      modifies this`peptideCounts, this`peptideCountsFiltered, this`numberPeptidesTotal, this`numberPeptidesTotalFiltered
      ensures Snapshot(ps) == old(Snapshot(ps))
      ensures peptideCounts == AtLeast(PepCounts(ps), 1)
      ensures peptideCountsFiltered == AtLeast(PepCounts(ps), minPepsPerProt)
      ensures numberPeptidesTotal == Sum(AtLeast(PepCounts(ps), 1))
      ensures numberPeptidesTotalFiltered == Sum(AtLeast(PepCounts(ps), minPepsPerProt))
    {
      ghost var counts := PepCounts(ps);
      ghost var snap := Snapshot(ps);
      var total, filtered := CountPeptides(ps, minPepsPerProt);
      peptideCounts, peptideCountsFiltered := total, filtered;
      numberPeptidesTotal, numberPeptidesTotalFiltered := Sum(total), Sum(filtered);
      assert Snapshot(ps) == snap;
      SameCounts(ps, snap, counts);
    }

    /** The loop of `get_number_peptides`: the counts of at least one and of at least `minPeps` peptides, in protein order. */
    static method CountPeptides(ps: seq<Protein>, minPeps: int) returns (total: seq<nat>, filtered: seq<nat>)
      ensures total == AtLeast(PepCounts(ps), 1)
      ensures filtered == AtLeast(PepCounts(ps), minPeps)
    {
      ghost var counts := PepCounts(ps);
      total := [];
      filtered := [];
      var i := 0;
      while i < |ps|
        invariant 0 <= i <= |ps|
        invariant total == AtLeast(counts[..i], 1)
        invariant filtered == AtLeast(counts[..i], minPeps)
      {
        var c := |ps[i].peps|;
        AtLeastPrefix(counts, i, 1);
        AtLeastPrefix(counts, i, minPeps);
        if c >= 1 {
          total := total + [c];
        }
        if c >= minPeps {
          filtered := filtered + [c];
        }
        i := i + 1;
      }
      assert counts[..i] == counts;
    }

    /** Collects the stored coverages of the counted proteins. */
    method CollectCoverages(ps: seq<Protein>)
      modifies this`coverages, this`coveragesFiltered
      ensures Collected(PepCounts(ps), Coverages(ps))
    {
      ghost var counts := PepCounts(ps);
      ghost var covs := Coverages(ps);
      var total: seq<real> := [];
      var filtered: seq<real> := [];
      var i := 0;
      while i < |ps|
        invariant 0 <= i <= |ps|
        invariant total == SelectAtLeast(counts[..i], covs[..i], 1)
        invariant filtered == SelectAtLeast(counts[..i], covs[..i], minPepsPerProt)
      {
        assert counts[..i + 1][..i] == counts[..i];
        assert covs[..i + 1][..i] == covs[..i];
        if |ps[i].peps| >= 1 {
          total := total + [ps[i].coverage];
        }
        if |ps[i].peps| >= minPepsPerProt {
          filtered := filtered + [ps[i].coverage];
        }
        i := i + 1;
      }
      assert counts[..i] == counts && covs[..i] == covs;
      coverages := total;
      coveragesFiltered := filtered;
    }

    /**
     * Optionally recomputes every protein's coverage, then collects the coverages of
     * the counted proteins. A coverage error stops the computation, as the exception does.
     */
    method GetCoverageResult(ps: seq<Protein>, recompute: bool, ghost counts: seq<nat>) returns (failure: Option<CoverageError>)
      requires AllValid(ps) && Distinct(ps) && Counted(counts)
      modifies this`coverages, this`coveragesFiltered, ps
      ensures AllValid(ps) && Snapshot(ps) == old(Snapshot(ps))
      ensures numberProteins == old(numberProteins) && numberProteinsFiltered == old(numberProteinsFiltered)
      ensures numberPeptidesTotal == old(numberPeptidesTotal) && numberPeptidesTotalFiltered == old(numberPeptidesTotalFiltered)
      ensures Counted(counts)
      ensures recompute && failure.None? ==> CoveragesComputed(ps)
      ensures !recompute ==> failure.None? && Coverages(ps) == old(Coverages(ps))
      ensures failure.Some? <==> recompute && SomeCoverageFails(old(Snapshot(ps)))
      ensures failure.None? ==> Collected(PepCounts(ps), Coverages(ps))
      ensures failure.Some? ==> coverages == old(coverages) && coveragesFiltered == old(coveragesFiltered)
    {
      failure := None;
      if !recompute {
        CollectCoverages(ps);
        return;
      }
      failure := RecalculateCoverages(ps);
      if failure.None? {
        CollectCoverages(ps);
      }
    }

    /**
     * The counters and peptide-count lists hold what `get_number_proteins` and
     * `get_number_peptides` compute from the peptide counts `counts`.
     */
    predicate Counted(counts: seq<nat>)
      reads this`numberProteins, this`numberProteinsFiltered, this`peptideCounts, this`peptideCountsFiltered
      reads this`numberPeptidesTotal, this`numberPeptidesTotalFiltered, this`minPepsPerProt
    {
      numberProteins == |AtLeast(counts, 1)| && numberProteinsFiltered == |AtLeast(counts, minPepsPerProt)| &&
      peptideCounts == AtLeast(counts, 1) && peptideCountsFiltered == AtLeast(counts, minPepsPerProt) &&
      numberPeptidesTotal == Sum(AtLeast(counts, 1)) && numberPeptidesTotalFiltered == Sum(AtLeast(counts, minPepsPerProt))
    }

    /** The coverage lists hold the coverages `covs` of the proteins with at least one and at least `minPepsPerProt` peptides. */
    predicate Collected(counts: seq<nat>, covs: seq<real>)
      reads this`coverages, this`coveragesFiltered, this`minPepsPerProt
    {
      |counts| == |covs| && coverages == SelectAtLeast(counts, covs, 1) && coveragesFiltered == SelectAtLeast(counts, covs, minPepsPerProt)
    }

    /** Fills every counter of the record from one trial's protein list. */
    method GetResults(ps: seq<Protein>, updateCoverage: bool) returns (failure: Option<CoverageError>)
      requires AllValid(ps) && Distinct(ps)
      modifies this`numberProteins, this`numberProteinsFiltered, this`peptideCounts, this`peptideCountsFiltered
      modifies this`numberPeptidesTotal, this`numberPeptidesTotalFiltered, this`coverages, this`coveragesFiltered, ps
      ensures AllValid(ps) && Snapshot(ps) == old(Snapshot(ps))
      ensures Counted(PepCounts(ps))
      ensures failure.Some? <==> updateCoverage && SomeCoverageFails(old(Snapshot(ps)))
      ensures updateCoverage && failure.None? ==> CoveragesComputed(ps)
      ensures failure.None? ==> Collected(PepCounts(ps), Coverages(ps))
      ensures failure.Some? ==> coverages == old(coverages) && coveragesFiltered == old(coveragesFiltered)
    {
      ghost var counts := PepCounts(ps);
      ghost var snap := Snapshot(ps);
      GetCounts(ps, counts);
      failure := GetCoverageResult(ps, updateCoverage, counts);
      SameCounts(ps, snap, counts);
    }

    /** The first two steps of `get_results`: the protein counts, then the peptide counts. */
    method GetCounts(ps: seq<Protein>, ghost counts: seq<nat>)
      requires counts == PepCounts(ps)
      modifies this`numberProteins, this`numberProteinsFiltered, this`peptideCounts, this`peptideCountsFiltered
      modifies this`numberPeptidesTotal, this`numberPeptidesTotalFiltered
      ensures Counted(counts)
    {
      ghost var snap := Snapshot(ps);
      GetNumberProteins(ps);
      SameCounts(ps, snap, counts);
      GetNumberPeptides(ps);
      SameCounts(ps, snap, counts);
    }
  }

  /** Proteins whose data did not change keep their peptide counts. */
  lemma SameCounts(ps: seq<Protein>, snap: seq<ProteinData>, counts: seq<nat>)
    requires Snapshot(ps) == snap
    requires |counts| == |snap| && forall m :: 0 <= m < |snap| ==> counts[m] == |snap[m].peps|
    ensures PepCounts(ps) == counts
  {
    forall m | 0 <= m < |ps| ensures PepCounts(ps)[m] == counts[m] {
      assert Data(ps[m]) == snap[m];
    }
  }

  /** Runs `calcCoverage` on every protein in order, stopping at the first error. */
  method RecalculateCoverages(ps: seq<Protein>) returns (failure: Option<CoverageError>)
    requires AllValid(ps) && Distinct(ps)
    modifies ps
    ensures AllValid(ps) && Snapshot(ps) == old(Snapshot(ps))
    ensures failure.None? ==> CoveragesComputed(ps)
    ensures failure.Some? <==> SomeCoverageFails(old(Snapshot(ps)))
  {
    ghost var data := Snapshot(ps);
    var i := 0;
    while i < |ps|
      invariant 0 <= i <= |ps|
      invariant forall m :: 0 <= m < |ps| ==> Data(ps[m]) == data[m] && ps[m].Valid()
      invariant forall m :: 0 <= m < i ==> CoverageOf(data[m]) == Ok(ps[m].coverage)
    {
      var c := ps[i].CalcCoverage();
      if c.Err? {
        assert CoverageOf(data[i]).Err?;
        assert Snapshot(ps) == data;
        return Some(c.error);
      }
      i := i + 1;
    }
    assert Snapshot(ps) == data;
    failure := None;
  }

  // ------------------------------------------------------------------ building and filling the list

  /** One protein per FASTA record, in file order, each with empty peptide lists. */
  method MakeProteinList(fasta: seq<FastaRecord>) returns (ps: seq<Protein>)
    ensures |ps| == |fasta|
    ensures forall i :: 0 <= i < |ps| ==> fresh(ps[i])
    ensures Distinct(ps) && AllValid(ps)
    ensures forall i :: 0 <= i < |ps| ==>
      ps[i].id == fasta[i].id && ps[i].sequence == fasta[i].sequence &&
      ps[i].peps == [] && ps[i].pepPos == [] && ps[i].pepLength == [] && ps[i].coverage == 0.0
  {
    ps := [];
    var i := 0;
    while i < |fasta|
      invariant 0 <= i <= |fasta| && |ps| == i
      invariant forall m :: 0 <= m < i ==> fresh(ps[m])
      invariant Distinct(ps) && AllValid(ps)
      invariant forall m :: 0 <= m < i ==>
        ps[m].id == fasta[m].id && ps[m].sequence == fasta[m].sequence &&
        ps[m].peps == [] && ps[m].pepPos == [] && ps[m].pepLength == [] && ps[m].coverage == 0.0
    {
      var p := new Protein(fasta[i].id, fasta[i].sequence);
      ps := ps + [p];
      i := i + 1;
    }
  }

  /** The peptides of the rows that name protein `id`, in row order. */
  function PeptidesOf(rows: seq<PeptideRow>, id: String): seq<String>
  {
    if rows == [] then []
    else PeptidesOf(rows[..|rows| - 1], id)
         + (if rows[|rows| - 1].protein == id then [rows[|rows| - 1].peptide] else [])
  }

  /** The locations of the rows that name protein `id`, in row order. */
  function LocationsOf(rows: seq<PeptideRow>, id: String): (r: seq<int>)
    ensures |r| == |PeptidesOf(rows, id)|
  {
    if rows == [] then []
    else LocationsOf(rows[..|rows| - 1], id)
         + (if rows[|rows| - 1].protein == id then [rows[|rows| - 1].location] else [])
  }

  /**
   * The two dictionaries of the first pass: for every protein named by some row, its
   * peptides and its locations in row order. No other key is present.
   */
  method GroupRows(rows: seq<PeptideRow>) returns (tmpPeps: map<String, seq<String>>, tmpLoc: map<String, seq<int>>)
    ensures Grouped(tmpPeps, tmpLoc, rows)
  {
    tmpPeps, tmpLoc := map[], map[];
    var i := 0;
    while i < |rows|
      invariant 0 <= i <= |rows| && Grouped(tmpPeps, tmpLoc, rows[..i])
    {
      var row := rows[i];
      ghost var peps0, loc0 := tmpPeps, tmpLoc;
      if row.protein !in tmpPeps {
        tmpPeps := tmpPeps[row.protein := []];
        tmpLoc := tmpLoc[row.protein := []];
      }
      tmpPeps := tmpPeps[row.protein := tmpPeps[row.protein] + [row.peptide]];
      tmpLoc := tmpLoc[row.protein := tmpLoc[row.protein] + [row.location]];
      GroupedStep(rows, i, peps0, loc0, tmpPeps, tmpLoc);
      i := i + 1;
    }
    assert rows[..i] == rows;
  }

  /**
   * The two dictionaries hold, for every protein named by some row, its
   * peptides and its locations in row order, and no other key.
   */
  ghost predicate Grouped(tmpPeps: map<String, seq<String>>, tmpLoc: map<String, seq<int>>, rows: seq<PeptideRow>)
  {
    tmpPeps.Keys == tmpLoc.Keys &&
    (forall id :: id in tmpPeps <==> PeptidesOf(rows, id) != []) &&
    (forall id :: id in tmpPeps ==> tmpPeps[id] == PeptidesOf(rows, id) && tmpLoc[id] == LocationsOf(rows, id))
  }

  /** A dictionary of lists with `x` appended under `key`, the list created empty if new. */
  function AppendUnder<T>(m: map<String, seq<T>>, key: String, x: T): (r: map<String, seq<T>>)
    ensures r.Keys == m.Keys + {key}
    ensures r[key] == (if key in m then m[key] else []) + [x]
    ensures forall k :: k in m && k != key ==> r[k] == m[k]
  {
    var m0 := if key in m then m else m[key := []];
    m0[key := m0[key] + [x]]
  }

  /** One more row is appended under its protein, created empty if new. */
  lemma GroupedStep(rows: seq<PeptideRow>, i: nat, tmpPeps: map<String, seq<String>>, tmpLoc: map<String, seq<int>>,
                    p1: map<String, seq<String>>, l1: map<String, seq<int>>)
    requires i < |rows| && Grouped(tmpPeps, tmpLoc, rows[..i])
    requires p1 == AppendUnder(tmpPeps, rows[i].protein, rows[i].peptide)
    requires l1 == AppendUnder(tmpLoc, rows[i].protein, rows[i].location)
    ensures Grouped(p1, l1, rows[..i + 1])
  {
    GroupedKeysStep(rows, i, tmpPeps, tmpLoc, p1);
    GroupedValuesStep(rows, i, tmpPeps, tmpLoc, p1, l1);
  }

  lemma GroupedKeysStep(rows: seq<PeptideRow>, i: nat, tmpPeps: map<String, seq<String>>, tmpLoc: map<String, seq<int>>,
                        p1: map<String, seq<String>>)
    requires i < |rows| && Grouped(tmpPeps, tmpLoc, rows[..i])
    requires p1 == AppendUnder(tmpPeps, rows[i].protein, rows[i].peptide)
    ensures forall id :: id in p1 <==> PeptidesOf(rows[..i + 1], id) != []
  {
    forall id ensures id in p1 <==> PeptidesOf(rows[..i + 1], id) != [] {
      RowsSnoc(rows, i, id);
    }
  }

  lemma GroupedValuesStep(rows: seq<PeptideRow>, i: nat, tmpPeps: map<String, seq<String>>, tmpLoc: map<String, seq<int>>,
                          p1: map<String, seq<String>>, l1: map<String, seq<int>>)
    requires i < |rows| && Grouped(tmpPeps, tmpLoc, rows[..i])
    requires p1 == AppendUnder(tmpPeps, rows[i].protein, rows[i].peptide)
    requires l1 == AppendUnder(tmpLoc, rows[i].protein, rows[i].location)
    ensures forall id :: id in p1 ==> p1[id] == PeptidesOf(rows[..i + 1], id) && l1[id] == LocationsOf(rows[..i + 1], id)
  {
    forall id | id in p1 ensures p1[id] == PeptidesOf(rows[..i + 1], id) && l1[id] == LocationsOf(rows[..i + 1], id) {
      RowsSnoc(rows, i, id);
    }
  }

  lemma RowsSnoc(rows: seq<PeptideRow>, i: nat, id: String)
    requires i < |rows|
    ensures PeptidesOf(rows[..i + 1], id) == PeptidesOf(rows[..i], id) + (if rows[i].protein == id then [rows[i].peptide] else [])
    ensures LocationsOf(rows[..i + 1], id) == LocationsOf(rows[..i], id) + (if rows[i].protein == id then [rows[i].location] else [])
  {
    assert rows[..i + 1][..i] == rows[..i];
  }

  /** Appends the peptides of one group to a protein, one `add_pep_variant_2` call each. */
  method AppendGroup(prot: Protein, pepList: seq<String>, locList: seq<int>)
    requires prot.Valid() && |pepList| == |locList|
    modifies prot`peps, prot`pepPos, prot`pepLength
    ensures prot.Valid()
    ensures prot.peps == old(prot.peps) + pepList
    ensures prot.pepPos == old(prot.pepPos) + locList
    ensures prot.pepLength == old(prot.pepLength) + Lengths(pepList)
  {
    var t := 0;
    while t < |pepList|
      invariant 0 <= t <= |pepList|
      invariant prot.Valid()
      invariant prot.peps == old(prot.peps) + pepList[..t]
      invariant prot.pepPos == old(prot.pepPos) + locList[..t]
      invariant prot.pepLength == old(prot.pepLength) + Lengths(pepList[..t])
    {
      assert pepList[..t + 1][..t] == pepList[..t];
      assert locList[..t + 1] == locList[..t] + [locList[t]];
      prot.AddPepVariant2(pepList[t], locList[t]);
      t := t + 1;
    }
    assert pepList[..t] == pepList && locList[..t] == locList;
  }

  /**
   * Groups the rows by protein and appends each group, in row order, to every listed
   * protein with that identifier. Proteins named by no row are left as they were.
   */
  method FillProteinList(ps: seq<Protein>, rows: seq<PeptideRow>)
    requires AllValid(ps) && Distinct(ps)
    modifies ps
    ensures AllValid(ps)
    ensures forall i :: 0 <= i < |ps| ==>
      ps[i].id == old(ps[i].id) && ps[i].sequence == old(ps[i].sequence) &&
      ps[i].length == old(ps[i].length) && ps[i].coverage == old(ps[i].coverage)
    ensures forall i :: 0 <= i < |ps| ==>
      ps[i].peps == old(ps[i].peps) + PeptidesOf(rows, ps[i].id) &&
      ps[i].pepPos == old(ps[i].pepPos) + LocationsOf(rows, ps[i].id) &&
      ps[i].pepLength == old(ps[i].pepLength) + Lengths(PeptidesOf(rows, ps[i].id))
  {
    var tmpPeps, tmpLoc := GroupRows(rows);
    var k := 0;
    while k < |ps|
      invariant 0 <= k <= |ps|
      invariant AllValid(ps)
      invariant forall m :: 0 <= m < |ps| ==>
        ps[m].id == old(ps[m].id) && ps[m].sequence == old(ps[m].sequence) &&
        ps[m].length == old(ps[m].length) && ps[m].coverage == old(ps[m].coverage)
      invariant forall m :: 0 <= m < k ==>
        ps[m].peps == old(ps[m].peps) + PeptidesOf(rows, ps[m].id) &&
        ps[m].pepPos == old(ps[m].pepPos) + LocationsOf(rows, ps[m].id) &&
        ps[m].pepLength == old(ps[m].pepLength) + Lengths(PeptidesOf(rows, ps[m].id))
      invariant forall m :: k <= m < |ps| ==>
        ps[m].peps == old(ps[m].peps) && ps[m].pepPos == old(ps[m].pepPos) &&
        ps[m].pepLength == old(ps[m].pepLength)
    {
      assert forall m :: 0 <= m < |ps| && m != k ==> ps[m] != ps[k];
      FillOne(ps[k], rows, tmpPeps, tmpLoc);
      k := k + 1;
    }
  }

  /** The second pass for one protein: its group appended, if the rows name it. */
  method FillOne(prot: Protein, rows: seq<PeptideRow>, tmpPeps: map<String, seq<String>>, tmpLoc: map<String, seq<int>>)
    requires prot.Valid() && Grouped(tmpPeps, tmpLoc, rows)
    modifies prot`peps, prot`pepPos, prot`pepLength
    ensures prot.Valid()
    ensures prot.peps == old(prot.peps) + PeptidesOf(rows, prot.id)
    ensures prot.pepPos == old(prot.pepPos) + LocationsOf(rows, prot.id)
    ensures prot.pepLength == old(prot.pepLength) + Lengths(PeptidesOf(rows, prot.id))
  {
    if prot.id in tmpPeps {
      AppendGroup(prot, tmpPeps[prot.id], tmpLoc[prot.id]);
    } else {
      assert PeptidesOf(rows, prot.id) == [] && LocationsOf(rows, prot.id) == [];
      assert prot.peps + [] == prot.peps && prot.pepPos + [] == prot.pepPos;
      assert prot.pepLength + Lengths([]) == prot.pepLength;
    }
  }
}
