/**
 * The export step: each protein of the FASTA file labelled with the length bin
 * it falls in (`load_proteins`, `load_proteins_cli`), and the per-sampling
 * columns that switch off a share of each bin as not expressed
 * (`simulate_abundance_cli`).
 */
module ExportFunctions {
  import opened Wrappers
  import opened Strings
  import A = Analysis
  import T = Tools
  import PM = ProteinModel

  /** Why the labelling gives up; `load_proteins` catches the exception and reports failure. */
  datatype BinError =
    | AmbiguousStop   // `int(np.where(...)[0])` of a stop value that occurs more than once
    | NoSuchIndex     // `bin_list[i + 1]` or `protein_group_list[i]` past the end
    | Unassigned      // `tmp_group` read before any protein fell in a bin

  const Unknown: String := "unknown"

  // ---------------------------------------------------------------- labels and stops

  /** "group_k". */
  function GroupName(k: nat): String
  {
    "group_" + NatToString(k)
  }

  /** Different numbers give different names, and every name begins with 'g'. */
  lemma GroupNameInjective(a: nat, b: nat)
    ensures GroupName(a)[0] == 'g'
    ensures a != b ==> GroupName(a) != GroupName(b)
  {
    if a != b && GroupName(a) == GroupName(b) {
      assert GroupName(a)[6..] == NatToString(a);
      assert GroupName(b)[6..] == NatToString(b);
      NatToStringInjective(a, b);
    }
  }

  /** "group_1", ..., "group_k". */
  function GroupNames(k: nat): (r: seq<String>)
    ensures |r| == k
    ensures forall i :: 0 <= i < k ==> r[i] == GroupName(i + 1)
  {
    if k == 0 then [] else GroupNames(k - 1) + [GroupName(k)]
  }

  /** The named labels for three or four stops (two or three bins). */
  function NamedBins(n: nat): seq<String>
  {
    if n == 3 then ["small_proteins", "large_proteins"]
    else if n == 4 then ["small_proteins", "medium_proteins", "large_proteins"]
    else []
  }

  /** Whether the stops but the last are truncated by `int()` and a "group_i" label is added per bin. */
  predicate Numbered(n: nat, cli: bool)
  {
    cli || (n != 3 && n != 4)
  }

  /**
   * The bin labels for `n` stops: small/large for three stops, small/medium/large
   * for four, "group_1".."group_{n-1}" otherwise; `load_proteins_cli` appends the
   * "group_i" labels after the named ones as well.
   */
  function BinLabels(n: nat, cli: bool): (r: seq<String>)
    ensures !cli && n == 3 ==> r == ["small_proteins", "large_proteins"]
    ensures !cli && n == 4 ==> r == ["small_proteins", "medium_proteins", "large_proteins"]
    ensures Numbered(n, cli) ==> |r| == |NamedBins(n)| + (if n >= 1 then n - 1 else 0)
    ensures Numbered(n, cli) ==> forall i :: |NamedBins(n)| <= i < |r| ==>
      r[i] == GroupName(i - |NamedBins(n)| + 1)
    ensures r[..|NamedBins(n)|] == NamedBins(n)
    ensures n >= 1 ==> |r| >= n - 1
  {
    NamedBins(n) + (if Numbered(n, cli) then GroupNames(if n >= 1 then n - 1 else 0) else [])
  }

  /** The labels are pairwise distinct and none is "unknown". */
  lemma BinLabelsDistinct(n: nat, cli: bool)
    ensures A.Distinct(BinLabels(n, cli)) && Unknown !in BinLabels(n, cli)
  {
    var r := BinLabels(n, cli);
    var named := NamedBins(n);
    NamedBinsDistinct(n);
    LabelsAppendDistinct(named, if Numbered(n, cli) && n >= 1 then n - 1 else 0);
    forall i | 0 <= i < |r| ensures r[i] != Unknown {
      if i >= |named| {
        GroupNameInjective(i - |named| + 1, 0);
      }
    }
  }

  lemma NamedBinsDistinct(n: nat)
    ensures A.Distinct(NamedBins(n))
    ensures forall i :: 0 <= i < |NamedBins(n)| ==> |NamedBins(n)[i]| >= 1 && NamedBins(n)[i][0] != 'g' && NamedBins(n)[i] != Unknown
  {
  }

  /** Distinct labels none of which begins with 'g', then "group_1".."group_k": all distinct. */
  lemma LabelsAppendDistinct(named: seq<String>, k: nat)
    requires A.Distinct(named)
    requires forall i :: 0 <= i < |named| ==> |named[i]| >= 1 && named[i][0] != 'g'
    ensures A.Distinct(named + GroupNames(k))
  {
    var r := named + GroupNames(k);
    forall i, j | 0 <= i < j < |r| ensures r[i] != r[j] {
      if j >= |named| {
        GroupNameInjective(j - |named| + 1, if i >= |named| then i - |named| + 1 else 0);
        if i < |named| {
          assert r[i][0] == named[i][0];
        }
      }
    }
  }

  /** The stops the labelling compares with: the stops but the last truncated when the labels are numbered. */
  function Stops(bins: seq<real>, cli: bool): (r: seq<real>)
    ensures |r| == |bins|
    ensures forall i :: 0 <= i < |r| ==>
      r[i] == if Numbered(|bins|, cli) && i < |bins| - 1 then A.Trunc(bins[i]) as real else bins[i]
  {
    if Numbered(|bins|, cli) then seq(|bins|, i requires 0 <= i < |bins| => if i < |bins| - 1 then A.Trunc(bins[i]) as real else bins[i])
    else bins
  }

  /** The label list and the `bin_pos` loop that truncates the stops and numbers the bins. */
  method MakeBins(bins: seq<real>, cli: bool) returns (stops: seq<real>, labels: seq<String>)
    ensures stops == Stops(bins, cli) && labels == BinLabels(|bins|, cli)
  {
    var n := |bins|;
    stops := bins;
    labels := NamedBins(n);
    if Numbered(n, cli) {
      var pos := 0;
      while pos < n - 1
        invariant 0 <= pos <= if n >= 1 then n - 1 else 0
        invariant |stops| == n
        invariant forall i :: 0 <= i < n ==> stops[i] == if i < pos then A.Trunc(bins[i]) as real else bins[i]
        invariant labels == NamedBins(n) + GroupNames(pos)
      {
        stops := stops[pos := A.Trunc(stops[pos]) as real];
        labels := labels + [GroupName(pos + 1)];
        pos := pos + 1;
      }
    }
  }

  // ---------------------------------------------------------------- labelling one protein

  /** The number of positions of `s` holding `v`. */
  function Occurrences(s: seq<real>, v: real): nat
  {
    if s == [] then 0 else Occurrences(s[..|s| - 1], v) + (if s[|s| - 1] == v then 1 else 0)
  }

  lemma {:induction false} OccurrencesDistinct(s: seq<real>, j: int)
    requires A.Distinct(s) && 0 <= j < |s|
    ensures Occurrences(s, s[j]) == 1
  {
    var n := |s| - 1;
    var init := s[..n];
    assert A.Distinct(init);
    if j < n {
      OccurrencesDistinct(init, j);
    } else {
      OccurrencesAbsent(init, s[j]);
    }
  }

  lemma {:induction false} OccurrencesAbsent(s: seq<real>, v: real)
    requires v !in s
    ensures Occurrences(s, v) == 0
  {
    if s != [] {
      OccurrencesAbsent(s[..|s| - 1], v);
    }
  }

  lemma {:induction false} OccurrencesRepeated(s: seq<real>, i: int, j: int)
    requires 0 <= i < j < |s| && s[i] == s[j]
    ensures Occurrences(s, s[i]) >= 2
  {
    var n := |s| - 1;
    if j < n {
      OccurrencesRepeated(s[..n], i, j);
    } else {
      OccurrencesPresent(s[..n], i);
    }
  }

  lemma {:induction false} OccurrencesPresent(s: seq<real>, i: int)
    requires 0 <= i < |s|
    ensures Occurrences(s, s[i]) >= 1
  {
    var n := |s| - 1;
    if i < n {
      OccurrencesPresent(s[..n], i);
    }
  }

  /** `max(bin_list)`. */
  function MaxOf(s: seq<real>): (m: real)
    requires |s| >= 1
    ensures m in s && forall i :: 0 <= i < |s| ==> s[i] <= m
  {
    if |s| == 1 then s[0]
    else
      var r := MaxOf(s[..|s| - 1]);
      assert forall i :: 0 <= i < |s| - 1 ==> s[..|s| - 1][i] == s[i];
      if s[|s| - 1] > r then s[|s| - 1] else r
  }

  /** The labelling state: the label found so far and the label list. */
  datatype Scan = Scan(group: Option<String>, labels: seq<String>)

  /** The label list with "unknown" appended unless it is there already. */
  function WithUnknown(labels: seq<String>): seq<String>
  {
    if Unknown in labels then labels else labels + [Unknown]
  }

  /**
   * One pass of the inner loop with the stop at position `j` as lower border:
   * its position looked up by value, then a protein longer than the largest
   * stop labelled "unknown", one in (stop j, stop j+1] labelled with label j.
   */
  function Step(len: int, stops: seq<real>, j: int, sc: Scan): Result<Scan, BinError>
    requires 0 <= j < |stops|
  {
    if Occurrences(stops, stops[j]) != 1 then Err(AmbiguousStop)
    else if len as real > stops[j] then
      if len as real > MaxOf(stops) then Ok(Scan(Some(Unknown), WithUnknown(sc.labels)))
      else if j + 1 >= |stops| then Err(NoSuchIndex)
      else if stops[j + 1] >= len as real then
        if j < |sc.labels| then Ok(Scan(Some(sc.labels[j]), sc.labels)) else Err(NoSuchIndex)
      else Ok(sc)
    else Ok(sc)
  }

  /** The inner loop from position `j` on. */
  function ScanFrom(len: int, stops: seq<real>, j: int, sc: Scan): Result<Scan, BinError>
    requires 0 <= j <= |stops|
    decreases |stops| - j
  {
    if j == |stops| then Ok(sc)
    else
      match Step(len, stops, j, sc)
      case Err(e) => Err(e)
      case Ok(next) => ScanFrom(len, stops, j + 1, next)
  }

  predicate Increasing(s: seq<real>)
  {
    forall i, j :: 0 <= i < j < |s| ==> s[i] < s[j]
  }

  /** A protein no shorter than the stops from `j0` on changes nothing in the passes from `j0`. */
  lemma {:induction false} ScanBelow(len: int, stops: seq<real>, j0: int, sc: Scan)
    requires A.Distinct(stops) && 0 <= j0 <= |stops|
    requires forall j :: j0 <= j < |stops| ==> len as real <= stops[j]
    ensures ScanFrom(len, stops, j0, sc) == Ok(sc)
    decreases |stops| - j0
  {
    if j0 < |stops| {
      OccurrencesDistinct(stops, j0);
      ScanBelow(len, stops, j0 + 1, sc);
    }
  }

  /** A protein longer than every stop is labelled "unknown", appended to the labels at most once. */
  lemma {:induction false} ScanAbove(len: int, stops: seq<real>, j0: int, sc: Scan)
    requires A.Distinct(stops) && 0 <= j0 < |stops|
    requires len as real > MaxOf(stops)
    ensures ScanFrom(len, stops, j0, sc) == Ok(Scan(Some(Unknown), WithUnknown(sc.labels)))
    decreases |stops| - j0
  {
    OccurrencesDistinct(stops, j0);
    var next := Scan(Some(Unknown), WithUnknown(sc.labels));
    assert Step(len, stops, j0, sc) == Ok(next);
    if j0 + 1 < |stops| {
      ScanAbove(len, stops, j0 + 1, next);
      assert WithUnknown(next.labels) == next.labels;
    }
  }

  /** With increasing stops, a protein with stop i < length <= stop i+1 gets label i. */
  lemma {:induction false} ScanBetween(len: int, stops: seq<real>, i: int, j0: int, sc: Scan)
    requires Increasing(stops) && 0 <= j0 <= i && i + 1 < |stops| && i < |sc.labels|
    requires stops[i] < len as real <= stops[i + 1]
    ensures ScanFrom(len, stops, j0, sc) == Ok(Scan(Some(sc.labels[i]), sc.labels))
    decreases |stops| - j0
  {
    assert A.Distinct(stops);
    OccurrencesDistinct(stops, j0);
    var last := |stops| - 1;
    assert MaxOf(stops) >= stops[i + 1];
    if j0 < i {
      assert stops[j0 + 1] <= stops[i];
      ScanBetween(len, stops, i, j0 + 1, sc);
    } else {
      var next := Scan(Some(sc.labels[i]), sc.labels);
      assert Step(len, stops, j0, sc) == Ok(next);
      ScanBelow(len, stops, i + 1, next);
    }
  }

  /**
   * A stop value that occurs twice makes the position lookup fail, provided
   * there is a label for every bin (so no earlier pass fails first).
   */
  lemma {:induction false} ScanAmbiguous(len: int, stops: seq<real>, d: int, e: int, j0: int, sc: Scan)
    requires 0 <= j0 <= d < e < |stops| && stops[d] == stops[e]
    requires |sc.labels| >= |stops| - 1
    ensures ScanFrom(len, stops, j0, sc) == Err(AmbiguousStop)
    decreases d - j0
  {
    OccurrencesRepeated(stops, d, e);
    if Occurrences(stops, stops[j0]) == 1 {
      assert j0 < d;
      var r := Step(len, stops, j0, sc);
      assert r.Ok? && |r.value.labels| >= |sc.labels|;
      ScanAmbiguous(len, stops, d, e, j0 + 1, r.value);
    }
  }

  // ---------------------------------------------------------------- labelling the protein list

  /** One output row: `Identifier`, `Sequence_Len[aa]`, `Group`. */
  datatype ProteinRow = ProteinRow(id: String, length: nat, group: String)

  /** The rows so far, the label list, and `tmp_group`, which carries over from one protein to the next. */
  datatype Binning = Binning(rows: seq<ProteinRow>, labels: seq<String>, group: Option<String>)

  /** One protein labelled: the inner loop, then its row appended with the label then in `tmp_group`. */
  function Place(p: PM.FastaRecord, stops: seq<real>, b: Binning): Result<Binning, BinError>
  {
    match ScanFrom(|p.sequence|, stops, 0, Scan(b.group, b.labels))
    case Err(e) => Err(e)
    case Ok(sc) =>
      if sc.group.None? then Err(Unassigned)
      else Ok(Binning(b.rows + [ProteinRow(p.id, |p.sequence|, sc.group.value)], sc.labels, sc.group))
  }

  /** The proteins from position `k` on. */
  function PlaceFrom(ps: seq<PM.FastaRecord>, stops: seq<real>, k: int, b: Binning): Result<Binning, BinError>
    requires 0 <= k <= |ps|
    decreases |ps| - k
  {
    if k == |ps| then Ok(b)
    else
      match Place(ps[k], stops, b)
      case Err(e) => Err(e)
      case Ok(next) => PlaceFrom(ps, stops, k + 1, next)
  }

  /**
   * `load_proteins` (`cli` false) and `load_proteins_cli` (`cli` true) on the
   * FASTA records and the `Bins` text: the rows and the label list, or the
   * failure.
   */
  function LoadProteinsSpec(ps: seq<PM.FastaRecord>, binsText: String, cli: bool)
    : Result<(seq<ProteinRow>, seq<String>), BinError>
  {
    var bins := T.ConfigNumeric(binsText);
    match PlaceFrom(ps, Stops(bins, cli), 0, Binning([], BinLabels(|bins|, cli), None))
    case Err(e) => Err(e)
    case Ok(b) => Ok((b.rows, b.labels))
  }

  /** `load_proteins` / `load_proteins_cli`: the bins read, the labels made, then every protein placed. */
  method LoadProteins(ps: seq<PM.FastaRecord>, binsText: String, cli: bool)
    returns (r: Result<(seq<ProteinRow>, seq<String>), BinError>)
    ensures r == LoadProteinsSpec(ps, binsText, cli)
  {
    var bins := T.ConfigToNumericList(binsText);
    var stops, labels := MakeBins(bins, cli);
    var b := PlaceAll(ps, stops, labels);
    if b.Err? {
      return Err(b.error);
    }
    return Ok((b.value.rows, b.value.labels));
  }

  /** The loop over the proteins, the label of one carried on to the next. */
  method PlaceAll(ps: seq<PM.FastaRecord>, stops: seq<real>, labels0: seq<String>)
    returns (r: Result<Binning, BinError>)
    ensures r == PlaceFrom(ps, stops, 0, Binning([], labels0, None))
  {
    var b := Binning([], labels0, None);
    ghost var start := b;
    var k := 0;
    while k < |ps|
      invariant 0 <= k <= |ps|
      invariant PlaceFrom(ps, stops, 0, start) == PlaceFrom(ps, stops, k, b)
    {
      var next := PlaceOne(ps[k], stops, b);
      if next.Err? {
        return Err(next.error);
      }
      b := next.value;
      k := k + 1;
    }
    return Ok(b);
  }

  /** One protein: the stops scanned for its length, the row appended with the label found. */
  method PlaceOne(p: PM.FastaRecord, stops: seq<real>, b: Binning) returns (r: Result<Binning, BinError>)
    ensures r == Place(p, stops, b)
  {
    var len := |p.sequence|;
    var sc := ScanStops(len, stops, Scan(b.group, b.labels));
    if sc.Err? {
      return Err(sc.error);
    }
    var group := sc.value.group;
    if group.None? {
      return Err(Unassigned);
    }
    return Ok(Binning(b.rows + [ProteinRow(p.id, len, group.value)], sc.value.labels, group));
  }

  /** The inner loop of the labelling: every stop in turn as lower border of a bin. */
  method ScanStops(len: int, stops: seq<real>, sc0: Scan) returns (r: Result<Scan, BinError>)
    ensures r == ScanFrom(len, stops, 0, sc0)
  {
    var group, labels := sc0.group, sc0.labels;
    var j := 0;
    while j < |stops|
      invariant 0 <= j <= |stops|
      invariant ScanFrom(len, stops, 0, sc0) == ScanFrom(len, stops, j, Scan(group, labels))
    {
      if Occurrences(stops, stops[j]) != 1 {
        return Err(AmbiguousStop);
      }
      if len as real > stops[j] {
        if len as real > MaxOf(stops) {
          group := Some(Unknown);
          if Unknown !in labels {
            labels := labels + [Unknown];
          }
        } else {
          if j + 1 >= |stops| {
            return Err(NoSuchIndex);
          }
          if stops[j + 1] >= len as real {
            if j >= |labels| {
              return Err(NoSuchIndex);
            }
            group := Some(labels[j]);
          }
        }
      }
      j := j + 1;
    }
    return Ok(Scan(group, labels));
  }

  /** A protein within a bin of increasing stops gets that bin's label, which it leaves for the next protein. */
  lemma PlaceBetween(p: PM.FastaRecord, stops: seq<real>, b: Binning, i: int)
    requires Increasing(stops) && 0 <= i && i + 1 < |stops| && i < |b.labels|
    requires stops[i] < |p.sequence| as real <= stops[i + 1]
    ensures Place(p, stops, b) ==
      Ok(Binning(b.rows + [ProteinRow(p.id, |p.sequence|, b.labels[i])], b.labels, Some(b.labels[i])))
  {
    ScanBetween(|p.sequence|, stops, i, 0, Scan(b.group, b.labels));
  }

  /** A protein longer than every stop is labelled "unknown", which joins the label list at most once. */
  lemma PlaceAbove(p: PM.FastaRecord, stops: seq<real>, b: Binning)
    requires A.Distinct(stops) && |stops| >= 1
    requires |p.sequence| as real > MaxOf(stops)
    ensures Place(p, stops, b) ==
      Ok(Binning(b.rows + [ProteinRow(p.id, |p.sequence|, Unknown)], WithUnknown(b.labels), Some(Unknown)))
  {
    ScanAbove(|p.sequence|, stops, 0, Scan(b.group, b.labels));
  }

  /**
   * A protein in no bin (no longer than any stop) inherits the label of the
   * protein before it; the first such protein, before any label, fails.
   */
  lemma PlaceInherits(p: PM.FastaRecord, stops: seq<real>, b: Binning)
    requires A.Distinct(stops)
    requires forall j :: 0 <= j < |stops| ==> |p.sequence| as real <= stops[j]
    ensures b.group.None? ==> Place(p, stops, b) == Err(Unassigned)
    ensures b.group.Some? ==>
      Place(p, stops, b) == Ok(Binning(b.rows + [ProteinRow(p.id, |p.sequence|, b.group.value)], b.labels, b.group))
  {
    ScanBelow(|p.sequence|, stops, 0, Scan(b.group, b.labels));
  }

  /** Stop values that repeat (after truncation) make the labelling fail as soon as there is a protein. */
  lemma LoadAmbiguous(ps: seq<PM.FastaRecord>, binsText: String, cli: bool, d: int, e: int)
    requires |ps| >= 1
    requires var stops := Stops(T.ConfigNumeric(binsText), cli); 0 <= d < e < |stops| && stops[d] == stops[e]
    ensures LoadProteinsSpec(ps, binsText, cli) == Err(AmbiguousStop)
  {
    var bins := T.ConfigNumeric(binsText);
    var stops := Stops(bins, cli);
    var b := Binning([], BinLabels(|bins|, cli), None);
    ScanAmbiguous(|ps[0].sequence|, stops, d, e, 0, Scan(b.group, b.labels));
  }

  /** The labelling from protein `k` on: a row per protein, in order, and "unknown" added at most once. */
  lemma {:induction false} PlaceFromRows(ps: seq<PM.FastaRecord>, stops: seq<real>, k: int, b: Binning, labels0: seq<String>)
    requires 0 <= k <= |ps| && |b.rows| == k
    requires forall i :: 0 <= i < k ==> b.rows[i].id == ps[i].id && b.rows[i].length == |ps[i].sequence|
    requires b.labels == labels0 || b.labels == labels0 + [Unknown]
    requires Unknown in b.labels ==> b.labels == WithUnknown(labels0)
    ensures var r := PlaceFrom(ps, stops, k, b);
      r.Ok? ==>
        |r.value.rows| == |ps| &&
        (forall i :: 0 <= i < |ps| ==> r.value.rows[i].id == ps[i].id && r.value.rows[i].length == |ps[i].sequence|) &&
        (r.value.labels == labels0 || r.value.labels == WithUnknown(labels0))
    decreases |ps| - k
  {
    if k < |ps| {
      var sr := ScanFrom(|ps[k].sequence|, stops, 0, Scan(b.group, b.labels));
      ScanLabels(|ps[k].sequence|, stops, 0, Scan(b.group, b.labels), labels0);
      var r := Place(ps[k], stops, b);
      if r.Ok? {
        PlaceFromRows(ps, stops, k + 1, r.value, labels0);
      }
    }
  }

  /** The inner loop only ever adds "unknown" to the label list, and only once. */
  lemma {:induction false} ScanLabels(len: int, stops: seq<real>, j0: int, sc: Scan, labels0: seq<String>)
    requires 0 <= j0 <= |stops|
    requires sc.labels == labels0 || sc.labels == labels0 + [Unknown]
    requires Unknown in sc.labels ==> sc.labels == WithUnknown(labels0)
    ensures var r := ScanFrom(len, stops, j0, sc);
      r.Ok? ==> (r.value.labels == labels0 || r.value.labels == labels0 + [Unknown]) &&
                (Unknown in r.value.labels ==> r.value.labels == WithUnknown(labels0))
    decreases |stops| - j0
  {
    if j0 < |stops| {
      var s := Step(len, stops, j0, sc);
      if s.Ok? {
        ScanLabels(len, stops, j0 + 1, s.value, labels0);
      }
    }
  }

  /**
   * A successful labelling has one row per protein, in FASTA order, with its
   * identifier and length, and the label list of the stops, with "unknown"
   * appended at most once.
   */
  lemma LoadRows(ps: seq<PM.FastaRecord>, binsText: String, cli: bool)
    ensures var r := LoadProteinsSpec(ps, binsText, cli);
      var labels0 := BinLabels(|T.ConfigNumeric(binsText)|, cli);
      r.Ok? ==>
        |r.value.0| == |ps| &&
        (forall i :: 0 <= i < |ps| ==> r.value.0[i].id == ps[i].id && r.value.0[i].length == |ps[i].sequence|) &&
        (r.value.1 == labels0 || r.value.1 == labels0 + [Unknown])
  {
    var bins := T.ConfigNumeric(binsText);
    var labels0 := BinLabels(|bins|, cli);
    BinLabelsDistinct(|bins|, cli);
    PlaceFromRows(ps, Stops(bins, cli), 0, Binning([], labels0, None), labels0);
  }

  // ---------------------------------------------------------------- not-expressed proteins

  /** Python's `round()`: to the nearest integer, a half to the even neighbour. */
  function PyRound(x: real): (r: int)
    ensures r as real - 0.5 <= x <= r as real + 0.5
    ensures x - x.Floor as real == 0.5 ==> r % 2 == 0
    ensures x - x.Floor as real != 0.5 ==> r == (x + 0.5).Floor
  {
    var f := x.Floor;
    var d := x - f as real;
    if d > 0.5 then f + 1
    else if d < 0.5 then f
    else if f % 2 == 0 then f else f + 1
  }

  /** `number_to_keep`: the share `100 - frac` percent of the group, rounded, but at least one. */
  function KeepCount(size: nat, frac: real): (k: int)
    ensures k >= 1
    ensures PyRound(size as real * ((100.0 - frac) / 100.0)) >= 1 ==> k == PyRound(size as real * ((100.0 - frac) / 100.0))
  {
    var k := PyRound(size as real * ((100.0 - frac) / 100.0));
    if k < 1 then 1 else k
  }

  /** `number_to_discard`: what is left of the group after the kept share; never the whole of a non-empty group. */
  function DiscardCount(size: nat, frac: real): (d: int)
    ensures d <= size - 1
    ensures d == size - KeepCount(size, frac)
  {
    size - KeepCount(size, frac)
  }

  /** How many proteins a group really loses: `range(number_to_discard)` is empty for a negative count. */
  function Zeroed(size: nat, frac: real): (z: nat)
    ensures size >= 1 ==> z < size
    ensures size == 0 ==> z == 0
  {
    var d := DiscardCount(size, frac);
    if d > 0 then d else 0
  }

  /** With no fraction left out, nothing is discarded; with all left out, one protein stays. */
  lemma ZeroedBounds(size: nat)
    ensures Zeroed(size, 0.0) == 0
    ensures size >= 1 ==> Zeroed(size, 100.0) == size - 1
  {
    assert PyRound(size as real) == size;
    assert PyRound(0.0) == 0;
  }

  /** `protein_df[protein_df.Group == g].index`: the rows in group `g`, in row order. */
  function GroupIndex(groups: seq<String>, g: String): (r: seq<nat>)
    ensures forall i :: 0 <= i < |r| ==> r[i] < |groups| && groups[r[i]] == g
    ensures forall i :: 0 <= i < |groups| && groups[i] == g ==> i in r
    ensures forall i, j :: 0 <= i < j < |r| ==> r[i] < r[j]
  {
    if groups == [] then []
    else
      var n := |groups| - 1;
      var init := GroupIndex(groups[..n], g);
      assert forall i :: 0 <= i < n ==> groups[..n][i] == groups[i];
      init + (if groups[n] == g then [n] else [])
  }

  /** Whether row `i` is set to 0 in one of the groups. */
  predicate ZeroedIn(zs: seq<seq<nat>>, i: nat)
  {
    exists k :: 0 <= k < |zs| && i in zs[k]
  }

  /** A column: 0.0 on the zeroed rows, 1.0 on every other. */
  predicate Masks(column: seq<real>, zs: seq<seq<nat>>)
  {
    forall i :: 0 <= i < |column| ==> column[i] == if ZeroedIn(zs, i) then 0.0 else 1.0
  }

  /**
   * A choice of rows to zero for the first |zs| group/fraction pairs: for
   * pair k, `Zeroed` distinct rows of its group.
   */
  predicate ZeroingPrefix(groups: seq<String>, labels: seq<String>, fracs: seq<real>, zs: seq<seq<nat>>)
  {
    forall k :: 0 <= k < |zs| ==> ZeroingOf(groups, labels, fracs, k, zs[k])
  }

  /** `z` is a choice for pair k: `Zeroed` distinct rows of the group it names. */
  predicate ZeroingOf(groups: seq<String>, labels: seq<String>, fracs: seq<real>, k: nat, z: seq<nat>)
  {
    k < |labels| && k < |fracs| &&
    |z| == Zeroed(|GroupIndex(groups, labels[k])|, fracs[k]) &&
    multiset(z) <= multiset(GroupIndex(groups, labels[k]))
  }

  /** A choice of rows to zero for all the pairs `zip` forms. */
  predicate Zeroing(groups: seq<String>, labels: seq<String>, fracs: seq<real>, zs: seq<seq<nat>>)
  {
    |zs| == Pairs(labels, fracs) && ZeroingPrefix(groups, labels, fracs, zs)
  }

  /** The rows of each of the given groups, group after group. */
  function Members(groups: seq<String>, labels: seq<String>): (r: seq<seq<nat>>)
    ensures |r| == |labels|
  {
    if labels == [] then [] else Members(groups, labels[..|labels| - 1]) + [GroupIndex(groups, labels[|labels| - 1])]
  }

  /** The number of pairs `zip(protein_groups_list, leave_out_list)` forms. */
  function Pairs(labels: seq<String>, fracs: seq<real>): nat
  {
    if |labels| <= |fracs| then |labels| else |fracs|
  }

  /**
   * One group after the shuffle: `discard` rows popped from the end of the
   * shuffled index list and set to 0; the rest kept, in shuffled order.
   */
  method DiscardGroup(column: seq<real>, idx: seq<nat>, discard: int)
    returns (newColumn: seq<real>, zeroed: seq<nat>, kept: seq<nat>)
    requires discard <= |idx|
    ensures |zeroed| == if discard > 0 then discard else 0
    ensures multiset(zeroed) + multiset(kept) == multiset(idx)
    ensures |newColumn| == |column|
    ensures forall i :: 0 <= i < |column| ==> newColumn[i] == if i in zeroed then 0.0 else column[i]
  {
    assert multiset(idx) == multiset(idx);
    var order: seq<nat> :| multiset(order) == multiset(idx);
    assert |order| == |idx| by {
      assert |multiset(order)| == |multiset(idx)|;
    }
    var current := order;
    zeroed := [];
    var d := 0;
    while d < discard
      invariant 0 <= d <= if discard > 0 then discard else 0
      invariant |zeroed| == d && |current| == |order| - d
      invariant multiset(zeroed) + multiset(current) == multiset(order)
    {
      var last := current[|current| - 1];
      assert current == current[..|current| - 1] + [last];
      zeroed := zeroed + [last];
      current := current[..|current| - 1];
      d := d + 1;
    }
    kept := current;
    newColumn := seq(|column|, i requires 0 <= i < |column| => if i in zeroed then 0.0 else column[i]);
  }

  /**
   * One sampling column of `simulate_abundance_cli`: every row set to 1.0, then
   * for each (group, fraction) pair the rows to leave out set to 0.0; the rows
   * kept are collected in `existing`.
   */
  method SimulateColumn(groups: seq<String>, labels: seq<String>, fracs: seq<real>)
    returns (column: seq<real>, existing: seq<nat>, zs: seq<seq<nat>>)
    ensures Zeroing(groups, labels, fracs, zs) && Masks(column, zs) && |column| == |groups|
    ensures multiset(existing) + multiset(A.Flatten(zs)) == multiset(A.Flatten(Members(groups, labels[..|zs|])))
  {
    column := seq(|groups|, i requires 0 <= i < |groups| => 1.0);
    existing := [];
    zs := [];
    var m := Pairs(labels, fracs);
    var k := 0;
    while k < m
      invariant 0 <= k <= m && |zs| == k && |column| == |groups|
      invariant ZeroingPrefix(groups, labels, fracs, zs)
      invariant Masks(column, zs)
      invariant multiset(existing) + multiset(A.Flatten(zs)) == multiset(A.Flatten(Members(groups, labels[..k])))
    {
      var idx := GroupIndex(groups, labels[k]);
      var discard := DiscardCount(|idx|, fracs[k]);
      var newColumn, zeroed, kept := DiscardGroup(column, idx, discard);
      MasksExtend(column, newColumn, zs, zeroed);
      assert labels[..k + 1][..k] == labels[..k];
      assert Members(groups, labels[..k + 1]) == Members(groups, labels[..k]) + [idx];
      KeptStep(existing, zs, kept, zeroed, idx, Members(groups, labels[..k]));
      ZeroingSnoc(groups, labels, fracs, zs, zeroed);
      column := newColumn;
      existing := existing + kept;
      zs := zs + [zeroed];
      k := k + 1;
    }
  }

  /** The rows kept and zeroed so far, and those of one more group, account for one more group's rows. */
  lemma KeptStep(existing: seq<nat>, zs: seq<seq<nat>>, kept: seq<nat>, zeroed: seq<nat>, idx: seq<nat>, members: seq<seq<nat>>)
    requires multiset(existing) + multiset(A.Flatten(zs)) == multiset(A.Flatten(members))
    requires multiset(zeroed) + multiset(kept) == multiset(idx)
    ensures multiset(existing + kept) + multiset(A.Flatten(zs + [zeroed])) == multiset(A.Flatten(members + [idx]))
  {
    A.FlattenSnoc(zs, zeroed);
    A.FlattenSnoc(members, idx);
  }

  lemma ZeroingSnoc(groups: seq<String>, labels: seq<String>, fracs: seq<real>, zs: seq<seq<nat>>, z: seq<nat>)
    requires ZeroingPrefix(groups, labels, fracs, zs) && |zs| < |labels| && |zs| < |fracs|
    requires |z| == Zeroed(|GroupIndex(groups, labels[|zs|])|, fracs[|zs|])
    requires multiset(z) <= multiset(GroupIndex(groups, labels[|zs|]))
    ensures ZeroingPrefix(groups, labels, fracs, zs + [z])
  {
    var next := zs + [z];
    assert ZeroingOf(groups, labels, fracs, |zs|, z);
    forall k | 0 <= k < |next| ensures ZeroingOf(groups, labels, fracs, k, next[k]) {
      if k < |zs| {
        assert next[k] == zs[k];
      }
    }
  }

  /** Zeroing one more group on a mask gives the mask of all the groups. */
  lemma MasksExtend(column: seq<real>, newColumn: seq<real>, zs: seq<seq<nat>>, zeroed: seq<nat>)
    requires Masks(column, zs) && |newColumn| == |column|
    requires forall i :: 0 <= i < |column| ==> newColumn[i] == if i in zeroed then 0.0 else column[i]
    ensures Masks(newColumn, zs + [zeroed])
  {
    var next := zs + [zeroed];
    forall i | 0 <= i < |column| ensures newColumn[i] == if ZeroedIn(next, i) then 0.0 else 1.0 {
      if i in zeroed {
        assert next[|zs|] == zeroed;
      } else if ZeroedIn(zs, i) {
        var k :| 0 <= k < |zs| && i in zs[k];
        assert next[k] == zs[k];
      } else {
        forall k | 0 <= k < |next| ensures i !in next[k] {
          if k < |zs| {
            assert next[k] == zs[k];
          }
        }
      }
    }
  }

  /** "Random_sampling_i". */
  function ColumnName(i: nat): String
  {
    "Random_sampling_" + NatToString(i)
  }

  /** The column names are distinct. */
  lemma ColumnNamesDistinct(i: nat, j: nat)
    requires i != j
    ensures ColumnName(i) != ColumnName(j)
  {
    if ColumnName(i) == ColumnName(j) {
      assert ColumnName(i)[16..] == NatToString(i);
      assert ColumnName(j)[16..] == NatToString(j);
      NatToStringInjective(i, j);
    }
  }

  /** A column of weights as one simulation leaves it: one entry per row, zero exactly on some valid choice of zeroed rows. */
  ghost predicate Simulated(groups: seq<String>, labels: seq<String>, fracs: seq<real>, column: seq<real>)
  {
    |column| == |groups| && exists zs :: Zeroing(groups, labels, fracs, zs) && Masks(column, zs)
  }

  /**
   * The sampling loop of `simulate_abundance_cli`: columns Random_sampling_1 to
   * Random_sampling_N, each zeroing its own choice of rows; the abundance
   * weights written into the kept rows afterwards are not modelled.
   */
  method SimulateAbundance(groups: seq<String>, labels: seq<String>, fracs: seq<real>, samplings: int)
    returns (columns: seq<(String, seq<real>)>)
    ensures |columns| == if samplings > 0 then samplings else 0
    ensures forall c :: 0 <= c < |columns| ==>
      columns[c].0 == ColumnName(c + 1) && Simulated(groups, labels, fracs, columns[c].1)
  {
    columns := [];
    var c := 1;
    while c < samplings + 1
      invariant 1 <= c <= (if samplings > 0 then samplings else 0) + 1 && |columns| == c - 1
      invariant SimulatedColumns(groups, labels, fracs, columns)
    {
      var column, existing, zs := SimulateColumn(groups, labels, fracs);
      assert Simulated(groups, labels, fracs, column);
      SimulatedSnoc(groups, labels, fracs, columns, column);
      columns := columns + [(ColumnName(c), column)];
      c := c + 1;
    }
  }

  /** Why `simulate_abundance_cli` stops before any column is made. */
  datatype AbundanceError = ValueError   // `float(Protein_dynamic_range)` or `int(Sampling_Number)` of a malformed text

  /**
   * `simulate_abundance_cli` from the parameter texts: the dynamic range is read with
   * `float()`, the not-expressed fractions with `config_to_numeric_list`, the number of
   * samplings with `int()`; either conversion failing raises ValueError, otherwise the
   * columns are those of the sampling loop over the fractions read.
   */
  method SimulateAbundanceCli(groups: seq<String>, labels: seq<String>, dynamicRange: String, notExpressed: String, samplingNumber: String)
    returns (r: Result<seq<(String, seq<real>)>, AbundanceError>)
    ensures r.Err? <==> ParseReal(dynamicRange).None? || ParseInt(samplingNumber).None?
    ensures r.Ok? ==> var n := ParseInt(samplingNumber).value;
      |r.value| == (if n > 0 then n else 0) &&
      forall c :: 0 <= c < |r.value| ==>
        r.value[c].0 == ColumnName(c + 1) && Simulated(groups, labels, T.ConfigNumeric(notExpressed), r.value[c].1)
  {
    var dynRange := ParseReal(dynamicRange);
    if dynRange.None? {
      return Err(ValueError);
    }
    var fracs := T.ConfigToNumericList(notExpressed);
    var samplings := ParseInt(samplingNumber);
    if samplings.None? {
      return Err(ValueError);
    }
    var columns := SimulateAbundance(groups, labels, fracs, samplings.value);
    r := Ok(columns);
  }

  /** Columns named Random_sampling_1, 2, ... in order, each a simulated column. */
  ghost predicate SimulatedColumns(groups: seq<String>, labels: seq<String>, fracs: seq<real>, columns: seq<(String, seq<real>)>)
  {
    forall q :: 0 <= q < |columns| ==>
      columns[q].0 == ColumnName(q + 1) && Simulated(groups, labels, fracs, columns[q].1)
  }

  lemma SimulatedSnoc(groups: seq<String>, labels: seq<String>, fracs: seq<real>, columns: seq<(String, seq<real>)>, column: seq<real>)
    requires SimulatedColumns(groups, labels, fracs, columns) && Simulated(groups, labels, fracs, column)
    ensures SimulatedColumns(groups, labels, fracs, columns + [(ColumnName(|columns| + 1), column)])
  {
    var next := columns + [(ColumnName(|columns| + 1), column)];
    forall q | 0 <= q < |next|
      ensures next[q].0 == ColumnName(q + 1) && Simulated(groups, labels, fracs, next[q].1)
    {
      if q < |columns| {
        assert next[q] == columns[q];
      }
    }
  }
}
