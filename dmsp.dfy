/**
 * The detectability prediction step (`run_DeepMSPep`): peptides encoded as
 * rows of amino-acid codes padded to the model's input length, the model's
 * raw predictions, special peptides given the mean prediction, and every
 * value reported as 1 - prediction. The neural model is the function
 * parameter `predict`.
 */
module Dmsp {
  import opened Wrappers
  import opened Strings

  // ---------------------------------------------------------------- the amino-acid codes

  /** `aa_dict`: the code of each of the 22 letters; any other character has none. */
  function Code(c: char): Option<nat>
  {
    match c
    case 'A' => Some(1)   case 'R' => Some(2)   case 'N' => Some(3)   case 'D' => Some(4)
    case 'C' => Some(5)   case 'Q' => Some(6)   case 'E' => Some(7)   case 'G' => Some(8)
    case 'H' => Some(9)   case 'I' => Some(10)  case 'L' => Some(11)  case 'K' => Some(12)
    case 'M' => Some(13)  case 'F' => Some(14)  case 'P' => Some(15)  case 'O' => Some(16)
    case 'S' => Some(17)  case 'U' => Some(18)  case 'T' => Some(19)  case 'W' => Some(20)
    case 'Y' => Some(21)  case 'V' => Some(22)
    case _ => None
  }

  /** The letter with code `k`, the inverse of `aa_dict`. */
  function Letter(k: nat): char
    requires 1 <= k <= 22
  {
    match k
    case 1 => 'A'   case 2 => 'R'   case 3 => 'N'   case 4 => 'D'   case 5 => 'C'   case 6 => 'Q'
    case 7 => 'E'   case 8 => 'G'   case 9 => 'H'   case 10 => 'I'  case 11 => 'L'  case 12 => 'K'
    case 13 => 'M'  case 14 => 'F'  case 15 => 'P'  case 16 => 'O'  case 17 => 'S'  case 18 => 'U'
    case 19 => 'T'  case 20 => 'W'  case 21 => 'Y'  case _ => 'V'
  }

  /** Every code lies in 1..22 and names its letter back. */
  lemma CodeLetter(c: char)
    ensures Code(c).Some? ==> 1 <= Code(c).value <= 22 && Letter(Code(c).value) == c
  {
  }

  /** Every code in 1..22 belongs to a letter. */
  lemma LetterCode(k: nat)
    requires 1 <= k <= 22
    ensures Code(Letter(k)) == Some(k)
  {
  }

  /** Different letters have different codes. */
  lemma CodeInjective(a: char, b: char)
    requires Code(a).Some? && Code(a) == Code(b)
    ensures a == b
  {
    CodeLetter(a);
    CodeLetter(b);
  }

  // ---------------------------------------------------------------- encoding one peptide

  /** The codes of the peptide's letters in order, the letters `aa_dict` lacks dropped. */
  function Codes(pep: String): (r: seq<nat>)
    ensures |r| <= |pep| && |r| == |Known(pep)|
    ensures forall i :: 0 <= i < |r| ==> 1 <= r[i] <= 22
  {
    if pep == [] then []
    else
      var c := Code(pep[|pep| - 1]);
      CodeLetter(pep[|pep| - 1]);
      Codes(pep[..|pep| - 1]) + (if c.Some? then [c.value] else [])
  }

  /** The number of the peptide's letters `aa_dict` lacks. */
  function Unknowns(pep: String): nat
  {
    if pep == [] then 0
    else Unknowns(pep[..|pep| - 1]) + (if Code(pep[|pep| - 1]).None? then 1 else 0)
  }

  /** The peptide with the letters `aa_dict` lacks removed. */
  function Known(pep: String): (r: String)
    ensures forall i :: 0 <= i < |r| ==> Code(r[i]).Some?
  {
    if pep == [] then []
    else Known(pep[..|pep| - 1]) + (if Code(pep[|pep| - 1]).Some? then [pep[|pep| - 1]] else [])
  }

  /** Decoding the codes gives back the peptide's known letters; the dropped ones are the unknown ones. */
  lemma {:induction false} CodesDecode(pep: String)
    ensures |Codes(pep)| == |Known(pep)| && |Codes(pep)| + Unknowns(pep) == |pep|
    ensures forall i :: 0 <= i < |Codes(pep)| ==> Letter(Codes(pep)[i]) == Known(pep)[i]
  {
    if pep != [] {
      var init := pep[..|pep| - 1];
      CodesDecode(init);
      CodeLetter(pep[|pep| - 1]);
    }
  }

  /** A peptide of known letters only is encoded without loss. */
  lemma {:induction false} KnownOnly(pep: String)
    requires forall i :: 0 <= i < |pep| ==> Code(pep[i]).Some?
    ensures Known(pep) == pep && Unknowns(pep) == 0
  {
    if pep != [] {
      var init := pep[..|pep| - 1];
      assert forall i :: 0 <= i < |init| ==> init[i] == pep[i];
      KnownOnly(init);
      assert pep == init + [pep[|pep| - 1]];
    }
  }

  /** `n` copies of the peptide. */
  function Repeat(pep: String, n: nat): (r: seq<String>)
    ensures |r| == n && forall i :: 0 <= i < n ==> r[i] == pep
  {
    if n == 0 then [] else Repeat(pep, n - 1) + [pep]
  }

  // ---------------------------------------------------------------- encoding the list

  /**
   * What `load_pep_and_codify` collects: the code rows, the number of
   * peptides skipped as too long, the peptides encoded (`newLines`) and the
   * special peptides, one entry per unknown letter.
   */
  datatype Codified = Codified(codes: seq<seq<nat>>, skipped: nat, lines: seq<String>, special: seq<String>)

  /** The peptides no longer than `maxAa`, in order. */
  function ShortPeptides(peps: seq<String>, maxAa: nat): (r: seq<String>)
    ensures |r| <= |peps|
  {
    if peps == [] then []
    else ShortPeptides(peps[..|peps| - 1], maxAa) + (if |peps[|peps| - 1]| <= maxAa then [peps[|peps| - 1]] else [])
  }

  /**
   * The encoding of the peptide list: every peptide is either encoded or
   * counted as skipped; the encoded ones are exactly those no longer than
   * `maxAa`, each with its code row; every special entry is an encoded peptide
   * with an unknown letter.
   */
  function Codify(peps: seq<String>, maxAa: nat): (c: Codified)
    ensures |c.lines| + c.skipped == |peps|
    ensures c.lines == ShortPeptides(peps, maxAa)
    ensures |c.codes| == |c.lines| && forall k :: 0 <= k < |c.lines| ==> c.codes[k] == Codes(c.lines[k])
    ensures forall k :: 0 <= k < |c.lines| ==> |c.lines[k]| <= maxAa
    ensures forall s :: s in c.special ==> s in c.lines && Unknowns(s) >= 1
  {
    if peps == [] then Codified([], 0, [], [])
    else
      var c := Codify(peps[..|peps| - 1], maxAa);
      var pep := peps[|peps| - 1];
      if !(|pep| > maxAa) then
        Codified(c.codes + [Codes(pep)], c.skipped, c.lines + [pep], c.special + Repeat(pep, Unknowns(pep)))
      else
        c.(skipped := c.skipped + 1)
  }

  /** `n` zeros. */
  function ZeroCodes(n: nat): (r: seq<nat>)
    ensures |r| == n && forall i :: 0 <= i < n ==> r[i] == 0
  {
    seq(n, i requires 0 <= i < n => 0)
  }

  /**
   * `pad_sequences(..., value=0, padding='post', maxlen=maxAa)` on one row:
   * zeros appended up to `maxAa`; a longer row keeps its last `maxAa` entries.
   */
  function PadRow(row: seq<nat>, maxAa: nat): (r: seq<nat>)
    ensures |r| == maxAa
    ensures |row| <= maxAa ==> r[..|row|] == row && forall i :: |row| <= i < maxAa ==> r[i] == 0
  {
    if |row| > maxAa then row[|row| - maxAa..] else row + ZeroCodes(maxAa - |row|)
  }

  /** The padded rows: each encoded peptide's codes, then zeros, which no letter has, to the full length. */
  lemma PaddedRows(peps: seq<String>, maxAa: nat, k: int)
    requires 0 <= k < |Codify(peps, maxAa).lines|
    ensures var c := Codify(peps, maxAa); var row := PadRow(c.codes[k], maxAa);
      |row| == maxAa &&
      (forall i :: 0 <= i < maxAa ==> (row[i] == 0 <==> i >= |Codes(c.lines[k])|)) &&
      (forall i :: 0 <= i < |Codes(c.lines[k])| ==> Letter(row[i]) == Known(c.lines[k])[i])
  {
    var c := Codify(peps, maxAa);
    var codes := Codes(c.lines[k]);
    CodesDecode(c.lines[k]);
    var row := PadRow(codes, maxAa);
    assert forall i :: 0 <= i < |codes| ==> row[i] == row[..|codes|][i];
  }

  /** The inner loop of `load_pep_and_codify`: the codes of one peptide, and the peptide once per unknown letter. */
  method CodifyPeptide(pep: String) returns (current: seq<nat>, specials: seq<String>)
    ensures current == Codes(pep) && specials == Repeat(pep, Unknowns(pep))
  {
    current := [];
    specials := [];
    var i := 0;
    while i < |pep|
      invariant 0 <= i <= |pep|
      invariant current == Codes(pep[..i])
      invariant specials == Repeat(pep, Unknowns(pep[..i]))
    {
      assert pep[..i + 1][..i] == pep[..i];
      var code := Code(pep[i]);
      if code.Some? {
        current := current + [code.value];
      } else {
        specials := specials + [pep];
      }
      i := i + 1;
    }
    assert pep[..i] == pep;
  }

  /** `load_pep_and_codify`: the loop over the peptides and, inside, over their letters. */
  method LoadPepAndCodify(peps: seq<String>, maxAa: nat)
    returns (predictData: seq<seq<nat>>, longPepCounter: nat, newLines: seq<String>, special: seq<String>)
    ensures var c := Codify(peps, maxAa);
      predictData == seq(|c.codes|, k requires 0 <= k < |c.codes| => PadRow(c.codes[k], maxAa)) &&
      longPepCounter == c.skipped && newLines == c.lines && special == c.special
  {
    var pepCodes: seq<seq<nat>> := [];
    longPepCounter := 0;
    newLines := [];
    special := [];
    var k := 0;
    while k < |peps|
      invariant 0 <= k <= |peps|
      invariant Codify(peps[..k], maxAa) == Codified(pepCodes, longPepCounter, newLines, special)
    {
      var pep := peps[k];
      assert peps[..k + 1][..k] == peps[..k];
      if !(|pep| > maxAa) {
        var current, specials := CodifyPeptide(pep);
        special := special + specials;
        pepCodes := pepCodes + [current];
        newLines := newLines + [pep];
      } else {
        longPepCounter := longPepCounter + 1;
      }
      k := k + 1;
    }
    assert peps[..k] == peps;
    predictData := seq(|pepCodes|, j requires 0 <= j < |pepCodes| => PadRow(pepCodes[j], maxAa));
  }

  // ---------------------------------------------------------------- the reported predictions

  function SumOf(xs: seq<real>): real
  {
    if xs == [] then 0.0 else SumOf(xs[..|xs| - 1]) + xs[|xs| - 1]
  }

  /** `numpy.mean`; the empty list has none. */
  function Mean(xs: seq<real>): Option<real>
  {
    if xs == [] then None else Some(SumOf(xs) / |xs| as real)
  }

  lemma {:induction false} SumBounds(xs: seq<real>, lo: real, hi: real)
    requires forall i :: 0 <= i < |xs| ==> lo <= xs[i] <= hi
    ensures lo * |xs| as real <= SumOf(xs) <= hi * |xs| as real
  {
    if xs != [] {
      var init := xs[..|xs| - 1];
      assert forall i :: 0 <= i < |init| ==> init[i] == xs[i];
      SumBounds(init, lo, hi);
      var m := |init| as real;
      var x := xs[|xs| - 1];
      assert SumOf(xs) == SumOf(init) + x;
      assert lo * m <= SumOf(init) <= hi * m && lo <= x <= hi;
      assert |xs| as real == m + 1.0;
      assert lo * (m + 1.0) == lo * m + lo && hi * (m + 1.0) == hi * m + hi;
    }
  }

  /** The mean of values within bounds is within the bounds. */
  lemma MeanBounds(xs: seq<real>, lo: real, hi: real)
    requires forall i :: 0 <= i < |xs| ==> lo <= xs[i] <= hi
    ensures Mean(xs).Some? <==> |xs| >= 1
    ensures Mean(xs).Some? ==> lo <= Mean(xs).value <= hi
  {
    if xs != [] {
      SumBounds(xs, lo, hi);
      var n := |xs| as real;
      assert (lo * n) / n == lo && (hi * n) / n == hi;
    }
  }

  /** The model's raw prediction for each encoded peptide, in line order. */
  function RawPredictions(peps: seq<String>, maxAa: nat, predict: seq<nat> -> real): (r: seq<real>)
    ensures |r| == |Codify(peps, maxAa).lines|
  {
    var c := Codify(peps, maxAa);
    seq(|c.codes|, k requires 0 <= k < |c.codes| => predict(PadRow(c.codes[k], maxAa)))
  }

  /**
   * The table `run_DeepMSPep` returns, as its two columns: the encoded
   * peptides with their predictions, then the special entries with the mean
   * prediction, every value turned into 1 - prediction.
   */
  function Report(peps: seq<String>, maxAa: nat, predict: seq<nat> -> real): (seq<String>, seq<real>)
  {
    var c := Codify(peps, maxAa);
    Reported(c.lines, c.special, RawPredictions(peps, maxAa, predict))
  }

  /** The two columns from the encoded peptides, the special entries and the raw predictions. */
  function Reported(lines: seq<String>, special: seq<String>, raw: seq<real>): (seq<String>, seq<real>)
  {
    var mean := if raw == [] then 0.0 else SumOf(raw) / |raw| as real;
    (lines + special,
     seq(|lines| + |special|, k requires 0 <= k < |lines| + |special| => 1.0 - (if k < |raw| then raw[k] else mean)))
  }

  /** `run_DeepMSPep` after the model load: encode, predict, mean-fill the special entries, invert. */
  method RunDeepMSPep(peps: seq<String>, maxAa: nat, predict: seq<nat> -> real)
    returns (pepSeq: seq<String>, predOutput2: seq<real>)
    ensures (pepSeq, predOutput2) == Report(peps, maxAa, predict)
  {
    var predictData, skipped, lines, specialPeptides := LoadPepAndCodify(peps, maxAa);
    var modelPred := seq(|predictData|, k requires 0 <= k < |predictData| => predict(predictData[k]));
    assert modelPred == RawPredictions(peps, maxAa, predict);
    if |specialPeptides| >= 1 {
      assert specialPeptides[0] in lines;
    }
    pepSeq, predOutput2 := Predictions(lines, specialPeptides, modelPred);
  }

  /** The loops of `run_DeepMSPep` after the prediction: the columns, the mean fill and the inversion. */
  method Predictions(lines: seq<String>, specialPeptides: seq<String>, modelPred: seq<real>)
    returns (pepSeq: seq<String>, predOutput2: seq<real>)
    requires |modelPred| == |lines|
    requires |specialPeptides| >= 1 ==> |lines| >= 1
    ensures (pepSeq, predOutput2) == Reported(lines, specialPeptides, modelPred)
  {
    pepSeq := [];
    var predOutput: seq<real> := [];
    var k := 0;
    while k < |modelPred|
      invariant 0 <= k <= |modelPred| && pepSeq == lines[..k] && predOutput == modelPred[..k]
    {
      assert lines[..k + 1] == lines[..k] + [lines[k]];
      assert modelPred[..k + 1] == modelPred[..k] + [modelPred[k]];
      pepSeq := pepSeq + [lines[k]];
      predOutput := predOutput + [modelPred[k]];
      k := k + 1;
    }
    assert lines[..k] == lines && modelPred[..k] == modelPred;
    var meanPrediction := Mean(predOutput);
    ghost var n := |predOutput|;
    var s := 0;
    while s < |specialPeptides|
      invariant 0 <= s <= |specialPeptides|
      invariant pepSeq == lines + specialPeptides[..s] && |predOutput| == n + s
      invariant forall q :: 0 <= q < n ==> predOutput[q] == modelPred[q]
      invariant forall q :: n <= q < n + s ==> meanPrediction.Some? && predOutput[q] == meanPrediction.value
    {
      assert specialPeptides[..s + 1] == specialPeptides[..s] + [specialPeptides[s]];
      pepSeq := pepSeq + [specialPeptides[s]];
      predOutput := predOutput + [meanPrediction.value];
      s := s + 1;
    }
    assert specialPeptides[..s] == specialPeptides;
    predOutput2 := [];
    var q := 0;
    while q < |predOutput|
      invariant 0 <= q <= |predOutput| && |predOutput2| == q
      invariant forall i :: 0 <= i < q ==> predOutput2[i] == 1.0 - predOutput[i]
    {
      predOutput2 := predOutput2 + [1.0 - predOutput[q]];
      q := q + 1;
    }
    var r := Reported(lines, specialPeptides, modelPred);
    assert meanPrediction.Some? ==> meanPrediction.value == SumOf(modelPred) / |modelPred| as real;
    assert |predOutput2| == |r.1|;
    assert forall i :: 0 <= i < |r.1| ==> predOutput2[i] == r.1[i];
    assert predOutput2 == r.1 && pepSeq == r.0;
  }

  /**
   * The report lists the encoded peptides in input order, then the special
   * entries; each encoded peptide carries 1 - its raw prediction and each
   * special entry 1 - the mean raw prediction.
   */
  lemma ReportRows(peps: seq<String>, maxAa: nat, predict: seq<nat> -> real)
    ensures var r := Report(peps, maxAa, predict); var c := Codify(peps, maxAa);
      var raw := RawPredictions(peps, maxAa, predict);
      r.0 == ShortPeptides(peps, maxAa) + c.special && |r.1| == |r.0| &&
      (forall k :: 0 <= k < |raw| ==> r.1[k] == 1.0 - predict(PadRow(Codes(r.0[k]), maxAa))) &&
      (|c.special| >= 1 ==> Mean(raw).Some? && forall k :: |raw| <= k < |r.1| ==> r.1[k] == 1.0 - Mean(raw).value)
  {
    var c := Codify(peps, maxAa);
    if |c.special| >= 1 {
      assert c.special[0] in c.lines;
    }
  }

  /** Model predictions between 0 and 1 are reported between 0 and 1. */
  lemma ReportInUnit(peps: seq<String>, maxAa: nat, predict: seq<nat> -> real)
    requires forall row :: 0.0 <= predict(row) <= 1.0
    ensures forall k :: 0 <= k < |Report(peps, maxAa, predict).1| ==> 0.0 <= Report(peps, maxAa, predict).1[k] <= 1.0
  {
    var raw := RawPredictions(peps, maxAa, predict);
    var c := Codify(peps, maxAa);
    assert forall i :: 0 <= i < |raw| ==> raw[i] == predict(PadRow(c.codes[i], maxAa));
    MeanBounds(raw, 0.0, 1.0);
  }

  /** Peptides no longer than the input length are all reported; the longer ones are only counted. */
  lemma {:induction false} ShortPeptidesMembers(peps: seq<String>, maxAa: nat)
    ensures forall p :: p in ShortPeptides(peps, maxAa) <==> p in peps && |p| <= maxAa
  {
    if peps != [] {
      var init := peps[..|peps| - 1];
      ShortPeptidesMembers(init, maxAa);
      assert peps == init + [peps[|peps| - 1]];
    }
  }
}
