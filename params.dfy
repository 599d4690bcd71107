/**
 * The parameter object of CoMPaseD and its helpers: the validation error
 * counter, the character cleaning applied to parameter values, the
 * `key = value` reader of parameter files, the joiners that turn list
 * parameters back into comma-separated text, and the lines a parameter file
 * is written with.
 */
module ParamFunctions {
  import opened Wrappers
  import opened Strings

  // ---------------------------------------------------------------- validation counter

  /** Counts the errors found while validating parameters and keeps their messages. */
  class ValidationClass {
    var errCounter: int
    var errors: seq<String>

    /** The counter always equals the number of messages. */
    predicate Valid()
      reads this
    {
      errCounter == |errors|
    }

    constructor ()
      ensures Valid() && errCounter == 0 && errors == []
    {
      errCounter := 0;
      errors := [];
    }

    method AddError(message: String)
      modifies this
      ensures errCounter == old(errCounter) + 1 && errors == old(errors) + [message]
      ensures Valid() <==> old(Valid())
    {
      errCounter := errCounter + 1;
      errors := errors + [message];
    }

    /** True when no error was counted; for a valid counter, when no message was kept. */
    function GetResult(): (ok: bool)
      reads this
      ensures ok <==> errCounter == 0
      ensures Valid() ==> (ok <==> errors == [])
    {
      errCounter == 0
    }
  }

  // ---------------------------------------------------------------- messages

  /** The messages `validate_params` reports besides those of cleaning. */
  const CruxMissing: String := "Crux path does not exist."
  const ClipsMissing: String := "Clips path does not exist."
  const PromastMissing: String := "Promast path does not exist."
  const FastaMissing: String := "Fasta file does not exist."
  const OutputUnusable: String := "Output folder does not exist and could not be created."
  const BinNotNumeric: String := "Bin definition contains non-numeric values."
  const ProteinWeightNotNumeric: String := "Protein ID weighting factor is not numeric."
  const PeptideWeightNotNumeric: String := "Peptide ID weighting factor is not numeric."
  const CoverageWeightNotNumeric: String := "Protein coverage weighting factor is not numeric."
  const DeepWeightNotNumeric: String := "Deep MS-Peptide weighting factor is not numeric."
  const DeepModelMissing: String := "Deep MS-Peptide model path does not exist."

  // ---------------------------------------------------------------- cleaning

  /** The characters a parameter value may keep unless the caller names others. */
  const DefaultAllowed: String := "0123456789,.[]"

  /** What one character of a value becomes: itself if allowed, then '-' for '_' and ',' for ';'. */
  function CleanChar(c: char, allowed: String): String
  {
    (if c in allowed then [c] else []) + (if c == '_' then "-" else []) + (if c == ';' then "," else [])
  }

  /**
   * The cleaned value: each character replaced by what it becomes, in order.
   * Only allowed characters, '-' and ',' can remain.
   */
  function CleanText(s: String, allowed: String): (r: String)
    ensures forall i :: 0 <= i < |r| ==> r[i] in allowed || r[i] == '-' || r[i] == ','
  {
    if s == [] then [] else CleanText(s[..|s| - 1], allowed) + CleanChar(s[|s| - 1], allowed)
  }

  /** The messages one character of the value `s` of parameter `name` gives rise to. */
  function CharMessages(c: char, s: String, name: String, allowed: String): (m: seq<String>)
    ensures |m| == (if c in allowed then 0 else 1) + (if c == '_' || c == ';' then 1 else 0)
  {
    (if c in allowed then [] else ["'" + [c] + "' was removed from " + s + " in " + name + "."]) +
    (if c == '_' then ["'_' was replaced by '-' from " + s + " in " + name + "."] else []) +
    (if c == ';' then ["';' was replaced by ',' from " + s + " in " + name + "."] else [])
  }

  /** The messages for the characters of `t`, a prefix of the value `s`, in order. */
  function MessagesFor(t: String, s: String, name: String, allowed: String): seq<String>
  {
    if t == [] then [] else MessagesFor(t[..|t| - 1], s, name, allowed) + CharMessages(t[|t| - 1], s, name, allowed)
  }

  /** The messages cleaning the value `s` of parameter `name` reports. */
  function CleanMessages(s: String, name: String, allowed: String): seq<String>
  {
    MessagesFor(s, s, name, allowed)
  }

  /** Every character of the value is allowed and neither '_' nor ';'. */
  predicate Clean(s: String, allowed: String)
  {
    forall i :: 0 <= i < |s| ==> s[i] in allowed && s[i] != '_' && s[i] != ';'
  }

  /**
   * Cleaning `clean_parameter_values` with its error reports: the value is
   * rewritten character by character, and in mode 1 each character adds the
   * messages it gives rise to.
   */
  method CleanParameterValues(v: ValidationClass, s: String, name: String, allowed: String, mode: int)
    returns (r: String)
    modifies v
    ensures r == CleanText(s, allowed)
    ensures v.errors == old(v.errors) + (if mode == 1 then CleanMessages(s, name, allowed) else [])
    ensures v.errCounter == old(v.errCounter) + (if mode == 1 then |CleanMessages(s, name, allowed)| else 0)
  {
    r := "";
    var i := 0;
    while i < |s|
      invariant 0 <= i <= |s|
      invariant r == CleanText(s[..i], allowed)
      invariant v.errors == old(v.errors) + (if mode == 1 then MessagesFor(s[..i], s, name, allowed) else [])
      invariant v.errCounter == old(v.errCounter) + (if mode == 1 then |MessagesFor(s[..i], s, name, allowed)| else 0)
    {
      CleanStep(s, i, name, allowed);
      var piece := CleanOne(v, s[i], s, name, allowed, mode);
      r := r + piece;
      AppendAssoc(old(v.errors), if mode == 1 then MessagesFor(s[..i], s, name, allowed) else [],
                  if mode == 1 then CharMessages(s[i], s, name, allowed) else []);
      i := i + 1;
    }
    assert s[..|s|] == s;
  }

  /** Cleaning one more character of `s` appends what it becomes and the messages it gives rise to. */
  lemma CleanStep(s: String, i: nat, name: String, allowed: String)
    requires i < |s|
    ensures CleanText(s[..i + 1], allowed) == CleanText(s[..i], allowed) + CleanChar(s[i], allowed)
    ensures MessagesFor(s[..i + 1], s, name, allowed) == MessagesFor(s[..i], s, name, allowed) + CharMessages(s[i], s, name, allowed)
  {
    assert s[..i + 1][..i] == s[..i];
  }

  /** One character of `clean_parameter_values`: what it becomes, and in mode 1 the messages it gives rise to. */
  method CleanOne(v: ValidationClass, c: char, s: String, name: String, allowed: String, mode: int)
    returns (piece: String)
    modifies v
    ensures piece == CleanChar(c, allowed)
    ensures v.errors == old(v.errors) + (if mode == 1 then CharMessages(c, s, name, allowed) else [])
    ensures v.errCounter == old(v.errCounter) + (if mode == 1 then |CharMessages(c, s, name, allowed)| else 0)
  {
    piece := "";
    if c in allowed {
      piece := piece + [c];
    } else if mode == 1 {
      v.AddError("'" + [c] + "' was removed from " + s + " in " + name + ".");
    }
    if c == '_' {
      piece := piece + "-";
      if mode == 1 {
        v.AddError("'_' was replaced by '-' from " + s + " in " + name + ".");
      }
    }
    if c == ';' {
      piece := piece + ",";
      if mode == 1 {
        v.AddError("';' was replaced by ',' from " + s + " in " + name + ".");
      }
    }
  }

  /** A value that is already clean is left as it is. */
  lemma {:induction false} CleanTextKeeps(s: String, allowed: String)
    requires Clean(s, allowed)
    ensures CleanText(s, allowed) == s
  {
    if s != [] {
      var n := |s| - 1;
      assert Clean(s[..n], allowed) by {
        forall i | 0 <= i < n ensures s[..n][i] in allowed && s[..n][i] != '_' && s[..n][i] != ';' {
          assert s[..n][i] == s[i];
        }
      }
      CleanTextKeeps(s[..n], allowed);
      assert s[..n] + [s[n]] == s;
    }
  }

  /** Cleaning reports nothing exactly when the value is already clean. */
  lemma {:induction false} CleanMessagesNone(t: String, s: String, name: String, allowed: String)
    ensures MessagesFor(t, s, name, allowed) == [] <==> Clean(t, allowed)
  {
    if t != [] {
      var n := |t| - 1;
      CleanMessagesNone(t[..n], s, name, allowed);
      assert forall i :: 0 <= i < n ==> t[..n][i] == t[i];
      if Clean(t, allowed) {
        assert Clean(t[..n], allowed);
      }
    }
  }

  /**
   * When '-' and ',' are allowed and '_' and ';' are not, the cleaned value is
   * clean, so cleaning twice is cleaning once.
   */
  lemma CleanTextIdempotent(s: String, allowed: String)
    requires '-' in allowed && ',' in allowed && '_' !in allowed && ';' !in allowed
    ensures Clean(CleanText(s, allowed), allowed)
    ensures CleanText(CleanText(s, allowed), allowed) == CleanText(s, allowed)
  {
    CleanTextKeeps(CleanText(s, allowed), allowed);
  }

  /** Cleaning distributes over concatenation. */
  lemma {:induction false} CleanTextAppend(a: String, b: String, allowed: String)
    ensures CleanText(a + b, allowed) == CleanText(a, allowed) + CleanText(b, allowed)
  {
    if b != [] {
      var n := |b| - 1;
      assert (a + b)[..|a + b| - 1] == a + b[..n];
      CleanTextAppend(a, b[..n], allowed);
    } else {
      assert a + b == a;
    }
  }

  /** The allowed characters of `s`, in order (read from the front). */
  function Filter(s: String, allowed: String): String
  {
    if s == [] then [] else (if s[0] in allowed then [s[0]] else []) + Filter(s[1..], allowed)
  }

  /**
   * Without '_' and ';' in the value, cleaning keeps exactly the allowed
   * characters, in order, and drops the rest.
   */
  lemma {:induction false} CleanTextFilters(s: String, allowed: String)
    requires '_' !in s && ';' !in s
    ensures CleanText(s, allowed) == Filter(s, allowed)
  {
    if s != [] {
      var c, t := s[0], s[1..];
      assert s == [c] + t;
      assert c != '_' && c != ';' && '_' !in t && ';' !in t;
      CleanTextFilters(t, allowed);
      CleanTextAppend([c], t, allowed);
      assert CleanText([c], allowed) == CleanChar(c, allowed) == (if c in allowed then [c] else []);
    }
  }

  // ---------------------------------------------------------------- the parameter object

  /** The attributes of a parameter object, in the order the constructor creates them. */
  datatype Attr =
    | CruxPath
    | ClipsPath
    | PromastPath
    | IndexingKeyLen
    | DifferentiateIL
    | UsePerlMapping
    | MultiThreads
    | SamplingOutput
    | Fasta
    | OutputDirectory
    | Proteases
    | MaxMCs
    | FreqMCs
    | PeptidesSamplingSize
    | PepLevelProteomeCov
    | SamplingSizeBasedOn
    | Bins
    | NumberOfProteases
    | SamplingNumber
    | ProteinDynamicRange
    | NotExpressedFraction
    | ProteinIDsWeight
    | PeptideIDsWeight
    | CoverageWeight
    | UseDeepMSPeptidePredictions
    | WeightsDeepMSPeptidePredictions
    | PathDeepMSPeptideModel
    | ProteinWeightFile
    | DigestionResultFile

  /** All attributes, in creation order: the order `vars()` lists them in. */
  const Order: seq<Attr> := [
    CruxPath, ClipsPath, PromastPath, IndexingKeyLen, DifferentiateIL, UsePerlMapping, MultiThreads,
    SamplingOutput, Fasta, OutputDirectory, Proteases, MaxMCs, FreqMCs, PeptidesSamplingSize,
    PepLevelProteomeCov, SamplingSizeBasedOn, Bins, NumberOfProteases, SamplingNumber,
    ProteinDynamicRange, NotExpressedFraction, ProteinIDsWeight, PeptideIDsWeight, CoverageWeight,
    UseDeepMSPeptidePredictions, WeightsDeepMSPeptidePredictions, PathDeepMSPeptideModel,
    ProteinWeightFile, DigestionResultFile
  ]

  /** The name an attribute has in a parameter file. */
  function Name(a: Attr): String
  {
    match a
    case CruxPath => "Crux_path"
    case ClipsPath => "Clips_path"
    case PromastPath => "Promast_path"
    case IndexingKeyLen => "Indexing_key_len"
    case DifferentiateIL => "Differentiate_I_L"
    case UsePerlMapping => "Use_perl_mapping"
    case MultiThreads => "Multi_Threads"
    case SamplingOutput => "Sampling_output"
    case Fasta => "Fasta"
    case OutputDirectory => "Output_directory"
    case Proteases => "Proteases"
    case MaxMCs => "Max_MCs"
    case FreqMCs => "Freq_MCs"
    case PeptidesSamplingSize => "Peptides_Sampling_Size"
    case PepLevelProteomeCov => "Pep_Level_Proteome_Cov"
    case SamplingSizeBasedOn => "Sampling_Size_Based_On"
    case Bins => "Bins"
    case NumberOfProteases => "Number_of_Proteases"
    case SamplingNumber => "Sampling_Number"
    case ProteinDynamicRange => "Protein_dynamic_range"
    case NotExpressedFraction => "Not_expressed_fraction"
    case ProteinIDsWeight => "Protein_IDs_weight"
    case PeptideIDsWeight => "Peptide_IDs_weight"
    case CoverageWeight => "Coverage_weight"
    case UseDeepMSPeptidePredictions => "Use_DeepMSPeptide_Predictions"
    case WeightsDeepMSPeptidePredictions => "Weights_DeepMSPeptide_Predictions"
    case PathDeepMSPeptideModel => "Path_DeepMSPeptide_Model"
    case ProteinWeightFile => "Protein_weight_file"
    case DigestionResultFile => "Digestion_result_file"
  }

  /** The position of an attribute in `Order`. */
  function Index(a: Attr): (i: nat)
    ensures i < |Order| && Order[i] == a
  {
    match a
    case CruxPath => 0
    case ClipsPath => 1
    case PromastPath => 2
    case IndexingKeyLen => 3
    case DifferentiateIL => 4
    case UsePerlMapping => 5
    case MultiThreads => 6
    case SamplingOutput => 7
    case Fasta => 8
    case OutputDirectory => 9
    case Proteases => 10
    case MaxMCs => 11
    case FreqMCs => 12
    case PeptidesSamplingSize => 13
    case PepLevelProteomeCov => 14
    case SamplingSizeBasedOn => 15
    case Bins => 16
    case NumberOfProteases => 17
    case SamplingNumber => 18
    case ProteinDynamicRange => 19
    case NotExpressedFraction => 20
    case ProteinIDsWeight => 21
    case PeptideIDsWeight => 22
    case CoverageWeight => 23
    case UseDeepMSPeptidePredictions => 24
    case WeightsDeepMSPeptidePredictions => 25
    case PathDeepMSPeptideModel => 26
    case ProteinWeightFile => 27
    case DigestionResultFile => 28
  }

  /** A parameter value: a text, or a list of texts (the five list parameters until they are joined). */
  datatype Value = Text(s: String) | List(items: seq<String>)

  /** The parameters that hold a list after the constructor or `load_params`. */
  predicate IsListAttr(a: Attr)
  {
    a == Proteases || a == MaxMCs || a == FreqMCs || a == PeptidesSamplingSize || a == PepLevelProteomeCov
  }

  /** The attribute values of a parameter object, the dictionary `vars()` returns, one field per attribute. */
  datatype Values = Values(
    cruxPath: Value, clipsPath: Value, promastPath: Value, indexingKeyLen: Value, differentiateIL: Value,
    usePerlMapping: Value, multiThreads: Value, samplingOutput: Value, fasta: Value, outputDirectory: Value,
    proteases: Value, maxMCs: Value, freqMCs: Value, peptidesSamplingSize: Value, pepLevelProteomeCov: Value,
    samplingSizeBasedOn: Value, bins: Value, numberOfProteases: Value, samplingNumber: Value,
    proteinDynamicRange: Value, notExpressedFraction: Value, proteinIDsWeight: Value, peptideIDsWeight: Value,
    coverageWeight: Value, useDeepMSPeptidePredictions: Value, weightsDeepMSPeptidePredictions: Value,
    pathDeepMSPeptideModel: Value, proteinWeightFile: Value, digestionResultFile: Value)

  /** The value of one attribute. */
  function Get(vs: Values, a: Attr): Value
  {
    match a
    case CruxPath => vs.cruxPath
    case ClipsPath => vs.clipsPath
    case PromastPath => vs.promastPath
    case IndexingKeyLen => vs.indexingKeyLen
    case DifferentiateIL => vs.differentiateIL
    case UsePerlMapping => vs.usePerlMapping
    case MultiThreads => vs.multiThreads
    case SamplingOutput => vs.samplingOutput
    case Fasta => vs.fasta
    case OutputDirectory => vs.outputDirectory
    case Proteases => vs.proteases
    case MaxMCs => vs.maxMCs
    case FreqMCs => vs.freqMCs
    case PeptidesSamplingSize => vs.peptidesSamplingSize
    case PepLevelProteomeCov => vs.pepLevelProteomeCov
    case SamplingSizeBasedOn => vs.samplingSizeBasedOn
    case Bins => vs.bins
    case NumberOfProteases => vs.numberOfProteases
    case SamplingNumber => vs.samplingNumber
    case ProteinDynamicRange => vs.proteinDynamicRange
    case NotExpressedFraction => vs.notExpressedFraction
    case ProteinIDsWeight => vs.proteinIDsWeight
    case PeptideIDsWeight => vs.peptideIDsWeight
    case CoverageWeight => vs.coverageWeight
    case UseDeepMSPeptidePredictions => vs.useDeepMSPeptidePredictions
    case WeightsDeepMSPeptidePredictions => vs.weightsDeepMSPeptidePredictions
    case PathDeepMSPeptideModel => vs.pathDeepMSPeptideModel
    case ProteinWeightFile => vs.proteinWeightFile
    case DigestionResultFile => vs.digestionResultFile
  }

  /** `str()` of a value: the text itself, or Python's display of a list of texts. */
  function Repr(v: Value): String
  {
    match v
    case Text(s) => s
    case List(items) => "[" + Join(seq(|items|, i requires 0 <= i < |items| => "'" + items[i] + "'"), ", ") + "]"
  }

  /** The text of an attribute, as `str()` shows it. */
  function Str(vs: Values, a: Attr): String
  {
    Repr(Get(vs, a))
  }

  // ---------------------------------------------------------------- parameter-file lines

  /** The line a parameter file holds for one attribute. */
  function Line(name: String, value: String): String
  {
    name + " = " + value + "\n"
  }

  /** The lines for a list of (name, value) pairs, in order. */
  function Lines(pairs: seq<(String, String)>): (lines: seq<String>)
    ensures |lines| == |pairs|
    ensures forall i :: 0 <= i < |pairs| ==> lines[i] == Line(pairs[i].0, pairs[i].1)
  {
    seq(|pairs|, i requires 0 <= i < |pairs| => Line(pairs[i].0, pairs[i].1))
  }

  /** The (name, text) pair of every attribute, in creation order. */
  function Pairs(vs: Values): (ps: seq<(String, String)>)
    ensures |ps| == |Order|
    ensures forall a: Attr :: ps[Index(a)] == (Name(a), Str(vs, a))
  {
    seq(|Order|, i requires 0 <= i < |Order| => (Name(Order[i]), Str(vs, Order[i])))
  }

  /**
   * `get_param_list`: one "name = value" line per attribute, in the order the
   * attributes were created; the line of `a` is at its position in `Order`.
   */
  function ParamList(vs: Values): (lines: seq<String>)
    ensures |lines| == |Order|
    ensures forall a: Attr :: lines[Index(a)] == Name(a) + " = " + Str(vs, a) + "\n"
  {
    Lines(Pairs(vs))
  }

  /** The line of the attribute at position `i` follows the lines before it. */
  lemma ParamListNext(vs: Values, i: nat, lines: seq<String>)
    requires i < |Order| && lines == ParamList(vs)[..i]
    ensures lines + [Line(Name(Order[i]), Str(vs, Order[i]))] == ParamList(vs)[..i + 1]
  {
    assert Pairs(vs)[i] == (Name(Order[i]), Str(vs, Order[i]));
    assert ParamList(vs)[i] == Line(Name(Order[i]), Str(vs, Order[i]));
    PrefixSnoc(ParamList(vs), i);
  }

  /** The header line of a parameter file. */
  const Header: String := "[MPD-config]"

  /** The rows of the file `save_params_to_file_from_cli` writes: the header, then the parameter lines. */
  function SavedRows(vs: Values): seq<String>
  {
    [Header + "\n"] + ParamList(vs)
  }

  // ---------------------------------------------------------------- the fix_* joiners

  /** What a `fix_*` method leaves: a list joined with ',', a text unchanged. */
  function Fixed(v: Value): (r: Value)
    ensures r.Text?
    ensures v.Text? ==> r == v
    ensures v.List? ==> r == Text(Join(v.items, ","))
  {
    match v
    case List(items) => Text(Join(items, ","))
    case Text(_) => v
  }

  /**
   * Reading a fixed list back, as `load_params` does with `split(",")`, gives
   * the list again when it is non-empty and no item holds a comma.
   */
  lemma FixedSplits(items: seq<String>)
    requires |items| >= 1
    requires forall i :: 0 <= i < |items| ==> ',' !in items[i]
    ensures Split(Fixed(List(items)).s, ',') == items
  {
    SplitJoin(items, ',');
  }

  /** One `fix_*` method: the one list parameter fixed, every other attribute kept. */
  function FixOne(vs: Values, a: Attr): (r: Values)
    requires IsListAttr(a)
    ensures forall b: Attr :: Get(r, b) == if b == a then Fixed(Get(vs, a)) else Get(vs, b)
  {
    if a == Proteases then vs.(proteases := Fixed(vs.proteases))
    else if a == MaxMCs then vs.(maxMCs := Fixed(vs.maxMCs))
    else if a == FreqMCs then vs.(freqMCs := Fixed(vs.freqMCs))
    else if a == PeptidesSamplingSize then vs.(peptidesSamplingSize := Fixed(vs.peptidesSamplingSize))
    else vs.(pepLevelProteomeCov := Fixed(vs.pepLevelProteomeCov))
  }

  /** All five list parameters fixed, in the order `save_params_to_file_from_cli` fixes them. */
  function FixAll(vs: Values): (r: Values)
    ensures forall a: Attr :: Get(r, a) == if IsListAttr(a) then Fixed(Get(vs, a)) else Get(vs, a)
  {
    FixOne(FixOne(FixOne(FixOne(FixOne(vs, Proteases), MaxMCs), FreqMCs), PepLevelProteomeCov), PeptidesSamplingSize)
  }

  /** The `fix_*` methods join only what is still a list, so fixing twice is fixing once. */
  lemma FixAllIdempotent(vs: Values)
    ensures FixAll(FixAll(vs)) == FixAll(vs)
  {
    var w := FixAll(vs);
    assert FixAll(w).proteases == w.proteases && FixAll(w).maxMCs == w.maxMCs && FixAll(w).freqMCs == w.freqMCs;
    assert FixAll(w).peptidesSamplingSize == w.peptidesSamplingSize;
    assert FixAll(w).pepLevelProteomeCov == w.pepLevelProteomeCov;
  }

  // ---------------------------------------------------------------- reading a parameter file

  datatype ParamError =
    | ValueError      // a row with two '=', or a required key missing
    | KeyError        // a path key missing while perl mapping is on
    | UnboundLocal    // the frequency list cleaned before any maximal-MC list

  /** A row that `load_params` keeps: right-stripped, it is not the header and holds '='. */
  predicate Kept(row: String)
  {
    RStrip(row) != Header && '=' in RStrip(row)
  }

  /** The kept rows, right-stripped, in order. */
  function KeptRows(rows: seq<String>): seq<String>
  {
    if rows == [] then []
    else KeptRows(rows[..|rows| - 1]) + (if Kept(rows[|rows| - 1]) then [RStrip(rows[|rows| - 1])] else [])
  }

  /** The pieces of a kept row between '=' signs, each stripped. */
  function Pieces(row: String): (p: seq<String>)
    ensures |p| == |Split(row, '=')|
  {
    var parts := Split(row, '=');
    seq(|parts|, i requires 0 <= i < |parts| => Strip(parts[i]))
  }

  /** The dictionary entry a tuple of pieces gives, or the error `dict()` raises for it. */
  function PairOf(p: seq<String>): Result<(String, String), ParamError>
  {
    if |p| == 2 then Ok((p[0], p[1])) else Err(ValueError)
  }

  /** `dict()` of a list of pairs: a later key overrides an earlier one. */
  function DictOf(ps: seq<(String, String)>): map<String, String>
  {
    if ps == [] then map[] else DictOf(ps[..|ps| - 1])[ps[|ps| - 1].0 := ps[|ps| - 1].1]
  }

  /** `dict()` of the tuples of pieces: it fails on the first tuple that is not a pair. */
  function DictFrom(tuples: seq<seq<String>>): Result<map<String, String>, ParamError>
  {
    match FirstError(seq(|tuples|, k requires 0 <= k < |tuples| => PairOf(tuples[k])))
    case Err(e) => Err(e)
    case Ok(ps) => Ok(DictOf(ps))
  }

  /** The tuples of pieces of the kept rows. */
  function Tuples(kept: seq<String>): (ts: seq<seq<String>>)
    ensures |ts| == |kept| && forall k :: 0 <= k < |kept| ==> ts[k] == Pieces(kept[k])
  {
    seq(|kept|, k requires 0 <= k < |kept| => Pieces(kept[k]))
  }

  /** The dictionary `load_params` builds from the rows of a parameter file. */
  function ParamDict(rows: seq<String>): Result<map<String, String>, ParamError>
  {
    DictFrom(Tuples(KeptRows(rows)))
  }

  /**
   * The reader of `load_params`: keep the right-stripped rows that are not the
   * header and hold '=', split each on '=' and strip the pieces, then build the
   * dictionary, which fails on a row that did not split in two.
   */
  method ReadParamRows(rows: seq<String>) returns (r: Result<map<String, String>, ParamError>)
    ensures r == ParamDict(rows)
  {
    var kept := KeepRows(rows);
    var tuples: seq<seq<String>> := [];
    var j := 0;
    while j < |kept|
      invariant 0 <= j <= |kept|
      invariant |tuples| == j && forall k :: 0 <= k < j ==> tuples[k] == Pieces(kept[k])
    {
      var parts := StripPieces(kept[j]);
      tuples := tuples + [parts];
      j := j + 1;
    }
    assert tuples == Tuples(kept);
    r := BuildDict(tuples);
  }

  /** The first loop of the reader: the kept rows, right-stripped. */
  method KeepRows(rows: seq<String>) returns (kept: seq<String>)
    ensures kept == KeptRows(rows)
  {
    kept := [];
    var i := 0;
    while i < |rows|
      invariant 0 <= i <= |rows|
      invariant kept == KeptRows(rows[..i])
    {
      assert rows[..i + 1][..i] == rows[..i];
      var row := RStrip(rows[i]);
      if row != Header && '=' in row {
        kept := kept + [row];
      }
      i := i + 1;
    }
    assert rows[..|rows|] == rows;
  }

  /** A row split on '=' with every piece stripped in place. */
  method StripPieces(row: String) returns (parts: seq<String>)
    ensures parts == Pieces(row)
  {
    parts := Split(row, '=');
    var n := 0;
    while n < |parts|
      invariant 0 <= n <= |parts| && |parts| == |Split(row, '=')|
      invariant forall m :: 0 <= m < |parts| ==> parts[m] == if m < n then Strip(Split(row, '=')[m]) else Split(row, '=')[m]
    {
      parts := parts[n := Strip(parts[n])];
      n := n + 1;
    }
  }

  /** `dict()` of the tuples, failing on the first one that is not a pair. */
  method BuildDict(tuples: seq<seq<String>>) returns (r: Result<map<String, String>, ParamError>)
    ensures r == DictFrom(tuples)
  {
    var es := seq(|tuples|, k requires 0 <= k < |tuples| => PairOf(tuples[k]));
    var d: map<String, String> := map[];
    var ps: seq<(String, String)> := [];
    var j := 0;
    while j < |tuples|
      invariant 0 <= j <= |tuples|
      invariant FirstError(es[..j]) == Ok(ps) && d == DictOf(ps)
    {
      FirstErrorSnoc(es, j);
      if |tuples[j]| != 2 {
        FirstErrorStops(es, j + 1);
        return Err(ValueError);
      }
      var pair := (tuples[j][0], tuples[j][1]);
      assert (ps + [pair])[..|ps|] == ps;
      d := d[pair.0 := pair.1];
      ps := ps + [pair];
      j := j + 1;
    }
    assert es[..j] == es;
    r := Ok(d);
  }

  /** Some pair of `ps` has key `k`. */
  predicate HasKey(ps: seq<(String, String)>, k: String)
  {
    exists j :: 0 <= j < |ps| && ps[j].0 == k
  }

  /** No pair after position `j` has the key of pair `j`. */
  predicate LastWithKey(ps: seq<(String, String)>, j: int)
    requires 0 <= j < |ps|
  {
    forall l :: j < l < |ps| ==> ps[l].0 != ps[j].0
  }

  /** The keys of `dict()` are the keys of the pairs. */
  lemma {:induction false} DictOfKeys(ps: seq<(String, String)>)
    ensures forall k :: k in DictOf(ps) <==> HasKey(ps, k)
  {
    if ps != [] {
      var n := |ps| - 1;
      var init := ps[..n];
      DictOfKeys(init);
      forall k ensures k in DictOf(ps) <==> HasKey(ps, k) {
        if HasKey(init, k) {
          var j :| 0 <= j < |init| && init[j].0 == k;
          assert ps[j].0 == k;
        }
        if HasKey(ps, k) && k != ps[n].0 {
          var j :| 0 <= j < |ps| && ps[j].0 == k;
          assert init[j].0 == k;
        }
      }
    }
  }

  /** A key holds the value of its last pair: a later duplicate overrides an earlier one. */
  lemma {:induction false} DictOfLast(ps: seq<(String, String)>, j: int)
    requires 0 <= j < |ps| && LastWithKey(ps, j)
    ensures ps[j].0 in DictOf(ps) && DictOf(ps)[ps[j].0] == ps[j].1
  {
    var n := |ps| - 1;
    if j < n {
      var init := ps[..n];
      assert init[j] == ps[j];
      assert LastWithKey(init, j) by {
        forall l | j < l < |init| ensures init[l].0 != init[j].0 {
          assert init[l] == ps[l];
        }
      }
      DictOfLast(init, j);
    }
  }

  /** Keeping rows distributes over concatenation. */
  lemma {:induction false} KeptRowsAppend(a: seq<String>, b: seq<String>)
    ensures KeptRows(a + b) == KeptRows(a) + KeptRows(b)
  {
    if b == [] {
      assert a + b == a;
    } else {
      var n := |b| - 1;
      assert (a + b)[..|a + b| - 1] == a + b[..n];
      KeptRowsAppend(a, b[..n]);
    }
  }

  /** The header line, and any line without '=', is ignored wherever it stands. */
  lemma ParamDictSkips(a: seq<String>, row: String, b: seq<String>)
    requires !Kept(row)
    ensures ParamDict(a + [row] + b) == ParamDict(a + b)
  {
    KeptRowsAppend(a + [row], b);
    KeptRowsAppend(a, [row]);
    KeptRowsAppend(a, b);
    assert KeptRows([row]) == [] by {
      assert [row][..0] == [];
    }
    assert KeptRows(a + [row] + b) == KeptRows(a) + KeptRows(b) by {
      assert KeptRows(a) + [] == KeptRows(a);
    }
  }

  /** A first row that is not kept is ignored. */
  lemma ParamDictSkipsFirst(row: String, b: seq<String>)
    requires !Kept(row)
    ensures ParamDict([row] + b) == ParamDict(b)
  {
    ParamDictSkips([], row, b);
    assert [] + [row] + b == [row] + b;
    assert [] + b == b;
  }

  /** `dict()` of one more tuple: it fails on a tuple that is not a pair, else adds or overrides its key. */
  lemma DictFromSnoc(ts: seq<seq<String>>, t: seq<String>)
    ensures DictFrom(ts + [t]) == match DictFrom(ts)
      case Err(e) => Err(e)
      case Ok(d) => if |t| == 2 then Ok(d[t[0] := t[1]]) else Err(ValueError)
  {
    var es := seq(|ts + [t]|, k requires 0 <= k < |ts + [t]| => PairOf((ts + [t])[k]));
    var es0 := seq(|ts|, k requires 0 <= k < |ts| => PairOf(ts[k]));
    FirstErrorSnoc(es, |ts|);
    assert es[..|ts|] == es0;
    assert es[..|ts| + 1] == es;
    match FirstError(es0)
    case Err(_) =>
    case Ok(ps) =>
      if |t| == 2 {
        assert (ps + [(t[0], t[1])])[..|ps|] == ps;
      }
  }

  /**
   * Reading one more row: a row without '=' (or the header) changes nothing, a
   * row with exactly one '=' adds or overrides its key, and a row with two or
   * more makes the whole read fail.
   */
  lemma ParamDictSnoc(rows: seq<String>, row: String)
    ensures !Kept(row) ==> ParamDict(rows + [row]) == ParamDict(rows)
    ensures Kept(row) && ParamDict(rows).Ok? ==>
      var p := Pieces(RStrip(row));
      ParamDict(rows + [row]) == if |p| == 2 then Ok(ParamDict(rows).value[p[0] := p[1]]) else Err(ValueError)
    ensures ParamDict(rows).Err? ==> ParamDict(rows + [row]) == ParamDict(rows)
  {
    KeptRowsAppend(rows, [row]);
    assert [row][..0] == [];
    var kept := KeptRows(rows);
    if Kept(row) {
      assert Tuples(kept + [RStrip(row)]) == Tuples(kept) + [Pieces(RStrip(row))];
      DictFromSnoc(Tuples(kept), Pieces(RStrip(row)));
    } else {
      assert kept + [] == kept;
    }
  }

  /** The read succeeds exactly when every kept row holds a single '='. */
  lemma ParamDictOk(rows: seq<String>)
    ensures ParamDict(rows).Ok? <==> forall k :: 0 <= k < |KeptRows(rows)| ==> |Split(KeptRows(rows)[k], '=')| == 2
  {
    var kept := KeptRows(rows);
    var ts := Tuples(kept);
    DictFromOk(ts);
    assert ParamDict(rows) == DictFrom(ts);
    assert (forall k :: 0 <= k < |ts| ==> |ts[k]| == 2) <==> (forall k :: 0 <= k < |kept| ==> |Split(kept[k], '=')| == 2);
  }

  /** `dict()` of the tuples succeeds exactly when every tuple is a pair. */
  lemma DictFromOk(ts: seq<seq<String>>)
    ensures DictFrom(ts).Ok? <==> forall k :: 0 <= k < |ts| ==> |ts[k]| == 2
  {
    var es := seq(|ts|, k requires 0 <= k < |ts| => PairOf(ts[k]));
    FirstErrorSpec(es);
    assert forall k :: 0 <= k < |ts| ==> (es[k].Ok? <==> |ts[k]| == 2);
  }

  /** A name or value that survives being written to a line and read back. */
  predicate Storable(t: String)
  {
    '=' !in t && NoEdgeSpace(t)
  }

  /** The right-stripped line: the trailing line break, and the blank before an empty value, go. */
  lemma LineStripped(name: String, value: String)
    requires Storable(value)
    ensures RStrip(Line(name, value)) == (name + " ") + ['='] + (if value == [] then [] else " " + value)
  {
    if value == [] {
      assert Line(name, value) == (name + " =") + " \n";
      RStripTrailing(name + " =", " \n");
    } else {
      assert Line(name, value) == (name + " = " + value) + "\n";
      RStripTrailing(name + " = " + value, "\n");
    }
  }

  /** A written line is kept and reads back as its name and value. */
  lemma LineRead(name: String, value: String)
    requires Storable(name) && Storable(value)
    ensures Kept(Line(name, value))
    ensures Pieces(RStrip(Line(name, value))) == [name, value]
  {
    LineStripped(name, value);
    var tail := if value == [] then [] else " " + value;
    var r := (name + " ") + ['='] + tail;
    SplitFirstPiece(name + " ", tail, '=');
    SplitNoSeparator(tail, '=');
    var parts := Split(r, '=');
    assert parts == [name + " ", tail];
    assert r[|name| + 1] == '=';
    assert '=' !in Header;
    StripTrailing(name, " ");
    if value != [] {
      StripLeading(" ", value);
    }
    assert Pieces(r) == [Strip(parts[0]), Strip(parts[1])];
  }

  /** The header row is not kept. */
  lemma HeaderRow()
    ensures !Kept(Header + "\n")
  {
    RStripTrailing(Header, "\n");
    assert '=' !in Header;
  }

  /** Rows that are all kept are kept as they are, right-stripped. */
  lemma {:induction false} KeptRowsAll(rows: seq<String>)
    requires forall i :: 0 <= i < |rows| ==> Kept(rows[i])
    ensures KeptRows(rows) == seq(|rows|, i requires 0 <= i < |rows| => RStrip(rows[i]))
  {
    if rows != [] {
      var n := |rows| - 1;
      var init := rows[..n];
      assert forall i :: 0 <= i < n ==> init[i] == rows[i];
      KeptRowsAll(init);
      var l := seq(|rows|, i requires 0 <= i < |rows| => RStrip(rows[i]));
      assert l == l[..n] + [l[n]];
      assert l[..n] == seq(n, i requires 0 <= i < n => RStrip(init[i]));
    }
  }

  /** Each pair as the two-element tuple a line splits into. */
  function PairTuples(pairs: seq<(String, String)>): (ts: seq<seq<String>>)
    ensures |ts| == |pairs| && forall i :: 0 <= i < |pairs| ==> ts[i] == [pairs[i].0, pairs[i].1]
  {
    seq(|pairs|, i requires 0 <= i < |pairs| => [pairs[i].0, pairs[i].1])
  }

  /** The written lines are all kept, and split into their pairs. */
  lemma LinesTuples(pairs: seq<(String, String)>)
    requires forall i :: 0 <= i < |pairs| ==> Storable(pairs[i].0) && Storable(pairs[i].1)
    ensures Tuples(KeptRows(Lines(pairs))) == PairTuples(pairs)
  {
    var lines := Lines(pairs);
    forall i | 0 <= i < |pairs| ensures Kept(lines[i]) && Pieces(RStrip(lines[i])) == [pairs[i].0, pairs[i].1] {
      LineRead(pairs[i].0, pairs[i].1);
    }
    KeptRowsAll(lines);
  }

  /** `dict()` of two-element tuples is `dict()` of the pairs. */
  lemma DictFromPairs(pairs: seq<(String, String)>)
    ensures DictFrom(PairTuples(pairs)) == Ok(DictOf(pairs))
  {
    var ts := PairTuples(pairs);
    var es := seq(|ts|, k requires 0 <= k < |ts| => PairOf(ts[k]));
    assert forall k :: 0 <= k < |ts| ==> es[k] == Ok(pairs[k]);
    FirstErrorSpec(es);
    assert FirstError(es).value == pairs;
  }

  /**
   * Writing (name, value) pairs as a parameter file and reading it back gives
   * `dict()` of the pairs, provided no name or value holds '=' or starts or
   * ends with whitespace.
   */
  lemma RowsRoundTrip(pairs: seq<(String, String)>)
    requires forall i :: 0 <= i < |pairs| ==> Storable(pairs[i].0) && Storable(pairs[i].1)
    ensures ParamDict([Header + "\n"] + Lines(pairs)) == Ok(DictOf(pairs))
  {
    HeaderRow();
    ParamDictSkipsFirst(Header + "\n", Lines(pairs));
    LinesTuples(pairs);
    DictFromPairs(pairs);
  }

  /** With distinct names, every name of the file reads back its own value. */
  lemma RowsReadBack(pairs: seq<(String, String)>)
    requires forall i :: 0 <= i < |pairs| ==> Storable(pairs[i].0) && Storable(pairs[i].1)
    requires forall i, j :: 0 <= i < j < |pairs| ==> pairs[i].0 != pairs[j].0
    ensures ParamDict([Header + "\n"] + Lines(pairs)).Ok?
    ensures forall i :: 0 <= i < |pairs| ==>
      var d := ParamDict([Header + "\n"] + Lines(pairs)).value; pairs[i].0 in d && d[pairs[i].0] == pairs[i].1
  {
    RowsRoundTrip(pairs);
    forall i | 0 <= i < |pairs| ensures pairs[i].0 in DictOf(pairs) && DictOf(pairs)[pairs[i].0] == pairs[i].1 {
      DictOfLast(pairs, i);
    }
  }

  // ---------------------------------------------------------------- validation

  /** The names validation reports cleaned parameters under. */
  const ProteasesLabel: String := "Proteases"
  const MaxMCsLabel: String := "Maximal missed cleavage sites"
  const FreqMCsLabel: String := "Missed cleavage site frequencies"
  const SamplingSizeLabel: String := "Sampled peptides"
  const SamplingCoverageLabel: String := "Sampled peptide fraction"
  const BinsLabel: String := "Bin definition"
  const NotExpressedLabel: String := "Not expresseed fraction"

  /** The text a switch holds when it is on. */
  const TrueText: String := "True"

  const ProteaseAllowed: String := "abcdefghijklmnopqrstuvwxyz-,/"
  const DigitAllowed: String := "0123456789"
  const FractionAllowed: String := "0123456789."
  const BinAllowed: String := "0123456789,"
  const NotExpressedAllowed: String := "0123456789,."

  /** One list item cleaned, lower-cased first for protease names. */
  function CleanItem(item: String, allowed: String, lower: bool): String
  {
    CleanText(if lower then Lower(item) else item, allowed)
  }

  /** Every item of a list cleaned, in order. */
  function CleanItems(items: seq<String>, allowed: String, lower: bool): (r: seq<String>)
    ensures |r| == |items| && forall i :: 0 <= i < |items| ==> r[i] == CleanItem(items[i], allowed, lower)
  {
    seq(|items|, i requires 0 <= i < |items| => CleanItem(items[i], allowed, lower))
  }

  /** The messages cleaning the items of list parameter `name` reports, item after item. */
  function ItemMessages(items: seq<String>, name: String, allowed: String, lower: bool): seq<String>
  {
    if items == [] then []
    else
      var last := items[|items| - 1];
      ItemMessages(items[..|items| - 1], name, allowed, lower) + CleanMessages(if lower then Lower(last) else last, name, allowed)
  }

  /** A list value with its items cleaned; a text is left alone. */
  function CleanValue(v: Value, allowed: String, lower: bool): (r: Value)
    ensures r.List? <==> v.List?
    ensures v.List? ==> r.items == CleanItems(v.items, allowed, lower)
    ensures v.Text? ==> r == v
  {
    match v
    case List(items) => List(CleanItems(items, allowed, lower))
    case Text(_) => v
  }

  /** The messages cleaning a list value reports (in mode 1 only). */
  function ListMessages(v: Value, name: String, allowed: String, lower: bool, mode: int): seq<String>
  {
    match v
    case List(items) => if mode == 1 then ItemMessages(items, name, allowed, lower) else []
    case Text(_) => []
  }

  /** The proteases lower-cased and cleaned: what validation has done when it raises at line 504. */
  function ProteasesCleaned(vs: Values): Values
  {
    vs.(proteases := CleanValue(vs.proteases, ProteaseAllowed, true))
  }

  /**
   * The values after validation: the four stored lists cleaned (the frequency
   * list is not among them), then the bins and the fractions, as texts.
   */
  function Cleaned(vs: Values): Values
  {
    TextsCleaned(ListsCleaned(vs))
  }

  /** The four stored lists cleaned. */
  function ListsCleaned(vs: Values): Values
  {
    ProteasesCleaned(vs).(
      maxMCs := CleanValue(vs.maxMCs, DigitAllowed, false),
      peptidesSamplingSize := CleanValue(vs.peptidesSamplingSize, DigitAllowed, false),
      pepLevelProteomeCov := CleanValue(vs.pepLevelProteomeCov, FractionAllowed, false))
  }

  /** The bins and the not-expressed fractions cleaned, as texts. */
  function TextsCleaned(vs: Values): Values
  {
    vs.(bins := Text(CleanText(Repr(vs.bins), BinAllowed)),
        notExpressedFraction := Text(CleanText(Repr(vs.notExpressedFraction), NotExpressedAllowed)))
  }

  /** One message per bin bound that `numeric` (the `eval`-based test) rejects. */
  function BinErrors(bins: seq<String>, numeric: String -> bool): seq<String>
  {
    if bins == [] then []
    else BinErrors(bins[..|bins| - 1], numeric) + Missing(numeric(bins[|bins| - 1]), BinNotNumeric)
  }

  /** The messages for the bins (cleaning, then the test of each bound) and for the fractions. */
  function TextMessages(vs: Values, mode: int, numeric: String -> bool): seq<String>
  {
    var bins := Repr(vs.bins);
    var nef := Repr(vs.notExpressedFraction);
    (if mode == 1 then CleanMessages(bins, BinsLabel, BinAllowed) else []) +
    BinErrors(Split(CleanText(bins, BinAllowed), ','), numeric) +
    (if mode == 1 then CleanMessages(nef, NotExpressedLabel, NotExpressedAllowed) else [])
  }

  /** The weighting factors checked, and the detectability settings when predictions are used. */
  function CheckErrors(vs: Values, numeric: String -> bool, isFile: String -> bool): seq<String>
  {
    Missing(numeric(Repr(vs.proteinIDsWeight)), ProteinWeightNotNumeric) +
    Missing(numeric(Repr(vs.peptideIDsWeight)), PeptideWeightNotNumeric) +
    Missing(numeric(Repr(vs.coverageWeight)), CoverageWeightNotNumeric) +
    (if Repr(vs.useDeepMSPeptidePredictions) == TrueText then
       Missing(numeric(Repr(vs.weightsDeepMSPeptidePredictions)), DeepWeightNotNumeric) +
       Missing(isFile(Repr(vs.pathDeepMSPeptideModel)), DeepModelMissing)
     else [])
  }

  /** The message `msg` when a check fails. */
  function Missing(ok: bool, msg: String): seq<String>
  {
    if ok then [] else [msg]
  }

  /**
   * The checks of the tools' paths, made in mode 1 only; the perl scripts are
   * checked whenever `Use_perl_mapping` is a non-empty text, which "False" is.
   */
  function ToolErrors(vs: Values, mode: int, isFile: String -> bool): seq<String>
  {
    if mode == 1 then
      Missing(isFile(Repr(vs.cruxPath)), CruxMissing) +
      (if Repr(vs.usePerlMapping) != "" then
         Missing(isFile(Repr(vs.clipsPath)), ClipsMissing) + Missing(isFile(Repr(vs.promastPath)), PromastMissing)
       else [])
    else []
  }

  /** The path checks; `isFile` and `dirUsable` stand for the file system. */
  function PathErrors(vs: Values, mode: int, isFile: String -> bool, dirUsable: String -> bool): seq<String>
  {
    ToolErrors(vs, mode, isFile) +
    Missing(isFile(Repr(vs.fasta)), FastaMissing) +
    Missing(dirUsable(Repr(vs.outputDirectory)), OutputUnusable)
  }

  /** Every message validation reports, in the order it reports them. */
  function Messages(vs: Values, mode: int, isFile: String -> bool, dirUsable: String -> bool, numeric: String -> bool): seq<String>
  {
    PathErrors(vs, mode, isFile, dirUsable) + ListReports(vs, mode) + TextMessages(vs, mode, numeric) + CheckErrors(vs, numeric, isFile)
  }

  /** The messages of the five list loops, in order. */
  function ListReports(vs: Values, mode: int): seq<String>
  {
    ListMessages(vs.proteases, ProteasesLabel, ProteaseAllowed, true, mode) +
    ListMessages(vs.maxMCs, MaxMCsLabel, DigitAllowed, false, mode) +
    ListMessages(vs.freqMCs, FreqMCsLabel, DefaultAllowed, false, mode) +
    ListMessages(vs.peptidesSamplingSize, SamplingSizeLabel, DigitAllowed, false, mode) +
    ListMessages(vs.pepLevelProteomeCov, SamplingCoverageLabel, FractionAllowed, false, mode)
  }

  /** What `validate_params` returns: valid, or the error count with the messages. */
  datatype Validation = Passed | Failed(count: int, errors: seq<String>)

  function Verdict(errs: seq<String>): (v: Validation)
    ensures v.Passed? <==> errs == []
    ensures v.Failed? ==> v.count == |v.errors| && v.errors == errs
  {
    if errs == [] then Passed else Failed(|errs|, errs)
  }

  /** The attribute values after a call, and what the call returned or raised. */
  datatype Outcome = Outcome(values: Values, result: Result<Validation, ParamError>)

  /**
   * `validate_params`: the path checks, the list parameters cleaned (the
   * frequency list cleaned and reported on but not stored, as line 504 stores
   * the maximal-MC list instead, and raising when there was no maximal-MC
   * list), the bins and fractions cleaned, the numbers checked; valid when no
   * message was reported.
   */
  function ValidateSpec(vs: Values, mode: int, isFile: String -> bool, dirUsable: String -> bool,
                        numeric: String -> bool): Outcome
  {
    if vs.freqMCs.List? && !vs.maxMCs.List? then Outcome(ProteasesCleaned(vs), Err(UnboundLocal))
    else Outcome(Cleaned(vs), Ok(Verdict(Messages(vs, mode, isFile, dirUsable, numeric))))
  }

  /** An item that cleaning (after lower-casing, for the protease names) leaves as it is. */
  predicate ItemClean(item: String, allowed: String, lower: bool)
  {
    Clean(if lower then Lower(item) else item, allowed)
  }

  /** Cleaning the items of a list reports nothing exactly when every item is already clean. */
  lemma ItemMessagesNone(items: seq<String>, name: String, allowed: String, lower: bool)
    ensures ItemMessages(items, name, allowed, lower) == [] <==>
      forall i :: 0 <= i < |items| ==> ItemClean(items[i], allowed, lower)
  {
    if ItemMessages(items, name, allowed, lower) == [] {
      SilentItemsClean(items, name, allowed, lower);
    }
    if forall i :: 0 <= i < |items| ==> ItemClean(items[i], allowed, lower) {
      CleanItemsSilent(items, name, allowed, lower);
    }
  }

  lemma {:induction false} SilentItemsClean(items: seq<String>, name: String, allowed: String, lower: bool)
    requires ItemMessages(items, name, allowed, lower) == []
    ensures forall i :: 0 <= i < |items| ==> ItemClean(items[i], allowed, lower)
  {
    if items != [] {
      var n := |items| - 1;
      var init := items[..n];
      var last := if lower then Lower(items[n]) else items[n];
      var prev := ItemMessages(init, name, allowed, lower);
      assert ItemMessages(items, name, allowed, lower) == prev + CleanMessages(last, name, allowed);
      assert prev == [] && CleanMessages(last, name, allowed) == [];
      SilentItemsClean(init, name, allowed, lower);
      CleanMessagesNone(last, last, name, allowed);
      ItemsCleanSnoc(init, items, allowed, lower);
    }
  }

  lemma ItemsCleanSnoc(init: seq<String>, items: seq<String>, allowed: String, lower: bool)
    requires |items| == |init| + 1 && init == items[..|init|]
    requires forall i :: 0 <= i < |init| ==> ItemClean(init[i], allowed, lower)
    requires Clean(if lower then Lower(items[|init|]) else items[|init|], allowed)
    ensures forall i :: 0 <= i < |items| ==> ItemClean(items[i], allowed, lower)
  {
    forall i | 0 <= i < |items| ensures ItemClean(items[i], allowed, lower) {
      if i < |init| {
        assert init[i] == items[i];
      }
    }
  }

  lemma {:induction false} CleanItemsSilent(items: seq<String>, name: String, allowed: String, lower: bool)
    requires forall i :: 0 <= i < |items| ==> ItemClean(items[i], allowed, lower)
    ensures ItemMessages(items, name, allowed, lower) == []
  {
    if items != [] {
      var n := |items| - 1;
      var init := items[..n];
      var last := if lower then Lower(items[n]) else items[n];
      forall i | 0 <= i < n ensures ItemClean(init[i], allowed, lower) {
        assert init[i] == items[i];
      }
      CleanItemsSilent(init, name, allowed, lower);
      assert ItemClean(items[n], allowed, lower);
      CleanMessagesNone(last, last, name, allowed);
      assert ItemMessages(items, name, allowed, lower) == ItemMessages(init, name, allowed, lower) + CleanMessages(last, name, allowed);
    }
  }

  /** A value that is no list, or whose items cleaning leaves as they are. */
  predicate StageFixed(v: Value, allowed: String, lower: bool)
  {
    v.List? ==> CleanItems(v.items, allowed, lower) == v.items
  }

  /** A text value that cleaning leaves as it is. */
  predicate TextFixed(v: Value, allowed: String)
  {
    v.Text? && CleanText(v.s, allowed) == v.s
  }

  /** Values that validation cleans to themselves. */
  predicate Settled(vs: Values)
  {
    StageFixed(vs.proteases, ProteaseAllowed, true) && StageFixed(vs.maxMCs, DigitAllowed, false) &&
    StageFixed(vs.peptidesSamplingSize, DigitAllowed, false) && StageFixed(vs.pepLevelProteomeCov, FractionAllowed, false) &&
    TextFixed(vs.bins, BinAllowed) && TextFixed(vs.notExpressedFraction, NotExpressedAllowed)
  }

  /** The values with the attributes validation may rewrite blanked out: what validation keeps. */
  function Unrewritten(vs: Values): Values
  {
    vs.(proteases := Text([]), maxMCs := Text([]), peptidesSamplingSize := Text([]), pepLevelProteomeCov := Text([]),
        bins := Text([]), notExpressedFraction := Text([]))
  }

  /**
   * Validation rewrites only the cleaned attributes and keeps list attributes
   * lists; the frequency list is never stored (line 504 stores the maximal-MC
   * list instead), and validation raises exactly when the frequencies are a
   * list but the maximal MCs are not.
   */
  lemma ValidateFrame(vs: Values, mode: int, isFile: String -> bool, dirUsable: String -> bool, numeric: String -> bool)
    ensures var o := ValidateSpec(vs, mode, isFile, dirUsable, numeric);
      Unrewritten(o.values) == Unrewritten(vs) &&
      (o.values.proteases.List? <==> vs.proteases.List?) && (o.values.maxMCs.List? <==> vs.maxMCs.List?) &&
      (o.values.peptidesSamplingSize.List? <==> vs.peptidesSamplingSize.List?) &&
      (o.values.pepLevelProteomeCov.List? <==> vs.pepLevelProteomeCov.List?) &&
      o.values.freqMCs == vs.freqMCs &&
      (o.result.Err? <==> vs.freqMCs.List? && !vs.maxMCs.List?) &&
      (o.result.Err? ==> o.result.error == UnboundLocal)
  {
  }

  /** In mode 1 an unclean frequency is reported, yet left as it was, so the failure stays. */
  lemma ValidateFrequencyQuirk(vs: Values, mode: int, isFile: String -> bool, dirUsable: String -> bool,
                               numeric: String -> bool, k: int)
    requires mode == 1 && vs.maxMCs.List? && vs.freqMCs.List?
    requires 0 <= k < |vs.freqMCs.items| && !Clean(vs.freqMCs.items[k], DefaultAllowed)
    ensures ValidateSpec(vs, mode, isFile, dirUsable, numeric).result.Ok?
    ensures ValidateSpec(vs, mode, isFile, dirUsable, numeric).result.value.Failed?
    ensures ValidateSpec(vs, mode, isFile, dirUsable, numeric).values.freqMCs == vs.freqMCs
  {
    ItemMessagesNone(vs.freqMCs.items, FreqMCsLabel, DefaultAllowed, false);
  }

  /**
   * The perl switch is read as a text, not compared with "True": with perl mapping
   * switched off ("False"), a missing clips script is still reported in mode 1.
   */
  lemma PerlPathsCheckedWhenOff(vs: Values, isFile: String -> bool, dirUsable: String -> bool, numeric: String -> bool)
    requires vs.usePerlMapping == Text(FalseText) && !isFile(Repr(vs.clipsPath))
    requires !(vs.freqMCs.List? && !vs.maxMCs.List?)
    ensures ValidateSpec(vs, 1, isFile, dirUsable, numeric).result.Ok?
    ensures ValidateSpec(vs, 1, isFile, dirUsable, numeric).result.value.Failed?
    ensures ClipsMissing in ValidateSpec(vs, 1, isFile, dirUsable, numeric).result.value.errors
  {
    assert Repr(vs.usePerlMapping) == FalseText;
    var tools := ToolErrors(vs, 1, isFile);
    assert ClipsMissing in tools;
    var msgs := Messages(vs, 1, isFile, dirUsable, numeric);
    assert msgs == tools + (Missing(isFile(Repr(vs.fasta)), FastaMissing) +
      Missing(dirUsable(Repr(vs.outputDirectory)), OutputUnusable)) + ListReports(vs, 1) + TextMessages(vs, 1, numeric) +
      CheckErrors(vs, numeric, isFile);
    assert ClipsMissing in msgs;
  }

  /** Values validation leaves as they are: settled values are not rewritten again. */
  lemma ValidateSettled(vs: Values, mode: int, isFile: String -> bool, dirUsable: String -> bool, numeric: String -> bool)
    requires Settled(vs)
    ensures ValidateSpec(vs, mode, isFile, dirUsable, numeric).values == vs
  {
  }

  /** A list whose cleaning reported nothing is cleaned to a list that cleaning keeps. */
  lemma ListSettles(items: seq<String>, name: String, allowed: String, lower: bool)
    requires ItemMessages(items, name, allowed, lower) == []
    ensures CleanItems(CleanItems(items, allowed, lower), allowed, lower) == CleanItems(items, allowed, lower)
    ensures !lower ==> CleanItems(items, allowed, lower) == items
  {
    ItemMessagesNone(items, name, allowed, lower);
    forall i | 0 <= i < |items|
      ensures CleanItem(items[i], allowed, lower) == if lower then Lower(items[i]) else items[i]
      ensures CleanItem(CleanItem(items[i], allowed, lower), allowed, lower) == CleanItem(items[i], allowed, lower)
    {
      var t := if lower then Lower(items[i]) else items[i];
      CleanTextKeeps(t, allowed);
      if lower {
        LowerIdempotent(items[i]);
      }
    }
  }

  /** A text whose cleaning reported nothing is cleaned to itself. */
  lemma TextSettles(t: String, name: String, allowed: String)
    requires CleanMessages(t, name, allowed) == []
    ensures CleanText(t, allowed) == t
  {
    CleanMessagesNone(t, t, name, allowed);
    CleanTextKeeps(t, allowed);
  }

  /**
   * Parameters that pass validation in mode 1 come out settled, so validating
   * them again rewrites nothing.
   */
  lemma ValidatePassedSettles(vs: Values, isFile: String -> bool, dirUsable: String -> bool, numeric: String -> bool)
    requires ValidateSpec(vs, 1, isFile, dirUsable, numeric).result == Ok(Passed)
    ensures Settled(ValidateSpec(vs, 1, isFile, dirUsable, numeric).values)
  {
    assert Messages(vs, 1, isFile, dirUsable, numeric) == [];
    if vs.proteases.List? {
      ListSettles(vs.proteases.items, ProteasesLabel, ProteaseAllowed, true);
    }
    if vs.maxMCs.List? {
      ListSettles(vs.maxMCs.items, MaxMCsLabel, DigitAllowed, false);
    }
    if vs.peptidesSamplingSize.List? {
      ListSettles(vs.peptidesSamplingSize.items, SamplingSizeLabel, DigitAllowed, false);
    }
    if vs.pepLevelProteomeCov.List? {
      ListSettles(vs.pepLevelProteomeCov.items, SamplingCoverageLabel, FractionAllowed, false);
    }
    TextSettles(Repr(vs.bins), BinsLabel, BinAllowed);
    TextSettles(Repr(vs.notExpressedFraction), NotExpressedLabel, NotExpressedAllowed);
  }

  /** Validating parameters that passed once leaves them as they are. */
  lemma ValidateIdempotent(vs: Values, mode: int, isFile: String -> bool, dirUsable: String -> bool, numeric: String -> bool)
    requires ValidateSpec(vs, 1, isFile, dirUsable, numeric).result == Ok(Passed)
    ensures var once := ValidateSpec(vs, 1, isFile, dirUsable, numeric).values;
      ValidateSpec(once, mode, isFile, dirUsable, numeric).values == once
  {
    ValidatePassedSettles(vs, isFile, dirUsable, numeric);
    ValidateSettled(ValidateSpec(vs, 1, isFile, dirUsable, numeric).values, mode, isFile, dirUsable, numeric);
  }

  // ---------------------------------------------------------------- the defaults of `__init__`

  /**
   * The values `__init__` gives. The working directory and the locations of the
   * two perl scripts and of the DeepMSPeptide model, which `__init__` finds on
   * the file system, are parameters.
   */
  function Defaults(cwd: String, clipsLocation: String, promastLocation: String, dmspModelLocation: String): (vs: Values)
    ensures forall a: Attr :: Get(vs, a).List? <==> IsListAttr(a)
    ensures forall a: Attr :: IsListAttr(a) ==> |Get(vs, a).items| == 5
    ensures vs.numberOfProteases == Text("5")
    ensures vs.usePerlMapping == Text("False") && vs.multiThreads == Text("False")
  {
    Values(
      Text(cwd + "\\crux.exe"), Text(clipsLocation), Text(promastLocation), Text("5"), Text("False"),
      Text("False"), Text("False"), Text("True"), Text(cwd + "\\placeholder.fasta"), Text(cwd),
      List(["trypsin", "lysarginase", "glu-c", "chymotrypsin", "lys-c"]),
      List(["2", "2", "5", "5", "2"]),
      List(["[0.7415,0.2090,0.0484]", "[0.5757,0.2899,0.1336]", "[0.5620,0.2753,0.1110,0.0419,0.0086,0.0012]",
            "[0.2002,0.3369,0.2648,0.1471,0.0498,0.0012]", "[0.9102,0.0836,0.0058]"]),
      List(["10000", "10000", "10000", "10000", "10000"]),
      List(["0.033051", "0.031973356", "0.014570424", "0.009367681", "0.053870932"]),
      Text("number"), Text("0,50,100,99999"), Text("5"), Text("10"), Text("6"), Text("40,30,20"),
      Text("1.0"), Text("1.0"), Text("1.0"), Text("True"), Text("1.0000"), Text(dmspModelLocation),
      Text(cwd + "\\ProteinIdentifierList.tsv"), Text(cwd + "\\unique_peptides_table_filtered.tsv"))
  }

  // ---------------------------------------------------------------- the names of a parameter file

  /** Different attributes have different names in a parameter file. */
  lemma NameInjective(a: Attr, b: Attr)
    ensures Name(a) == Name(b) ==> a == b
  {
    NameRead(a);
    NameRead(b);
  }

  /** The attribute a parameter file's name stands for, decided by its length first. */
  function AttrNamed(s: String): Option<Attr>
  {
    if |s| == 4 then (if s == "Bins" then Some(Bins) else None)
    else if |s| == 5 then (if s == "Fasta" then Some(Fasta) else None)
    else if |s| == 7 then (if s == "Max_MCs" then Some(MaxMCs) else None)
    else if |s| == 8 then (if s == "Freq_MCs" then Some(FreqMCs) else None)
    else if |s| == 9 then (if s == "Crux_path" then Some(CruxPath) else if s == "Proteases" then Some(Proteases) else None)
    else if |s| == 10 then (if s == "Clips_path" then Some(ClipsPath) else None)
    else if |s| == 12 then (if s == "Promast_path" then Some(PromastPath) else None)
    else if |s| == 13 then (if s == "Multi_Threads" then Some(MultiThreads) else None)
    else if |s| == 15 then (if s == "Sampling_output" then Some(SamplingOutput) else if s == "Sampling_Number" then Some(SamplingNumber) else if s == "Coverage_weight" then Some(CoverageWeight) else None)
    else if |s| == 16 then (if s == "Indexing_key_len" then Some(IndexingKeyLen) else if s == "Use_perl_mapping" then Some(UsePerlMapping) else if s == "Output_directory" then Some(OutputDirectory) else None)
    else if |s| == 17 then (if s == "Differentiate_I_L" then Some(DifferentiateIL) else None)
    else if |s| == 18 then (if s == "Protein_IDs_weight" then Some(ProteinIDsWeight) else if s == "Peptide_IDs_weight" then Some(PeptideIDsWeight) else None)
    else if |s| == 19 then (if s == "Number_of_Proteases" then Some(NumberOfProteases) else if s == "Protein_weight_file" then Some(ProteinWeightFile) else None)
    else if |s| == 21 then (if s == "Protein_dynamic_range" then Some(ProteinDynamicRange) else if s == "Digestion_result_file" then Some(DigestionResultFile) else None)
    else if |s| == 22 then (if s == "Peptides_Sampling_Size" then Some(PeptidesSamplingSize) else if s == "Pep_Level_Proteome_Cov" then Some(PepLevelProteomeCov) else if s == "Sampling_Size_Based_On" then Some(SamplingSizeBasedOn) else if s == "Not_expressed_fraction" then Some(NotExpressedFraction) else None)
    else if |s| == 24 then (if s == "Path_DeepMSPeptide_Model" then Some(PathDeepMSPeptideModel) else None)
    else if |s| == 29 then (if s == "Use_DeepMSPeptide_Predictions" then Some(UseDeepMSPeptidePredictions) else None)
    else if |s| == 33 then (if s == "Weights_DeepMSPeptide_Predictions" then Some(WeightsDeepMSPeptidePredictions) else None)
    else None
  }

  /** Every attribute is read back from its name. */
  lemma NameRead(a: Attr)
    ensures AttrNamed(Name(a)) == Some(a)
  {
    match a
    case CruxPath | ClipsPath | PromastPath => NameRead0(a);
    case IndexingKeyLen | DifferentiateIL | UsePerlMapping => NameRead1(a);
    case MultiThreads | SamplingOutput | Fasta => NameRead2(a);
    case OutputDirectory | Proteases | MaxMCs => NameRead3(a);
    case FreqMCs | PeptidesSamplingSize | PepLevelProteomeCov => NameRead4(a);
    case SamplingSizeBasedOn | Bins | NumberOfProteases => NameRead5(a);
    case SamplingNumber | ProteinDynamicRange | NotExpressedFraction => NameRead6(a);
    case ProteinIDsWeight | PeptideIDsWeight | CoverageWeight => NameRead7(a);
    case UseDeepMSPeptidePredictions | WeightsDeepMSPeptidePredictions | PathDeepMSPeptideModel => NameRead8(a);
    case ProteinWeightFile | DigestionResultFile => NameRead9(a);
  }

  // The names are read back a few attributes at a time: all of them at once cost the solver much.
  lemma NameRead0(a: Attr)
    requires a.CruxPath? || a.ClipsPath? || a.PromastPath?
    ensures AttrNamed(Name(a)) == Some(a)
  {
  }

  lemma NameRead1(a: Attr)
    requires a.IndexingKeyLen? || a.DifferentiateIL? || a.UsePerlMapping?
    ensures AttrNamed(Name(a)) == Some(a)
  {
  }

  lemma NameRead2(a: Attr)
    requires a.MultiThreads? || a.SamplingOutput? || a.Fasta?
    ensures AttrNamed(Name(a)) == Some(a)
  {
  }

  lemma NameRead3(a: Attr)
    requires a.OutputDirectory? || a.Proteases? || a.MaxMCs?
    ensures AttrNamed(Name(a)) == Some(a)
  {
  }

  lemma NameRead4(a: Attr)
    requires a.FreqMCs? || a.PeptidesSamplingSize? || a.PepLevelProteomeCov?
    ensures AttrNamed(Name(a)) == Some(a)
  {
  }

  lemma NameRead5(a: Attr)
    requires a.SamplingSizeBasedOn? || a.Bins? || a.NumberOfProteases?
    ensures AttrNamed(Name(a)) == Some(a)
  {
  }

  lemma NameRead6(a: Attr)
    requires a.SamplingNumber? || a.ProteinDynamicRange? || a.NotExpressedFraction?
    ensures AttrNamed(Name(a)) == Some(a)
  {
  }

  lemma NameRead7(a: Attr)
    requires a.ProteinIDsWeight? || a.PeptideIDsWeight? || a.CoverageWeight?
    ensures AttrNamed(Name(a)) == Some(a)
  {
  }

  lemma NameRead8(a: Attr)
    requires a.UseDeepMSPeptidePredictions? || a.WeightsDeepMSPeptidePredictions? || a.PathDeepMSPeptideModel?
    ensures AttrNamed(Name(a)) == Some(a)
  {
  }

  lemma NameRead9(a: Attr)
    requires a.ProteinWeightFile? || a.DigestionResultFile?
    ensures AttrNamed(Name(a)) == Some(a)
  {
  }

  /** Every position of `Order` is the position of the attribute it holds. */
  lemma OrderIndex(j: int)
    requires 0 <= j < |Order|
    ensures Index(Order[j]) == j
  {
    if j < 6 {
      OrderIndex0(j);
    } else if j < 12 {
      OrderIndex1(j);
    } else if j < 18 {
      OrderIndex2(j);
    } else if j < 24 {
      OrderIndex3(j);
    } else {
      OrderIndex4(j);
    }
  }

  // The positions are checked a few at a time: a fact about every element of the literal at once costs the solver much.
  lemma OrderIndex0(j: int)
    requires 0 <= j < 6
    ensures Index(Order[j]) == j
  {
    if j == 0 {} else if j == 1 {} else if j == 2 {} else if j == 3 {} else if j == 4 {} else {}
  }

  lemma OrderIndex1(j: int)
    requires 6 <= j < 12
    ensures Index(Order[j]) == j
  {
    if j == 6 {} else if j == 7 {} else if j == 8 {} else if j == 9 {} else if j == 10 {} else {}
  }

  lemma OrderIndex2(j: int)
    requires 12 <= j < 18
    ensures Index(Order[j]) == j
  {
    if j == 12 {} else if j == 13 {} else if j == 14 {} else if j == 15 {} else if j == 16 {} else {}
  }

  lemma OrderIndex3(j: int)
    requires 18 <= j < 24
    ensures Index(Order[j]) == j
  {
    if j == 18 {} else if j == 19 {} else if j == 20 {} else if j == 21 {} else if j == 22 {} else {}
  }

  lemma OrderIndex4(j: int)
    requires 24 <= j < |Order|
    ensures Index(Order[j]) == j
  {
    if j == 24 {} else if j == 25 {} else if j == 26 {} else if j == 27 {} else {}
  }

  /** The names of a written file are pairwise different. */
  lemma NamesDistinct()
    ensures forall i, j :: 0 <= i < j < |Order| ==> Name(Order[i]) != Name(Order[j])
  {
    forall i, j | 0 <= i < j < |Order| ensures Name(Order[i]) != Name(Order[j]) {
      OrderIndex(i);
      OrderIndex(j);
      NameInjective(Order[i], Order[j]);
    }
  }

  // The names are checked in small groups: each fact about a long literal costs the solver much.
  lemma NamesStorable0()
    ensures Storable("Weights_DeepMSPeptide_Predictions") && Storable("Fasta")
  {
  }

  lemma NamesStorable1()
    ensures Storable("Use_DeepMSPeptide_Predictions") && Storable("Sampling_Number")
  {
  }

  lemma NamesStorable2()
    ensures Storable("Path_DeepMSPeptide_Model") && Storable("Coverage_weight") && Storable("Max_MCs") && Storable("Bins")
  {
  }

  lemma NamesStorable3()
    ensures Storable("Peptides_Sampling_Size") && Storable("Differentiate_I_L") && Storable("Freq_MCs")
  {
  }

  lemma NamesStorable4()
    ensures Storable("Sampling_Size_Based_On") && Storable("Indexing_key_len") && Storable("Multi_Threads")
  {
  }

  lemma NamesStorable5()
    ensures Storable("Pep_Level_Proteome_Cov") && Storable("Output_directory") && Storable("Promast_path")
  {
  }

  lemma NamesStorable6()
    ensures Storable("Not_expressed_fraction") && Storable("Use_perl_mapping") && Storable("Clips_path")
  {
  }

  lemma NamesStorable7()
    ensures Storable("Digestion_result_file") && Storable("Peptide_IDs_weight") && Storable("Crux_path")
  {
  }

  lemma NamesStorable8()
    ensures Storable("Protein_dynamic_range") && Storable("Protein_IDs_weight") && Storable("Proteases")
  {
  }

  lemma NamesStorable9()
    ensures Storable("Number_of_Proteases") && Storable("Protein_weight_file") && Storable("Sampling_output")
  {
  }

  /** Every name survives being written and read back. */
  lemma NameStorable(a: Attr)
    ensures Storable(Name(a))
  {
    NamesStorable0();
    NamesStorable1();
    NamesStorable2();
    NamesStorable3();
    NamesStorable4();
    NamesStorable5();
    NamesStorable6();
    NamesStorable7();
    NamesStorable8();
    NamesStorable9();
  }

  // ---------------------------------------------------------------- loading a parameter file

  /** The keys `load_params` requires, in its order (`Use_perl_mapping` is listed twice). */
  const Required: seq<Attr> := [
    CruxPath, UsePerlMapping, IndexingKeyLen, DifferentiateIL, UsePerlMapping, SamplingOutput, Fasta,
    OutputDirectory, Proteases, MaxMCs, FreqMCs, PeptidesSamplingSize, PepLevelProteomeCov,
    SamplingSizeBasedOn, Bins, NumberOfProteases, SamplingNumber, ProteinDynamicRange,
    NotExpressedFraction, ProteinIDsWeight, PeptideIDsWeight, CoverageWeight,
    UseDeepMSPeptidePredictions, ProteinWeightFile
  ]

  /** The dictionary holds every required key. */
  predicate HasRequired(d: map<String, String>)
  {
    forall i :: 0 <= i < |Required| ==> Name(Required[i]) in d
  }

  /** The attributes `load_params` always sets from the file: the required ones but the perl switch, the key length and the I/L switch. */
  predicate FromFile(a: Attr)
  {
    match a
    case CruxPath | SamplingOutput | Fasta | OutputDirectory | Proteases | MaxMCs | FreqMCs | PeptidesSamplingSize
      | PepLevelProteomeCov | SamplingSizeBasedOn | Bins | NumberOfProteases | SamplingNumber | ProteinDynamicRange
      | NotExpressedFraction | ProteinIDsWeight | PeptideIDsWeight | CoverageWeight | UseDeepMSPeptidePredictions
      | ProteinWeightFile => true
    case _ => false
  }

  /** The dictionary holds the key of every attribute read from the file. */
  predicate FileKeys(d: map<String, String>)
  {
    Name(CruxPath) in d && Name(SamplingOutput) in d && Name(Fasta) in d && Name(OutputDirectory) in d &&
    Name(Proteases) in d && Name(MaxMCs) in d && Name(FreqMCs) in d && Name(PeptidesSamplingSize) in d &&
    Name(PepLevelProteomeCov) in d && Name(SamplingSizeBasedOn) in d && Name(Bins) in d && Name(NumberOfProteases) in d &&
    Name(SamplingNumber) in d && Name(ProteinDynamicRange) in d && Name(NotExpressedFraction) in d && Name(ProteinIDsWeight) in d &&
    Name(PeptideIDsWeight) in d && Name(CoverageWeight) in d && Name(UseDeepMSPeptidePredictions) in d && Name(ProteinWeightFile) in d
  }

  /** The position in `Required` of an attribute read from the file. */
  function RequiredIndex(a: Attr): (i: nat)
    requires FromFile(a)
    ensures i < |Required| && Required[i] == a
  {
    match a
    case CruxPath => 0
    case SamplingOutput => 5
    case Fasta => 6
    case OutputDirectory => 7
    case Proteases => 8
    case MaxMCs => 9
    case FreqMCs => 10
    case PeptidesSamplingSize => 11
    case PepLevelProteomeCov => 12
    case SamplingSizeBasedOn => 13
    case Bins => 14
    case NumberOfProteases => 15
    case SamplingNumber => 16
    case ProteinDynamicRange => 17
    case NotExpressedFraction => 18
    case ProteinIDsWeight => 19
    case PeptideIDsWeight => 20
    case CoverageWeight => 21
    case UseDeepMSPeptidePredictions => 22
    case ProteinWeightFile => 23
  }

  /** A dictionary with the required keys holds the key of every attribute read from the file. */
  lemma RequiredKeys(d: map<String, String>)
    requires HasRequired(d)
    ensures FileKeys(d)
  {
    forall a: Attr | FromFile(a) ensures Name(a) in d {
      assert Required[RequiredIndex(a)] == a;
    }
  }

  /** The value read for an attribute: a list parameter is split on ',', any other is the text. */
  function Read(d: map<String, String>, a: Attr): (v: Value)
    requires Name(a) in d
    ensures v.List? <==> IsListAttr(a)
    ensures IsListAttr(a) ==> Join(v.items, ",") == d[Name(a)]
    ensures !IsListAttr(a) ==> v.s == d[Name(a)]
  {
    if IsListAttr(a) then (JoinSplit(d[Name(a)], ','); List(Split(d[Name(a)], ','))) else Text(d[Name(a)])
  }

  /** The two perl script paths are read only while perl mapping is switched on. */
  predicate Perl(vs: Values)
  {
    vs.usePerlMapping == Text(TrueText)
  }

  /** An optional setting: the value read when the file has its key, the current one otherwise. */
  function Optional(d: map<String, String>, a: Attr, current: Value): Value
  {
    if Name(a) in d then Read(d, a) else current
  }

  /** False, as `load_params` sets the thread switch. */
  const FalseText: String := "False"

  /** The crux path read from the file, then the two perl script paths while perl mapping is on. */
  function PathsRead(vs: Values, d: map<String, String>): Values
    requires FileKeys(d)
    requires Perl(vs) ==> Name(ClipsPath) in d && Name(PromastPath) in d
  {
    var crux := vs.(cruxPath := Read(d, CruxPath));
    if Perl(vs) then crux.(clipsPath := Read(d, ClipsPath), promastPath := Read(d, PromastPath)) else crux
  }

  /** The remaining assignments of `load_params`, with the two optional DeepMSPeptide settings. */
  function RestRead(vs: Values, d: map<String, String>): Values
    requires FileKeys(d)
  {
    var r := vs.(
      multiThreads := Text(FalseText), samplingOutput := Read(d, SamplingOutput), fasta := Read(d, Fasta),
      outputDirectory := Read(d, OutputDirectory), proteases := Read(d, Proteases), maxMCs := Read(d, MaxMCs),
      freqMCs := Read(d, FreqMCs), peptidesSamplingSize := Read(d, PeptidesSamplingSize),
      pepLevelProteomeCov := Read(d, PepLevelProteomeCov), samplingSizeBasedOn := Read(d, SamplingSizeBasedOn),
      bins := Read(d, Bins), numberOfProteases := Read(d, NumberOfProteases), samplingNumber := Read(d, SamplingNumber),
      proteinDynamicRange := Read(d, ProteinDynamicRange), notExpressedFraction := Read(d, NotExpressedFraction),
      proteinIDsWeight := Read(d, ProteinIDsWeight), peptideIDsWeight := Read(d, PeptideIDsWeight),
      coverageWeight := Read(d, CoverageWeight), useDeepMSPeptidePredictions := Read(d, UseDeepMSPeptidePredictions),
      proteinWeightFile := Read(d, ProteinWeightFile));
    r.(pathDeepMSPeptideModel := Optional(d, PathDeepMSPeptideModel, vs.pathDeepMSPeptideModel),
       weightsDeepMSPeptidePredictions := Optional(d, WeightsDeepMSPeptidePredictions, vs.weightsDeepMSPeptidePredictions))
  }

  /**
   * The values after the assignments of `load_params`: every required
   * attribute but the perl switch, the key length and the I/L switch is read
   * from the file, the perl script paths only while perl mapping is on, the
   * two DeepMSPeptide settings only when the file has them; threads are
   * switched off and everything else is kept.
   */
  function Loaded(vs: Values, d: map<String, String>): (r: Values)
    requires FileKeys(d)
    requires Perl(vs) ==> Name(ClipsPath) in d && Name(PromastPath) in d
    ensures Perl(vs) ==> r.clipsPath == Read(d, ClipsPath) && r.promastPath == Read(d, PromastPath)
    ensures !Perl(vs) ==> r.clipsPath == vs.clipsPath && r.promastPath == vs.promastPath
    ensures r.multiThreads == Text("False")
    ensures r.indexingKeyLen == vs.indexingKeyLen && r.differentiateIL == vs.differentiateIL
    ensures r.usePerlMapping == vs.usePerlMapping && r.digestionResultFile == vs.digestionResultFile
    ensures r.pathDeepMSPeptideModel ==
      if Name(PathDeepMSPeptideModel) in d then Read(d, PathDeepMSPeptideModel) else vs.pathDeepMSPeptideModel
    ensures r.weightsDeepMSPeptidePredictions ==
      if Name(WeightsDeepMSPeptidePredictions) in d then Read(d, WeightsDeepMSPeptidePredictions)
      else vs.weightsDeepMSPeptidePredictions
  {
    RestRead(PathsRead(vs, d), d)
  }

  /** Every attribute `load_params` always sets holds the value read for it. */
  lemma LoadedReads(vs: Values, d: map<String, String>)
    requires FileKeys(d)
    requires Perl(vs) ==> Name(ClipsPath) in d && Name(PromastPath) in d
    ensures forall a: Attr :: FromFile(a) ==> Name(a) in d && Get(Loaded(vs, d), a) == Read(d, a)
  {
    var r := Loaded(vs, d);
    forall a: Attr | FromFile(a) ensures Name(a) in d && Get(r, a) == Read(d, a) {
      match a
      case CruxPath => {}
      case _ => {}
    }
  }

  /**
   * `load_params` on the rows of a file: a row the dictionary cannot take or a
   * missing required key raises ValueError before anything is set; a missing
   * perl script path raises KeyError after the paths before it are set;
   * otherwise the values are assigned and validated in mode 1.
   */
  function LoadSpec(vs: Values, rows: seq<String>, isFile: String -> bool, dirUsable: String -> bool,
                    numeric: String -> bool): Outcome
  {
    match ParamDict(rows)
    case Err(e) => Outcome(vs, Err(e))
    case Ok(d) =>
      if !HasRequired(d) then Outcome(vs, Err(ValueError))
      else
        RequiredKeys(d);
        if Perl(vs) && Name(ClipsPath) !in d then Outcome(vs.(cruxPath := Read(d, CruxPath)), Err(KeyError))
        else if Perl(vs) && Name(PromastPath) !in d
        then Outcome(vs.(cruxPath := Read(d, CruxPath), clipsPath := Read(d, ClipsPath)), Err(KeyError))
        else ValidateSpec(Loaded(vs, d), 1, isFile, dirUsable, numeric)
  }

  /** Reading rows fails only with ValueError. */
  lemma ParamDictError(rows: seq<String>)
    ensures ParamDict(rows).Err? ==> ParamDict(rows).error == ValueError
  {
    var ts := Tuples(KeptRows(rows));
    FirstErrorSpec(seq(|ts|, k requires 0 <= k < |ts| => PairOf(ts[k])));
  }

  /**
   * Loading raises ValueError exactly when the rows do not make a dictionary
   * with every required key, and then changes nothing; it raises KeyError
   * exactly when perl mapping is on and a script path is missing; it never
   * fails in validation, as the loaded frequencies and maximal MCs are lists.
   */
  lemma LoadErrors(vs: Values, rows: seq<String>, isFile: String -> bool, dirUsable: String -> bool,
                   numeric: String -> bool)
    ensures var o := LoadSpec(vs, rows, isFile, dirUsable, numeric);
      var pd := ParamDict(rows);
      (o.result == Err(ValueError) <==> pd.Err? || !HasRequired(pd.value)) &&
      (o.result == Err(ValueError) ==> o.values == vs) &&
      (o.result == Err(KeyError) <==>
         pd.Ok? && HasRequired(pd.value) && Perl(vs) &&
         (Name(ClipsPath) !in pd.value || Name(PromastPath) !in pd.value)) &&
      o.result != Err(UnboundLocal)
  {
    ParamDictError(rows);
  }

  /** An attribute value that a file line keeps whole, and the file reads back as it was. */
  predicate Restorable(a: Attr, v: Value)
  {
    if IsListAttr(a) then v.List? && |v.items| >= 1 && (forall i :: 0 <= i < |v.items| ==> ',' !in v.items[i])
    else v.Text?
  }

  /**
   * A saved file reads into a dictionary holding every name with the text of
   * its attribute, so it has every required key, provided no text holds '='
   * or starts or ends with whitespace.
   */
  lemma SavedFileReads(w: Values)
    requires forall a: Attr :: Storable(Str(w, a))
    ensures ParamDict(SavedRows(w)).Ok?
    ensures forall a: Attr :: Name(a) in ParamDict(SavedRows(w)).value && ParamDict(SavedRows(w)).value[Name(a)] == Str(w, a)
    ensures HasRequired(ParamDict(SavedRows(w)).value)
  {
    var pairs := Pairs(w);
    NamesDistinct();
    forall i | 0 <= i < |pairs| ensures Storable(pairs[i].0) && Storable(pairs[i].1) {
      NameStorable(Order[i]);
    }
    RowsReadBack(pairs);
    var d := ParamDict(SavedRows(w)).value;
    forall a: Attr ensures Name(a) in d && d[Name(a)] == Str(w, a) {
      assert pairs[Index(a)] == (Name(a), Str(w, a));
    }
  }

  /** A saved file loads into any parameter object without an error. */
  lemma SavedFileLoads(w: Values, u: Values, isFile: String -> bool, dirUsable: String -> bool, numeric: String -> bool)
    requires forall a: Attr :: Storable(Str(w, a))
    ensures LoadSpec(u, SavedRows(w), isFile, dirUsable, numeric).result.Ok?
  {
    SavedFileReads(w);
    var rows := SavedRows(w);
    assert Name(ClipsPath) in ParamDict(rows).value && Name(PromastPath) in ParamDict(rows).value;
    LoadSucceeds(u, rows, isFile, dirUsable, numeric);
  }

  /** Rows that read as a dictionary with the required keys and both perl script paths load without an error. */
  lemma LoadSucceeds(vs: Values, rows: seq<String>, isFile: String -> bool, dirUsable: String -> bool, numeric: String -> bool)
    requires ParamDict(rows).Ok? && HasRequired(ParamDict(rows).value)
    requires Name(ClipsPath) in ParamDict(rows).value && Name(PromastPath) in ParamDict(rows).value
    ensures LoadSpec(vs, rows, isFile, dirUsable, numeric).result.Ok?
  {
    LoadErrors(vs, rows, isFile, dirUsable, numeric);
  }

  /**
   * Saving then loading: when the list parameters are non-empty lists of
   * comma-free items and the others are texts, each attribute the file sets
   * reads back as it was before the lists were joined.
   */
  lemma SaveLoadRoundTrip(x: Values)
    requires forall a: Attr :: Restorable(a, Get(x, a))
    requires forall a: Attr :: Storable(Str(FixAll(x), a))
    ensures ParamDict(SavedRows(FixAll(x))).Ok?
    ensures forall a: Attr :: Name(a) in ParamDict(SavedRows(FixAll(x))).value
    ensures forall a: Attr :: Read(ParamDict(SavedRows(FixAll(x))).value, a) == Get(x, a)
  {
    var w := FixAll(x);
    SavedFileReads(w);
    var d := ParamDict(SavedRows(w)).value;
    forall a: Attr ensures Read(d, a) == Get(x, a) {
      if IsListAttr(a) {
        FixedSplits(Get(x, a).items);
      }
    }
  }

  /** The perl script paths and the optional settings, once the file holds those of `x`. */
  lemma LoadedOptional(x: Values, u: Values, d: map<String, String>)
    requires FileKeys(d) && Name(ClipsPath) in d && Name(PromastPath) in d
    requires Name(PathDeepMSPeptideModel) in d && Name(WeightsDeepMSPeptidePredictions) in d
    requires Read(d, ClipsPath) == Get(x, ClipsPath) && Read(d, PromastPath) == Get(x, PromastPath)
    requires Read(d, PathDeepMSPeptideModel) == Get(x, PathDeepMSPeptideModel)
    requires Read(d, WeightsDeepMSPeptidePredictions) == Get(x, WeightsDeepMSPeptidePredictions)
    ensures var l := Loaded(u, d);
      (Perl(u) ==> l.clipsPath == x.clipsPath && l.promastPath == x.promastPath) &&
      l.pathDeepMSPeptideModel == x.pathDeepMSPeptideModel &&
      l.weightsDeepMSPeptidePredictions == x.weightsDeepMSPeptidePredictions
  {
    assert Get(x, ClipsPath) == x.clipsPath && Get(x, PromastPath) == x.promastPath;
    assert Get(x, PathDeepMSPeptideModel) == x.pathDeepMSPeptideModel;
    assert Get(x, WeightsDeepMSPeptidePredictions) == x.weightsDeepMSPeptidePredictions;
  }

  /**
   * Loading a dictionary whose every key reads back an attribute of `x`:
   * every attribute the file sets, the perl script paths while perl mapping
   * is on and both optional settings end as in `x`; the perl switch, key
   * length, I/L switch and digestion result file stay as they were, and
   * threads are switched off.
   */
  lemma LoadedFrom(x: Values, u: Values, d: map<String, String>)
    requires forall a: Attr :: Name(a) in d
    requires forall a: Attr :: Read(d, a) == Get(x, a)
    ensures FileKeys(d) && Name(ClipsPath) in d && Name(PromastPath) in d
    ensures var l := Loaded(u, d);
      (forall a: Attr :: FromFile(a) ==> Get(l, a) == Get(x, a)) &&
      (Perl(u) ==> l.clipsPath == x.clipsPath && l.promastPath == x.promastPath) &&
      l.pathDeepMSPeptideModel == x.pathDeepMSPeptideModel &&
      l.weightsDeepMSPeptidePredictions == x.weightsDeepMSPeptidePredictions &&
      l.multiThreads == Text("False") && l.usePerlMapping == u.usePerlMapping &&
      l.indexingKeyLen == u.indexingKeyLen && l.differentiateIL == u.differentiateIL &&
      l.digestionResultFile == u.digestionResultFile
  {
    assert Read(d, ClipsPath) == Get(x, ClipsPath) && Read(d, PromastPath) == Get(x, PromastPath);
    assert Read(d, PathDeepMSPeptideModel) == Get(x, PathDeepMSPeptideModel);
    assert Read(d, WeightsDeepMSPeptidePredictions) == Get(x, WeightsDeepMSPeptidePredictions);
    LoadedOptional(x, u, d);
    assert forall a: Attr :: FromFile(a) ==> Get(Loaded(u, d), a) == Get(x, a) by {
      LoadedReads(u, d);
    }
  }

  /**
   * The object a saved file is loaded into ends with the saved values in every
   * attribute the file sets, and in the perl script paths while perl mapping
   * is on; it keeps its own perl switch, key length, I/L switch and digestion
   * result file, and has threads switched off.
   */
  lemma LoadAfterSave(x: Values, u: Values)
    requires forall a: Attr :: Restorable(a, Get(x, a))
    requires forall a: Attr :: Storable(Str(FixAll(x), a))
    ensures ParamDict(SavedRows(FixAll(x))).Ok?
    ensures var d := ParamDict(SavedRows(FixAll(x))).value;
      FileKeys(d) && Name(ClipsPath) in d && Name(PromastPath) in d
    ensures var l := Loaded(u, ParamDict(SavedRows(FixAll(x))).value);
      (forall a: Attr :: FromFile(a) ==> Get(l, a) == Get(x, a)) &&
      (Perl(u) ==> l.clipsPath == x.clipsPath && l.promastPath == x.promastPath) &&
      l.pathDeepMSPeptideModel == x.pathDeepMSPeptideModel &&
      l.weightsDeepMSPeptidePredictions == x.weightsDeepMSPeptidePredictions &&
      l.multiThreads == Text("False") && l.usePerlMapping == u.usePerlMapping &&
      l.indexingKeyLen == u.indexingKeyLen && l.differentiateIL == u.differentiateIL &&
      l.digestionResultFile == u.digestionResultFile
  {
    SaveLoadRoundTrip(x);
    LoadedFrom(x, u, ParamDict(SavedRows(FixAll(x))).value);
  }

  /** Fixing settled values leaves them settled: the joined lists are texts. */
  lemma FixAllSettled(vs: Values)
    requires Settled(vs)
    ensures Settled(FixAll(vs))
  {
    assert FixAll(vs).bins == vs.bins && FixAll(vs).notExpressedFraction == vs.notExpressedFraction;
  }

  /**
   * Saving parameters that passed validation, then saving again, writes the
   * same values: the second validation and fixing change nothing.
   */
  lemma SaveIdempotent(vs: Values, isFile: String -> bool, dirUsable: String -> bool, numeric: String -> bool)
    requires ValidateSpec(vs, 1, isFile, dirUsable, numeric).result == Ok(Passed)
    ensures var w := FixAll(ValidateSpec(vs, 1, isFile, dirUsable, numeric).values);
      ValidateSpec(w, 1, isFile, dirUsable, numeric).result.Ok? &&
      FixAll(ValidateSpec(w, 1, isFile, dirUsable, numeric).values) == w
  {
    var once := ValidateSpec(vs, 1, isFile, dirUsable, numeric).values;
    ValidatePassedSettles(vs, isFile, dirUsable, numeric);
    FixAllSettled(once);
    var w := FixAll(once);
    ValidateSettled(w, 1, isFile, dirUsable, numeric);
    FixAllJoinsFreq(once);
    ValidateTextFreqOk(w, isFile, dirUsable, numeric);
    FixAllIdempotent(once);
  }

  /** After fixing, the frequency attribute is text. */
  lemma FixAllJoinsFreq(vs: Values)
    ensures FixAll(vs).freqMCs.Text?
  {
    assert Get(FixAll(vs), FreqMCs) == Fixed(Get(vs, FreqMCs));
  }

  /** Validation of values whose frequency attribute is text reaches a verdict. */
  lemma ValidateTextFreqOk(vs: Values, isFile: String -> bool, dirUsable: String -> bool, numeric: String -> bool)
    requires vs.freqMCs.Text?
    ensures ValidateSpec(vs, 1, isFile, dirUsable, numeric).result.Ok?
  {
  }

  // ---------------------------------------------------------------- validation, step by step

  /** Each item of a list cleaned by `clean_parameter_values`, with its reports. */
  method CleanListValues(v: ValidationClass, items: seq<String>, name: String, allowed: String, lower: bool, mode: int)
    returns (r: seq<String>)
    modifies v
    ensures r == CleanItems(items, allowed, lower)
    ensures v.errors == old(v.errors) + (if mode == 1 then ItemMessages(items, name, allowed, lower) else [])
    ensures v.errCounter == old(v.errCounter) + (if mode == 1 then |ItemMessages(items, name, allowed, lower)| else 0)
  {
    r := [];
    var i := 0;
    while i < |items|
      invariant 0 <= i <= |items|
      invariant r == CleanItems(items[..i], allowed, lower)
      invariant v.errors == old(v.errors) + (if mode == 1 then ItemMessages(items[..i], name, allowed, lower) else [])
      invariant v.errCounter == old(v.errCounter) + (if mode == 1 then |ItemMessages(items[..i], name, allowed, lower)| else 0)
    {
      var item := if lower then Lower(items[i]) else items[i];
      ItemStep(items, i, name, allowed, lower);
      ghost var before := v.errors;
      var c := CleanParameterValues(v, item, name, allowed, mode);
      if mode == 1 {
        AppendAssoc(old(v.errors), ItemMessages(items[..i], name, allowed, lower), CleanMessages(item, name, allowed));
      } else {
        assert v.errors == before;
      }
      r := r + [c];
      i := i + 1;
    }
    assert items[..|items|] == items;
  }

  /** One more item: its cleaned text and its messages follow those of the items before it. */
  lemma ItemStep(items: seq<String>, i: nat, name: String, allowed: String, lower: bool)
    requires i < |items|
    ensures ItemMessages(items[..i + 1], name, allowed, lower) ==
      ItemMessages(items[..i], name, allowed, lower) + CleanMessages(if lower then Lower(items[i]) else items[i], name, allowed)
    ensures CleanItems(items[..i + 1], allowed, lower) == CleanItems(items[..i], allowed, lower) + [CleanItem(items[i], allowed, lower)]
  {
    assert items[..i + 1][..i] == items[..i];
  }

  /** A list value cleaned with its reports, as one loop of `validate_params` does; a text is left alone. */
  method CleanValueReported(v: ValidationClass, x: Value, name: String, allowed: String, lower: bool, mode: int)
    returns (y: Value)
    modifies v
    ensures y == CleanValue(x, allowed, lower)
    ensures v.errors == old(v.errors) + ListMessages(x, name, allowed, lower, mode)
    ensures v.errCounter == old(v.errCounter) + |ListMessages(x, name, allowed, lower, mode)|
  {
    y := x;
    if x.List? {
      var items := CleanListValues(v, x.items, name, allowed, lower, mode);
      y := List(items);
    }
  }

  /** `if not ok: add_error(msg)`. */
  method Check(v: ValidationClass, ok: bool, msg: String)
    modifies v
    ensures v.errors == old(v.errors) + Missing(ok, msg)
    ensures v.errCounter == old(v.errCounter) + |Missing(ok, msg)|
  {
    if !ok {
      v.AddError(msg);
    }
  }

  /** The path checks of `validate_params`. */
  method CheckPaths(v: ValidationClass, vs: Values, mode: int, isFile: String -> bool, dirUsable: String -> bool)
    modifies v
    ensures v.errors == old(v.errors) + PathErrors(vs, mode, isFile, dirUsable)
    ensures v.errCounter == old(v.errCounter) + |PathErrors(vs, mode, isFile, dirUsable)|
  {
    CheckTools(v, vs, mode, isFile);
    ghost var tools := ToolErrors(vs, mode, isFile);
    Check(v, isFile(Repr(vs.fasta)), FastaMissing);
    Check(v, dirUsable(Repr(vs.outputDirectory)), OutputUnusable);
    AppendAssoc(old(v.errors) + tools, Missing(isFile(Repr(vs.fasta)), FastaMissing),
                Missing(dirUsable(Repr(vs.outputDirectory)), OutputUnusable));
  }

  /** The checks of the crux path and, when perl mapping is asked for, of the two perl scripts (mode 1 only). */
  method CheckTools(v: ValidationClass, vs: Values, mode: int, isFile: String -> bool)
    modifies v
    ensures v.errors == old(v.errors) + ToolErrors(vs, mode, isFile)
    ensures v.errCounter == old(v.errCounter) + |ToolErrors(vs, mode, isFile)|
  {
    if mode == 1 {
      Check(v, isFile(Repr(vs.cruxPath)), CruxMissing);
      if Repr(vs.usePerlMapping) != "" {
        ghost var e := v.errors;
        Check(v, isFile(Repr(vs.clipsPath)), ClipsMissing);
        Check(v, isFile(Repr(vs.promastPath)), PromastMissing);
        AppendAssoc(e, Missing(isFile(Repr(vs.clipsPath)), ClipsMissing), Missing(isFile(Repr(vs.promastPath)), PromastMissing));
        AppendAssoc(old(v.errors), Missing(isFile(Repr(vs.cruxPath)), CruxMissing),
                    Missing(isFile(Repr(vs.clipsPath)), ClipsMissing) + Missing(isFile(Repr(vs.promastPath)), PromastMissing));
      }
    }
  }

  /** One report for each bin bound that is not numeric. */
  method CheckBins(v: ValidationClass, bins: seq<String>, numeric: String -> bool)
    modifies v
    ensures v.errors == old(v.errors) + BinErrors(bins, numeric)
    ensures v.errCounter == old(v.errCounter) + |BinErrors(bins, numeric)|
  {
    var i := 0;
    while i < |bins|
      invariant 0 <= i <= |bins|
      invariant v.errors == old(v.errors) + BinErrors(bins[..i], numeric)
      invariant v.errCounter == old(v.errCounter) + |BinErrors(bins[..i], numeric)|
    {
      assert bins[..i + 1][..i] == bins[..i];
      Check(v, numeric(bins[i]), BinNotNumeric);
      i := i + 1;
    }
    assert bins[..|bins|] == bins;
  }

  /** The tests of the weighting factors and of the detectability settings. */
  method CheckNumbers(v: ValidationClass, vs: Values, numeric: String -> bool, isFile: String -> bool)
    modifies v
    ensures v.errors == old(v.errors) + CheckErrors(vs, numeric, isFile)
    ensures v.errCounter == old(v.errCounter) + |CheckErrors(vs, numeric, isFile)|
  {
    ghost var e := v.errors;
    ghost var a := Missing(numeric(Repr(vs.proteinIDsWeight)), ProteinWeightNotNumeric);
    ghost var b := Missing(numeric(Repr(vs.peptideIDsWeight)), PeptideWeightNotNumeric);
    ghost var c := Missing(numeric(Repr(vs.coverageWeight)), CoverageWeightNotNumeric);
    Check(v, numeric(Repr(vs.proteinIDsWeight)), ProteinWeightNotNumeric);
    Check(v, numeric(Repr(vs.peptideIDsWeight)), PeptideWeightNotNumeric);
    AppendAssoc(e, a, b);
    Check(v, numeric(Repr(vs.coverageWeight)), CoverageWeightNotNumeric);
    AppendAssoc(e, a + b, c);
    if Repr(vs.useDeepMSPeptidePredictions) == TrueText {
      ghost var d := Missing(numeric(Repr(vs.weightsDeepMSPeptidePredictions)), DeepWeightNotNumeric);
      ghost var f := Missing(isFile(Repr(vs.pathDeepMSPeptideModel)), DeepModelMissing);
      Check(v, numeric(Repr(vs.weightsDeepMSPeptidePredictions)), DeepWeightNotNumeric);
      Check(v, isFile(Repr(vs.pathDeepMSPeptideModel)), DeepModelMissing);
      AppendAssoc(e + (a + b + c), d, f);
      AppendAssoc(e, a + b + c, d + f);
    } else {
      assert a + b + c + [] == a + b + c;
    }
  }

  // ---------------------------------------------------------------- the parameter class

  /** Whether the dictionary holds every key `load_params` requires, checked in the order of its list. */
  method RequiredPresent(d: map<String, String>) returns (ok: bool)
    ensures ok == HasRequired(d)
  {
    var i := 0;
    while i < |Required|
      invariant 0 <= i <= |Required|
      invariant forall j :: 0 <= j < i ==> Name(Required[j]) in d
    {
      if Name(Required[i]) !in d {
        return false;
      }
      i := i + 1;
    }
    return true;
  }

  /** `CoMPaseD_Parameter`: the parameter values, one field per attribute. */
  class Parameter {
    var values: Values

    /** `__init__`: the default values. */
    constructor (cwd: String, clipsLocation: String, promastLocation: String, dmspModelLocation: String)
      ensures values == Defaults(cwd, clipsLocation, promastLocation, dmspModelLocation)
    {
      values := Defaults(cwd, clipsLocation, promastLocation, dmspModelLocation);
    }

    /** One of the five `fix_*` methods: the list in `a` joined with ','. */
    method Fix(a: Attr)
      requires IsListAttr(a)
      modifies this
      ensures values == FixOne(old(values), a)
      ensures forall b: Attr :: Get(values, b) == if b == a then Fixed(Get(old(values), a)) else Get(old(values), b)
    {
      if a == Proteases {
        values := values.(proteases := Fixed(values.proteases));
      } else if a == MaxMCs {
        values := values.(maxMCs := Fixed(values.maxMCs));
      } else if a == FreqMCs {
        values := values.(freqMCs := Fixed(values.freqMCs));
      } else if a == PeptidesSamplingSize {
        values := values.(peptidesSamplingSize := Fixed(values.peptidesSamplingSize));
      } else {
        values := values.(pepLevelProteomeCov := Fixed(values.pepLevelProteomeCov));
      }
    }

    /** The five `fix_*` calls of `save_params_to_file_from_cli`, in its order. */
    method FixAllParams()
      modifies this
      ensures values == FixAll(old(values))
    {
      Fix(Proteases);
      Fix(MaxMCs);
      Fix(FreqMCs);
      Fix(PepLevelProteomeCov);
      Fix(PeptidesSamplingSize);
    }

    /** `get_param_list`: one line per attribute, in creation order. */
    method GetParamList() returns (lines: seq<String>)
      ensures lines == ParamList(values)
    {
      lines := [];
      var i := 0;
      while i < |Order|
        invariant 0 <= i <= |Order|
        invariant lines == ParamList(values)[..i]
      {
        var a := Order[i];
        ParamListNext(values, i, lines);
        lines := lines + [Line(Name(a), Str(values, a))];
        i := i + 1;
      }
    }

    /**
     * The five list loops of `validate_params`; false when the frequency loop
     * stores the maximal-MC list that was never built (line 504).
     */
    method CleanListParams(v: ValidationClass, mode: int) returns (ok: bool)
      modifies this, v
      ensures ok <==> !(old(values).freqMCs.List? && !old(values).maxMCs.List?)
      ensures !ok ==> values == ProteasesCleaned(old(values))
      ensures ok ==> values == ListsCleaned(old(values))
      ensures ok ==> v.errors == old(v.errors) + ListReports(old(values), mode)
      ensures ok ==> v.errCounter == old(v.errCounter) + |ListReports(old(values), mode)|
    {
      ghost var vs := values;
      ghost var e := v.errors;
      var proteases := CleanValueReported(v, values.proteases, ProteasesLabel, ProteaseAllowed, true, mode);
      values := values.(proteases := proteases);
      var tmpMaxMCs: Option<seq<String>> := None;
      var maxMCs := CleanValueReported(v, values.maxMCs, MaxMCsLabel, DigitAllowed, false, mode);
      if values.maxMCs.List? {
        tmpMaxMCs := Some(maxMCs.items);
      }
      values := values.(maxMCs := maxMCs);
      var _ := CleanValueReported(v, values.freqMCs, FreqMCsLabel, DefaultAllowed, false, mode);
      if values.freqMCs.List? {
        if tmpMaxMCs.None? {
          ok := false;
          return;
        }
        values := values.(maxMCs := List(tmpMaxMCs.value));
      }
      var size := CleanValueReported(v, values.peptidesSamplingSize, SamplingSizeLabel, DigitAllowed, false, mode);
      values := values.(peptidesSamplingSize := size);
      var coverage := CleanValueReported(v, values.pepLevelProteomeCov, SamplingCoverageLabel, FractionAllowed, false, mode);
      values := values.(pepLevelProteomeCov := coverage);
      ok := true;
      ghost var p := ListMessages(vs.proteases, ProteasesLabel, ProteaseAllowed, true, mode);
      ghost var m := ListMessages(vs.maxMCs, MaxMCsLabel, DigitAllowed, false, mode);
      ghost var f := ListMessages(vs.freqMCs, FreqMCsLabel, DefaultAllowed, false, mode);
      ghost var z := ListMessages(vs.peptidesSamplingSize, SamplingSizeLabel, DigitAllowed, false, mode);
      ghost var c := ListMessages(vs.pepLevelProteomeCov, SamplingCoverageLabel, FractionAllowed, false, mode);
      AppendAssoc(e, p, m);
      AppendAssoc(e, p + m, f);
      AppendAssoc(e, p + m + f, z);
      AppendAssoc(e, p + m + f + z, c);
    }

    /** The bins cleaned and their bounds checked, then the not-expressed fractions cleaned. */
    method CleanTextParams(v: ValidationClass, mode: int, numeric: String -> bool)
      modifies this, v
      ensures values == TextsCleaned(old(values))
      ensures v.errors == old(v.errors) + TextMessages(old(values), mode, numeric)
      ensures v.errCounter == old(v.errCounter) + |TextMessages(old(values), mode, numeric)|
    {
      ghost var e := v.errors;
      ghost var binReports := if mode == 1 then CleanMessages(Repr(values.bins), BinsLabel, BinAllowed) else [];
      ghost var nefReports := if mode == 1 then CleanMessages(Repr(values.notExpressedFraction), NotExpressedLabel, NotExpressedAllowed) else [];
      var bins := CleanParameterValues(v, Repr(values.bins), BinsLabel, BinAllowed, mode);
      values := values.(bins := Text(bins));
      CheckBins(v, Split(bins, ','), numeric);
      var nef := CleanParameterValues(v, Repr(values.notExpressedFraction), NotExpressedLabel, NotExpressedAllowed, mode);
      values := values.(notExpressedFraction := Text(nef));
      AppendAssoc(e, binReports, BinErrors(Split(bins, ','), numeric));
      AppendAssoc(e, binReports + BinErrors(Split(bins, ','), numeric), nefReports);
    }

    /**
     * `validate_params`: the values become `ValidateSpec`'s and the call
     * returns or raises what `ValidateSpec` says.
     */
    method ValidateParams(mode: int, isFile: String -> bool, dirUsable: String -> bool, numeric: String -> bool)
      returns (r: Result<Validation, ParamError>)
      modifies this
      ensures values == ValidateSpec(old(values), mode, isFile, dirUsable, numeric).values
      ensures r == ValidateSpec(old(values), mode, isFile, dirUsable, numeric).result
    {
      ghost var vs := values;
      var validation := new ValidationClass();
      CheckPaths(validation, values, mode, isFile, dirUsable);
      assert validation.errors == PathErrors(vs, mode, isFile, dirUsable);
      var ok := CleanListParams(validation, mode);
      if !ok {
        assert ValidateSpec(vs, mode, isFile, dirUsable, numeric).result == Err(UnboundLocal);
        r := Err(UnboundLocal);
        return;
      }
      assert TextMessages(values, mode, numeric) == TextMessages(vs, mode, numeric);
      CleanTextParams(validation, mode, numeric);
      assert CheckErrors(values, numeric, isFile) == CheckErrors(vs, numeric, isFile);
      CheckNumbers(validation, values, numeric, isFile);
      ghost var msgs := Messages(vs, mode, isFile, dirUsable, numeric);
      assert validation.errors == msgs;
      assert validation.errCounter == |msgs|;
      assert ValidateSpec(vs, mode, isFile, dirUsable, numeric).result == Ok(Verdict(msgs));
      if validation.GetResult() {
        r := Ok(Passed);
      } else {
        r := Ok(Failed(validation.errCounter, validation.errors));
      }
    }

    /**
     * `save_params_to_file_from_cli`: validate in mode 1, fix the five lists
     * and write the header and the parameter lines. An exception of the
     * validation propagates before anything is fixed or written.
     */
    method SaveParams(isFile: String -> bool, dirUsable: String -> bool, numeric: String -> bool)
      returns (r: Result<Validation, ParamError>, file: Option<seq<String>>)
      modifies this
      ensures var o := ValidateSpec(old(values), 1, isFile, dirUsable, numeric);
        r == o.result &&
        (r.Err? ==> values == o.values && file == None) &&
        (r.Ok? ==> values == FixAll(o.values) && file == Some(SavedRows(values)))
    {
      r := ValidateParams(1, isFile, dirUsable, numeric);
      if r.Err? {
        file := None;
        return;
      }
      FixAllParams();
      var lines := GetParamList();
      file := Some([Header + "\n"] + lines);
    }

    /** The assignments of `load_params` after the crux and perl script paths. */
    method AssignRest(d: map<String, String>)
      requires FileKeys(d)
      modifies this
      ensures values == RestRead(old(values), d)
    {
      values := values.(multiThreads := Text(FalseText));
      values := values.(samplingOutput := Read(d, SamplingOutput));
      values := values.(fasta := Read(d, Fasta));
      values := values.(outputDirectory := Read(d, OutputDirectory));
      values := values.(proteases := Read(d, Proteases));
      values := values.(maxMCs := Read(d, MaxMCs));
      values := values.(freqMCs := Read(d, FreqMCs));
      values := values.(peptidesSamplingSize := Read(d, PeptidesSamplingSize));
      values := values.(pepLevelProteomeCov := Read(d, PepLevelProteomeCov));
      values := values.(samplingSizeBasedOn := Read(d, SamplingSizeBasedOn));
      values := values.(bins := Read(d, Bins));
      values := values.(numberOfProteases := Read(d, NumberOfProteases));
      values := values.(samplingNumber := Read(d, SamplingNumber));
      values := values.(proteinDynamicRange := Read(d, ProteinDynamicRange));
      values := values.(notExpressedFraction := Read(d, NotExpressedFraction));
      values := values.(proteinIDsWeight := Read(d, ProteinIDsWeight));
      values := values.(peptideIDsWeight := Read(d, PeptideIDsWeight));
      values := values.(coverageWeight := Read(d, CoverageWeight));
      values := values.(useDeepMSPeptidePredictions := Read(d, UseDeepMSPeptidePredictions));
      values := values.(proteinWeightFile := Read(d, ProteinWeightFile));
      if Name(PathDeepMSPeptideModel) in d {
        values := values.(pathDeepMSPeptideModel := Read(d, PathDeepMSPeptideModel));
      }
      if Name(WeightsDeepMSPeptidePredictions) in d {
        values := values.(weightsDeepMSPeptidePredictions := Read(d, WeightsDeepMSPeptidePredictions));
      }
    }

    /**
     * `load_params` on the rows of a parameter file: read the dictionary,
     * check the required keys, assign, and validate in mode 1.
     */
    method LoadParams(rows: seq<String>, isFile: String -> bool, dirUsable: String -> bool, numeric: String -> bool)
      returns (r: Result<Validation, ParamError>)
      modifies this
      ensures values == LoadSpec(old(values), rows, isFile, dirUsable, numeric).values
      ensures r == LoadSpec(old(values), rows, isFile, dirUsable, numeric).result
    {
      var read := ReadParamRows(rows);
      if read.Err? {
        r := Err(read.error);
        return;
      }
      var d := read.value;
      var present := RequiredPresent(d);
      if !present {
        r := Err(ValueError);
        return;
      }
      RequiredKeys(d);
      ghost var vs := values;
      values := values.(cruxPath := Read(d, CruxPath));
      if values.usePerlMapping == Text(TrueText) {
        if Name(ClipsPath) !in d {
          r := Err(KeyError);
          return;
        }
        values := values.(clipsPath := Read(d, ClipsPath));
        if Name(PromastPath) !in d {
          r := Err(KeyError);
          return;
        }
        values := values.(promastPath := Read(d, PromastPath));
      }
      assert values == PathsRead(vs, d);
      AssignRest(d);
      r := ValidateParams(1, isFile, dirUsable, numeric);
    }
  }
}
