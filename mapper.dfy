/**
 * The digestion and mapping step: file-safe protease names, the crux command for each
 * (protease, missed cleavages) pair, the k-mer index of the FASTA proteins, the lookup
 * of digested peptides through that index, and the pooling of the mapped digests.
 */
module PeptideMapper {
  import opened Wrappers
  import opened Strings
  import opened ProteinModel
  import Analysis

  // ================================================================ clean_protease_names

  /** The characters `clean_protease_names` turns into '_'. */
  const FileNameSpecials: String := "\\/:*?\"<>|,;-"

  function SafeChar(c: char, specials: String): char
  {
    if c in specials then '_' else c
  }

  /** A name after the replacements: every special character is '_'. */
  function Sanitise(p: String, specials: String): (r: String)
    ensures |r| == |p| && forall i :: 0 <= i < |p| ==> r[i] == SafeChar(p[i], specials)
  {
    seq(|p|, i requires 0 <= i < |p| => SafeChar(p[i], specials))
  }

  /** The replacements for the first `j` special characters, one after another. */
  lemma SanitiseStep(p: String, specials: String, j: nat)
    requires j < |specials| && '_' !in specials
    ensures Replace(Sanitise(p, specials[..j]), [specials[j]], "_") == Sanitise(p, specials[..j + 1])
  {
    ReplaceOneChar(Sanitise(p, specials[..j]), specials[j], '_');
    assert specials[..j + 1] == specials[..j] + [specials[j]];
  }

  function MaxLen(seen: seq<String>): (m: nat)
    ensures forall i :: 0 <= i < |seen| ==> |seen[i]| <= m
  {
    if seen == [] then 0
    else
      var m := MaxLen(seen[..|seen| - 1]);
      if |seen[|seen| - 1]| > m then |seen[|seen| - 1]| else m
  }

  /** `"_1"` repeated `k` times. */
  function Suffix(k: nat): (r: String)
    ensures |r| == 2 * k && forall i :: 0 <= i < |r| ==> r[i] == '_' || r[i] == '1'
  {
    if k == 0 then [] else Suffix(k - 1) + "_1"
  }

  /** Appending "_1" until the name is not taken yet. */
  function Dedup(s: String, seen: seq<String>): (r: String)
    ensures r !in seen
    ensures exists k: nat :: r == s + Suffix(k)
    decreases MaxLen(seen) + 2 - |s|
  {
    if s in seen then
      var r := Dedup(s + "_1", seen);
      assert exists k: nat :: r == s + Suffix(k) by {
        var k: nat :| r == s + "_1" + Suffix(k);
        assert Suffix(k + 1) == Suffix(k) + "_1";
        SuffixSwap(k);
        assert r == s + Suffix(k + 1);
      }
      r
    else
      assert s == s + Suffix(0);
      s
  }

  lemma {:induction false} SuffixSwap(k: nat)
    ensures "_1" + Suffix(k) == Suffix(k) + "_1"
  {
    if k > 0 {
      SuffixSwap(k - 1);
    }
  }

  /** `clean_protease_names`: the sanitised names, each made unique among the earlier ones. */
  function CleanNames(ps: seq<String>, specials: String): (r: seq<String>)
    ensures |r| == |ps|
  {
    if ps == [] then []
    else
      var prev := CleanNames(ps[..|ps| - 1], specials);
      prev + [Dedup(Sanitise(ps[|ps| - 1], specials), prev)]
  }

  /** The loop of `clean_protease_names`: the replacements character by character, then "_1" while taken. */
  method CleanProteaseNames(ps: seq<String>, specials: String) returns (r: seq<String>)
    requires '_' !in specials
    ensures r == CleanNames(ps, specials)
  {
    r := [];
    var i := 0;
    while i < |ps|
      invariant 0 <= i <= |ps| && r == CleanNames(ps[..i], specials)
    {
      var each := ps[i];
      var j := 0;
      assert each == Sanitise(ps[i], specials[..0]);
      while j < |specials|
        invariant 0 <= j <= |specials| && each == Sanitise(ps[i], specials[..j])
      {
        SanitiseStep(ps[i], specials, j);
        each := Replace(each, [specials[j]], "_");
        j := j + 1;
      }
      assert specials[..j] == specials;
      while each in r
        invariant Dedup(each, r) == Dedup(Sanitise(ps[i], specials), r)
        decreases MaxLen(r) + 2 - |each|
      {
        each := each + "_1";
      }
      assert ps[..i + 1][..i] == ps[..i];
      r := r + [each];
      i := i + 1;
    }
    assert ps[..i] == ps;
  }

  /** The cleaned names are pairwise distinct. */
  lemma {:induction false} CleanNamesDistinct(ps: seq<String>, specials: String)
    ensures forall i, j :: 0 <= i < j < |ps| ==> CleanNames(ps, specials)[i] != CleanNames(ps, specials)[j]
  {
    if ps != [] {
      var n := |ps| - 1;
      CleanNamesDistinct(ps[..n], specials);
      var prev := CleanNames(ps[..n], specials);
      var r := CleanNames(ps, specials);
      assert r == prev + [Dedup(Sanitise(ps[n], specials), prev)];
      forall i, j | 0 <= i < j < |r|
        ensures r[i] != r[j]
      {
        assert r[i] == prev[i];
        if j < n {
          assert r[j] == prev[j];
        } else {
          assert r[j] !in prev;
        }
      }
    }
  }

  /** `r` is `s` followed only by characters of the "_1" marker. */
  predicate Suffixed(r: String, s: String)
  {
    |s| <= |r| && r[..|s|] == s && forall m :: |s| <= m < |r| ==> r[m] == '_' || r[m] == '1'
  }

  /** Each cleaned name is the sanitised name followed by some "_1"s: no special character is left. */
  lemma {:induction false} CleanNamesShape(ps: seq<String>, specials: String)
    ensures forall i :: 0 <= i < |ps| ==> Suffixed(CleanNames(ps, specials)[i], Sanitise(ps[i], specials))
  {
    if ps != [] {
      var n := |ps| - 1;
      CleanNamesShape(ps[..n], specials);
      var prev := CleanNames(ps[..n], specials);
      var r := CleanNames(ps, specials);
      assert r == prev + [Dedup(Sanitise(ps[n], specials), prev)];
      forall i | 0 <= i < |ps|
        ensures Suffixed(r[i], Sanitise(ps[i], specials))
      {
        if i < n {
          assert ps[..n][i] == ps[i] && r[i] == prev[i];
        } else {
          var s := Sanitise(ps[n], specials);
          var k: nat :| r[n] == s + Suffix(k);
          assert r[n][..|s|] == s;
          forall m | |s| <= m < |r[n]| ensures r[n][m] == '_' || r[n][m] == '1' {
            assert r[n][m] == Suffix(k)[m - |s|];
          }
        }
      }
    }
  }

  lemma CleanNamesNoSpecials(ps: seq<String>, specials: String)
    requires '_' !in specials && '1' !in specials
    ensures forall i, c :: 0 <= i < |ps| && c in specials ==> c !in CleanNames(ps, specials)[i]
  {
    CleanNamesShape(ps, specials);
    var r := CleanNames(ps, specials);
    forall i, c | 0 <= i < |r| && c in specials
      ensures c !in r[i]
    {
      var s := Sanitise(ps[i], specials);
      assert Suffixed(r[i], s);
      forall m | 0 <= m < |r[i]| ensures r[i][m] != c {
        if m < |s| {
          assert r[i][m] == s[m] == SafeChar(ps[i][m], specials);
        }
      }
    }
  }

  /** One name alone is only sanitised: `clean_protease_names([p])[0]`. */
  lemma CleanSingle(p: String, specials: String)
    ensures CleanNames([p], specials) == [Sanitise(p, specials)]
  {
    assert [p][..0] == [];
  }

  // ================================================================ generate_peptides_call

  const AllowedDigestion: set<String> := {"full-digest", "partial-digest", "non-specific-digest"}

  const AllowedEnzymes: set<String> := {"trypsin", "trypsin/p", "chymotrypsin", "elastase", "clostripain",
    "cyanogen-bromide", "iodosobenzoate", "proline-endopeptidase", "staph-protease", "asp-n", "lys-c", "lys-n",
    "arg-c", "glu-c", "pepsin-a", "elastase-trypsin-chymotrypsin", "lysarginase"}

  datatype CommandError = DigestionNotAllowed | ProteaseNotDefined

  function Quote(s: String): String
  {
    "\"" + s + "\""
  }

  /** Command-line options, each written " --name value". */
  function Options(opts: seq<(String, String)>): (r: String)
    ensures opts != [] ==> |r| >= 1 && r[0] == ' '
  {
    if opts == [] then [] else " --" + opts[0].0 + " " + opts[0].1 + Options(opts[1..])
  }

  /** How one option reads inside a command line, with the space that follows it. */
  function OptionText(name: String, value: String): String
  {
    " --" + name + " " + value + " "
  }

  /** Every option appears in the command line, followed by a space or the end of the options. */
  lemma {:induction false} OptionsContain(opts: seq<(String, String)>, k: nat, tail: String)
    requires k < |opts| && |tail| >= 1 && tail[0] == ' '
    ensures Contains(Options(opts) + tail, OptionText(opts[k].0, opts[k].1))
  {
    if k == 0 {
      var rest := Options(opts[1..]) + tail;
      assert rest[0] == ' ';
      assert Options(opts) + tail == [] + OptionText(opts[k].0, opts[k].1) + rest[1..];
      ContainsMiddle([], OptionText(opts[k].0, opts[k].1), rest[1..]);
    } else {
      OptionsContain(opts[1..], k - 1, tail);
      var first := " --" + opts[0].0 + " " + opts[0].1;
      assert Options(opts) + tail == first + (Options(opts[1..]) + tail);
      ContainsSuffix(first, Options(opts[1..]) + tail, OptionText(opts[k].0, opts[k].1));
    }
  }

  /** The options `generate_peptides_call` writes, in order. */
  function PeptideOptions(outFolder: String, minMass: String, maxMass: String, minLen: String, maxLen: String,
                          missedCleavages: String, digestion: String, clipNTermMet: String, decoyFormat: String,
                          enzyme: String): seq<(String, String)>
  {
    [("overwrite", "T"), ("min-mass", minMass), ("max-mass", maxMass), ("min-length", minLen),
     ("max-length", maxLen), ("digestion", digestion), ("missed-cleavages", missedCleavages),
     ("clip-nterm-methionine", clipNTermMet), ("decoy-format", decoyFormat), ("enzyme", enzyme),
     ("fileroot", Quote(outFolder))]
  }

  /**
   * `generate_peptides_call`: the crux generate-peptides command line. The numeric
   * options are the `str()` texts of the caller's values.
   */
  function GeneratePeptidesCall(outFolder: String, fasta: String, cruxPath: String, minMass: String, maxMass: String,
                                minLen: String, maxLen: String, missedCleavages: String, digestion: String,
                                clipNTermMet: String, decoyFormat: String, enzyme: String): Result<String, CommandError>
  {
    if digestion !in AllowedDigestion then Err(DigestionNotAllowed)
    else if enzyme !in AllowedEnzymes then Err(ProteaseNotDefined)
    else Ok(PeptidesCommand(outFolder, fasta, cruxPath, minMass, maxMass, minLen, maxLen, missedCleavages, digestion,
                            clipNTermMet, decoyFormat, enzyme))
  }

  /** The command line of an accepted call. */
  function PeptidesCommand(outFolder: String, fasta: String, cruxPath: String, minMass: String, maxMass: String,
                           minLen: String, maxLen: String, missedCleavages: String, digestion: String,
                           clipNTermMet: String, decoyFormat: String, enzyme: String): String
  {
    CommandLine(Quote(cruxPath) + " generate-peptides",
      PeptideOptions(outFolder, minMass, maxMass, minLen, maxLen, missedCleavages, digestion, clipNTermMet, decoyFormat, enzyme),
      " " + Quote(fasta))
  }

  function CommandLine(head: String, opts: seq<(String, String)>, tail: String): String
  {
    head + Options(opts) + tail
  }

  /** A command made of a head, options and a tail keeps each of them in place. */
  lemma CommandParts(head: String, opts: seq<(String, String)>, tail: String, k: nat)
    requires k < |opts| && |tail| >= 1 && tail[0] == ' '
    ensures StartsWith(CommandLine(head, opts, tail), head + " ") && EndsWith(CommandLine(head, opts, tail), tail)
    ensures Contains(CommandLine(head, opts, tail), OptionText(opts[k].0, opts[k].1))
  {
    var body := Options(opts) + tail;
    var cmd := CommandLine(head, opts, tail);
    assert cmd == head + body;
    assert body[0] == ' ';
    assert cmd[..|head| + 1] == head + [body[0]];
    OptionsContain(opts, k, tail);
    ContainsSuffix(head, body, OptionText(opts[k].0, opts[k].1));
  }

  /**
   * The command fails exactly for a digestion or an enzyme outside the allowed sets,
   * the digestion checked first.
   */
  lemma GeneratePeptidesCallErrors(outFolder: String, fasta: String, cruxPath: String, minMass: String, maxMass: String,
                                   minLen: String, maxLen: String, mc: String, digestion: String,
                                   clip: String, decoy: String, enzyme: String)
    ensures (GeneratePeptidesCall(outFolder, fasta, cruxPath, minMass, maxMass, minLen, maxLen, mc, digestion, clip, decoy, enzyme).Ok?
      <==> digestion in AllowedDigestion && enzyme in AllowedEnzymes)
    ensures (GeneratePeptidesCall(outFolder, fasta, cruxPath, minMass, maxMass, minLen, maxLen, mc, digestion, clip, decoy, enzyme)
      == Err(DigestionNotAllowed)) <==> digestion !in AllowedDigestion
    ensures GeneratePeptidesCall(outFolder, fasta, cruxPath, minMass, maxMass, minLen, maxLen, mc, digestion, clip, decoy, enzyme).Ok? ==>
      GeneratePeptidesCall(outFolder, fasta, cruxPath, minMass, maxMass, minLen, maxLen, mc, digestion, clip, decoy, enzyme).value
      == PeptidesCommand(outFolder, fasta, cruxPath, minMass, maxMass, minLen, maxLen, mc, digestion, clip, decoy, enzyme)
  {
  }

  /**
   * An accepted command runs crux generate-peptides on the quoted FASTA path with the
   * requested missed cleavages, enzyme and output folder.
   */
  lemma GeneratePeptidesCallShape(outFolder: String, fasta: String, cruxPath: String, minMass: String, maxMass: String,
                                  minLen: String, maxLen: String, mc: String, digestion: String,
                                  clip: String, decoy: String, enzyme: String, cmd: String)
    requires cmd == PeptidesCommand(outFolder, fasta, cruxPath, minMass, maxMass, minLen, maxLen, mc, digestion, clip, decoy, enzyme)
    ensures StartsWith(cmd, Quote(cruxPath) + " generate-peptides" + " ")
    ensures Contains(cmd, OptionText("missed-cleavages", mc))
    ensures Contains(cmd, OptionText("enzyme", enzyme))
    ensures Contains(cmd, OptionText("fileroot", Quote(outFolder)))
    ensures EndsWith(cmd, " " + Quote(fasta))
  {
    var head := Quote(cruxPath) + " generate-peptides";
    var opts := PeptideOptions(outFolder, minMass, maxMass, minLen, maxLen, mc, digestion, clip, decoy, enzyme);
    var tail := " " + Quote(fasta);
    assert opts[6] == ("missed-cleavages", mc) && opts[9] == ("enzyme", enzyme);
    assert opts[10] == ("fileroot", Quote(outFolder));
    CommandParts(head, opts, tail, 6);
    CommandParts(head, opts, tail, 9);
    CommandParts(head, opts, tail, 10);
  }

  // ================================================================ get_crux_cmds

  /** What `get_crux_cmds` returns: the commands and their parallel protease, MC and file lists. */
  datatype CruxCmds = CruxCmds(commands: seq<String>, proteases: seq<String>, mcs: seq<int>, files: seq<String>)

  /** The crux output folder of one stratum: `<clean>_<mc>_MCs`. */
  function ResultName(p: String, mc: int): String
  {
    Sanitise(p, FileNameSpecials) + "_" + IntToString(mc) + "_MCs"
  }

  /** The line of the result-file list for one stratum. */
  function FileLine(p: String, mc: int): String
  {
    ResultName(p, mc) + ".generate-peptides.target.txt" + "\t" + p + "\t" + IntToString(mc)
  }

  /** The command `get_crux_cmds` builds for one stratum, with the builder's defaults. */
  function StratumCommand(s: Analysis.Stratum, fasta: String, cruxPath: String,
                          minMass: String, maxMass: String, minLen: String, maxLen: String): String
  {
    PeptidesCommand(ResultName(s.enzyme, s.mc), fasta, cruxPath, minMass, maxMass, minLen, maxLen,
                    IntToString(s.mc), "full-digest", "T", "none", s.enzyme)
  }

  /** The call `get_crux_cmds` makes for one stratum, with the builder's defaults. */
  function StratumCall(s: Analysis.Stratum, fasta: String, cruxPath: String,
                       minMass: String, maxMass: String, minLen: String, maxLen: String): Result<String, CommandError>
  {
    GeneratePeptidesCall(ResultName(s.enzyme, s.mc), fasta, cruxPath, minMass, maxMass, minLen, maxLen,
                         IntToString(s.mc), "full-digest", "T", "none", s.enzyme)
  }

  /** The builder accepts a stratum exactly when crux knows its enzyme, and then builds its command. */
  lemma StratumCallSpec(s: Analysis.Stratum, fasta: String, cruxPath: String,
                        minMass: String, maxMass: String, minLen: String, maxLen: String)
    ensures StratumCall(s, fasta, cruxPath, minMass, maxMass, minLen, maxLen).Ok? <==> s.enzyme in AllowedEnzymes
    ensures StratumCall(s, fasta, cruxPath, minMass, maxMass, minLen, maxLen).Err? ==>
      StratumCall(s, fasta, cruxPath, minMass, maxMass, minLen, maxLen).error == ProteaseNotDefined
    ensures StratumCall(s, fasta, cruxPath, minMass, maxMass, minLen, maxLen).Ok? ==>
      StratumCall(s, fasta, cruxPath, minMass, maxMass, minLen, maxLen).value
      == StratumCommand(s, fasta, cruxPath, minMass, maxMass, minLen, maxLen)
  {
    GeneratePeptidesCallErrors(ResultName(s.enzyme, s.mc), fasta, cruxPath, minMass, maxMass, minLen, maxLen,
                               IntToString(s.mc), "full-digest", "T", "none", s.enzyme);
  }

  /**
   * `get_crux_cmds`: the strata of the (protease, max MC) pairs, then one crux call and one
   * file line per stratum; the first call the builder refuses ends the run with its error.
   */
  method GetCruxCmds(proteases: seq<String>, maxMcs: seq<int>, fasta: String, cruxPath: String,
                     minMass: String, maxMass: String, minLen: String, maxLen: String)
    returns (r: Result<CruxCmds, CommandError>)
    ensures var strata := Analysis.Expansion(proteases, maxMcs);
      (r.Ok? <==> forall i :: 0 <= i < |strata| ==> StratumCall(strata[i], fasta, cruxPath, minMass, maxMass, minLen, maxLen).Ok?) &&
      (r.Err? ==> exists i :: 0 <= i < |strata| && StratumCall(strata[i], fasta, cruxPath, minMass, maxMass, minLen, maxLen) == Err(r.error) &&
                    forall j :: 0 <= j < i ==> StratumCall(strata[j], fasta, cruxPath, minMass, maxMass, minLen, maxLen).Ok?)
    ensures var strata := Analysis.Expansion(proteases, maxMcs);
      r.Ok? ==>
        |r.value.commands| == |strata| && |r.value.proteases| == |strata| &&
        |r.value.mcs| == |strata| && |r.value.files| == |strata| &&
        forall i :: 0 <= i < |strata| ==>
          Ok(r.value.commands[i]) == StratumCall(strata[i], fasta, cruxPath, minMass, maxMass, minLen, maxLen) &&
          r.value.proteases[i] == strata[i].enzyme && r.value.mcs[i] == strata[i].mc &&
          r.value.files[i] == FileLine(strata[i].enzyme, strata[i].mc)
  {
    var strata := Analysis.ExpandPairs(proteases, maxMcs);
    var cmds := CruxCmds([], [], [], []);
    var i := 0;
    while i < |strata|
      invariant 0 <= i <= |strata|
      invariant Built(strata, cmds, i, fasta, cruxPath, minMass, maxMass, minLen, maxLen)
    {
      var s := strata[i];
      var cmd := StratumCmd(s, fasta, cruxPath, minMass, maxMass, minLen, maxLen);
      if cmd.Err? {
        return Err(cmd.error);
      }
      var next := CruxCmds(cmds.commands + [cmd.value.0], cmds.proteases + [s.enzyme],
                           cmds.mcs + [s.mc], cmds.files + [cmd.value.1]);
      BuiltSnoc(strata, cmds, i, fasta, cruxPath, minMass, maxMass, minLen, maxLen, cmd.value, next);
      cmds := next;
      i := i + 1;
    }
    r := Ok(cmds);
  }

  /** The commands, names, MC counts and file lines of the first `n` strata. */
  ghost predicate Built(strata: seq<Analysis.Stratum>, c: CruxCmds, n: nat, fasta: String, cruxPath: String,
                        minMass: String, maxMass: String, minLen: String, maxLen: String)
    requires n <= |strata|
  {
    |c.commands| == n && |c.proteases| == n && |c.mcs| == n && |c.files| == n &&
    forall j :: 0 <= j < n ==>
      Ok(c.commands[j]) == StratumCall(strata[j], fasta, cruxPath, minMass, maxMass, minLen, maxLen) &&
      c.proteases[j] == strata[j].enzyme && c.mcs[j] == strata[j].mc &&
      c.files[j] == FileLine(strata[j].enzyme, strata[j].mc)
  }

  lemma BuiltSnoc(strata: seq<Analysis.Stratum>, c: CruxCmds, n: nat, fasta: String, cruxPath: String,
                  minMass: String, maxMass: String, minLen: String, maxLen: String, cmd: (String, String), next: CruxCmds)
    requires n < |strata| && Built(strata, c, n, fasta, cruxPath, minMass, maxMass, minLen, maxLen)
    requires StratumCall(strata[n], fasta, cruxPath, minMass, maxMass, minLen, maxLen) == Ok(cmd.0)
    requires cmd.1 == FileLine(strata[n].enzyme, strata[n].mc)
    requires next == CruxCmds(c.commands + [cmd.0], c.proteases + [strata[n].enzyme], c.mcs + [strata[n].mc], c.files + [cmd.1])
    ensures Built(strata, next, n + 1, fasta, cruxPath, minMass, maxMass, minLen, maxLen)
  {
    forall j | 0 <= j < n
      ensures next.commands[j] == c.commands[j] && next.proteases[j] == c.proteases[j] &&
              next.mcs[j] == c.mcs[j] && next.files[j] == c.files[j]
    {
    }
  }

  /** The body of the loop of `get_crux_cmds` for one stratum: its crux call and its file line. */
  method StratumCmd(s: Analysis.Stratum, fasta: String, cruxPath: String,
                    minMass: String, maxMass: String, minLen: String, maxLen: String)
    returns (r: Result<(String, String), CommandError>)
    ensures r.Err? ==> StratumCall(s, fasta, cruxPath, minMass, maxMass, minLen, maxLen) == Err(r.error)
    ensures r.Ok? ==> StratumCall(s, fasta, cruxPath, minMass, maxMass, minLen, maxLen) == Ok(r.value.0) &&
                      r.value.1 == FileLine(s.enzyme, s.mc)
  {
    var clean := CleanProteaseNames([s.enzyme], FileNameSpecials);
    CleanSingle(s.enzyme, FileNameSpecials);
    var resultName := clean[0] + "_" + IntToString(s.mc) + "_MCs";
    assert resultName == ResultName(s.enzyme, s.mc);
    var call := GeneratePeptidesCall(resultName, fasta, cruxPath, minMass, maxMass, minLen, maxLen,
                                     IntToString(s.mc), "full-digest", "T", "none", s.enzyme);
    assert call == StratumCall(s, fasta, cruxPath, minMass, maxMass, minLen, maxLen);
    if call.Err? {
      return Err(call.error);
    }
    var line := resultName + ".generate-peptides.target.txt" + "\t" + s.enzyme + "\t" + IntToString(s.mc);
    assert line == FileLine(s.enzyme, s.mc);
    r := Ok((call.value, line));
  }

  /** The command list has Σ (m + 1) entries, one per stratum (p, c) with 0 <= c <= m. */
  lemma CruxCmdsStrata(proteases: seq<String>, maxMcs: seq<int>, p: String, c: int)
    ensures |Analysis.Expansion(proteases, maxMcs)| == Analysis.TotalRows(proteases, maxMcs)
    ensures Analysis.Stratum(p, c) in Analysis.Expansion(proteases, maxMcs) <==>
      exists i :: 0 <= i < |proteases| && i < |maxMcs| && proteases[i] == p && 0 <= c <= maxMcs[i]
  {
    Analysis.ExpansionCount(proteases, maxMcs);
    Analysis.ExpansionMembers(proteases, maxMcs, p, c);
  }

  /** A file line splits on tabs back into the crux output file, the protease and the MC count. */
  lemma FileLineFields(p: String, mc: nat)
    requires '\t' !in p
    ensures Split(FileLine(p, mc), '\t') == [ResultName(p, mc) + ".generate-peptides.target.txt", p, IntToString(mc)]
    ensures ParseInt(IntToString(mc)) == Some(mc)
  {
    var clean := Sanitise(p, FileNameSpecials);
    var m := IntToString(mc);
    var f := ResultName(p, mc) + ".generate-peptides.target.txt";
    assert '\t' !in clean by {
      forall k | 0 <= k < |clean| ensures clean[k] != '\t' {
        assert clean[k] == SafeChar(p[k], FileNameSpecials);
      }
    }
    assert '\t' !in m by {
      assert m == NatToString(mc);
      assert forall q :: 0 <= q < |m| ==> IsDigit(m[q]);
    }
    assert f == clean + "_" + m + "_MCs" + ".generate-peptides.target.txt";
    assert '\t' !in f;
    assert FileLine(p, mc) == f + ['\t'] + (p + ['\t'] + m);
    SplitFirstPiece(f, p + ['\t'] + m, '\t');
    SplitFirstPiece(p, m, '\t');
    SplitNoSeparator(m, '\t');
    ParseIntNatToString(mc);
  }

  // ================================================================ generate_index

  /** The alphabet keywords of `generate_index`; any other text is the alphabet itself. */
  function ResolveAlphabet(alpha: String, il: bool): String
  {
    if alpha == "20-aa" then (if il then "ACDEFGHKLMNPQRSTVWY" else "ACDEFGHIKLMNPQRSTVWY")
    else if alpha == "22-aa" then (if il then "ACDEFGHKLMNPQRSTVWYOU" else "ACDEFGHIKLMNPQRSTVWYOU")
    else if alpha == "extended" then (if il then "ACDEFGHKLMNPQRSTVWYBXZJUO" else "ACDEFGHIKLMNPQRSTVWYBXZJUO")
    else alpha
  }

  /** The keyword alphabets leave out I exactly when I and L are treated as one; L is always in. */
  lemma ResolveAlphabetKeywords(alpha: String, il: bool)
    requires alpha == "20-aa" || alpha == "22-aa" || alpha == "extended"
    ensures 'I' in ResolveAlphabet(alpha, il) <==> !il
    ensures 'L' in ResolveAlphabet(alpha, il)
  {
    var r := ResolveAlphabet(alpha, il);
    if il {
      assert r[8] == 'L';
    } else {
      assert r[7] == 'I' && r[9] == 'L';
    }
  }

  /** Every character of `w` occurs in `alpha`. */
  predicate Over(w: String, alpha: String)
  {
    forall i :: 0 <= i < |w| ==> w[i] in alpha
  }

  /** `[a] + w` for every `w`, in order. */
  function Prepend(a: char, ws: seq<String>): (r: seq<String>)
    ensures |r| == |ws| && forall i :: 0 <= i < |ws| ==> r[i] == [a] + ws[i]
  {
    seq(|ws|, i requires 0 <= i < |ws| => [a] + ws[i])
  }

  /** For each letter of `alpha` in turn, that letter in front of every `w`. */
  function Prefixed(alpha: String, ws: seq<String>): seq<String>
  {
    if alpha == [] then [] else Prepend(alpha[0], ws) + Prefixed(alpha[1..], ws)
  }

  /** `itertools.product(alpha, repeat=k)`, each tuple joined into a string. */
  function Words(alpha: String, k: nat): seq<String>
  {
    if k == 0 then [""] else Prefixed(alpha, Words(alpha, k - 1))
  }

  lemma {:induction false} PrefixedMembers(alpha: String, ws: seq<String>, x: String)
    ensures x in Prefixed(alpha, ws) <==> |x| >= 1 && x[0] in alpha && x[1..] in ws
  {
    if alpha != [] {
      PrefixedMembers(alpha[1..], ws, x);
      if x in Prepend(alpha[0], ws) {
        var i :| 0 <= i < |ws| && Prepend(alpha[0], ws)[i] == x;
        assert x[1..] == ws[i];
      }
      if |x| >= 1 && x[0] == alpha[0] && x[1..] in ws {
        var i :| 0 <= i < |ws| && ws[i] == x[1..];
        assert Prepend(alpha[0], ws)[i] == x;
      }
      assert |x| >= 1 ==> (x[0] in alpha <==> x[0] == alpha[0] || x[0] in alpha[1..]) by {
        if x != [] && x[0] in alpha {
          var i :| 0 <= i < |alpha| && alpha[i] == x[0];
          if i > 0 {
            assert alpha[1..][i - 1] == x[0];
          }
        }
      }
    }
  }

  /** The index keys are exactly the strings of length k over the alphabet. */
  lemma {:induction false} WordsMembers(alpha: String, k: nat, w: String)
    ensures w in Words(alpha, k) <==> |w| == k && Over(w, alpha)
  {
    if k == 0 {
      assert w in [""] <==> w == "";
    } else {
      PrefixedMembers(alpha, Words(alpha, k - 1), w);
      if |w| >= 1 {
        WordsMembers(alpha, k - 1, w[1..]);
        assert Over(w, alpha) <==> w[0] in alpha && Over(w[1..], alpha) by {
          if w[0] in alpha && Over(w[1..], alpha) {
            forall i | 0 <= i < |w| ensures w[i] in alpha {
              if i > 0 {
                assert w[i] == w[1..][i - 1];
              }
            }
          }
        }
      }
    }
  }

  /** The sequence `generate_index` indexes: I folded onto L when the two are treated as one. */
  function Fold(s: String, il: bool): String
  {
    if il then SwapChar(s, 'I', 'L') else s
  }

  /** The folded sequences of the records, in FASTA order. */
  function FoldedSeqs(records: seq<FastaRecord>, il: bool): (r: seq<String>)
    ensures |r| == |records|
  {
    if records == [] then []
    else FoldedSeqs(records[..|records| - 1], il) + [Fold(records[|records| - 1].sequence, il)]
  }

  lemma {:induction false} FoldedSeqsAt(records: seq<FastaRecord>, il: bool, n: nat)
    requires n < |records|
    ensures FoldedSeqs(records, il)[n] == Fold(records[n].sequence, il)
  {
    if n < |records| - 1 {
      FoldedSeqsAt(records[..|records| - 1], il, n);
    }
  }

  /** The window of length k at 0-based offset i exists and equals w. */
  predicate WindowAt(s: String, k: nat, i: nat, w: String)
  {
    i + k <= |s| && s[i..i + k] == w
  }

  /** The (record, 1-based position) pairs of w in s at offsets below m, in order. */
  function PosOcc(n: nat, s: String, k: nat, w: String, m: nat): seq<(nat, nat)>
  {
    if m == 0 then []
    else PosOcc(n, s, k, w, m - 1) + (if WindowAt(s, k, m - 1, w) then [(n, m)] else [])
  }

  /** Every occurrence of w in record n, as (n, 1-based position) pairs. */
  function RecordOcc(n: nat, s: String, k: nat, w: String): seq<(nat, nat)>
  {
    PosOcc(n, s, k, w, |s| + 1)
  }

  /** Every occurrence of w in the sequences, by record and then by position. */
  function Occ(ss: seq<String>, k: nat, w: String): seq<(nat, nat)>
  {
    if ss == [] then [] else Occ(ss[..|ss| - 1], k, w) + RecordOcc(|ss| - 1, ss[|ss| - 1], k, w)
  }

  lemma {:induction false} PosOccMembers(n: nat, s: String, k: nat, w: String, m: nat, x: (nat, nat))
    ensures x in PosOcc(n, s, k, w, m) <==> x.0 == n && 1 <= x.1 <= m && WindowAt(s, k, x.1 - 1, w)
  {
    if m > 0 {
      PosOccMembers(n, s, k, w, m - 1, x);
      var prev := PosOcc(n, s, k, w, m - 1);
      var here: seq<(nat, nat)> := if WindowAt(s, k, m - 1, w) then [(n, m)] else [];
      assert PosOcc(n, s, k, w, m) == prev + here;
      assert x in prev + here <==> x in prev || x in here;
      assert x in here <==> x == (n, m) && WindowAt(s, k, m - 1, w);
    }
  }

  lemma {:induction false} OccMembers(ss: seq<String>, k: nat, w: String, x: (nat, nat))
    ensures x in Occ(ss, k, w) <==> x.0 < |ss| && 1 <= x.1 && WindowAt(ss[x.0], k, x.1 - 1, w)
  {
    if ss != [] {
      var n := |ss| - 1;
      OccMembers(ss[..n], k, w, x);
      PosOccMembers(n, ss[n], k, w, |ss[n]| + 1, x);
      if x.0 < n {
        assert ss[..n][x.0] == ss[x.0];
      }
    }
  }

  /** The occurrences are listed by record, then by position, each once. */
  predicate Ascending(o: seq<(nat, nat)>)
  {
    forall i, j :: 0 <= i < j < |o| ==> o[i].0 < o[j].0 || (o[i].0 == o[j].0 && o[i].1 < o[j].1)
  }

  lemma {:induction false} PosOccAscending(n: nat, s: String, k: nat, w: String, m: nat)
    ensures Ascending(PosOcc(n, s, k, w, m))
    ensures forall j :: 0 <= j < |PosOcc(n, s, k, w, m)| ==> PosOcc(n, s, k, w, m)[j].0 == n && 1 <= PosOcc(n, s, k, w, m)[j].1 <= m
  {
    if m > 0 {
      PosOccAscending(n, s, k, w, m - 1);
    }
  }

  lemma {:induction false} OccAscending(ss: seq<String>, k: nat, w: String)
    ensures Ascending(Occ(ss, k, w))
    ensures forall j :: 0 <= j < |Occ(ss, k, w)| ==> Occ(ss, k, w)[j].0 < |ss|
  {
    if ss != [] {
      var n := |ss| - 1;
      OccAscending(ss[..n], k, w);
      PosOccAscending(n, ss[n], k, w, |ss[n]| + 1);
    }
  }

  /** An index entry: the record's six-digit hexadecimal key, ", ", the 1-based position. */
  function Entry(n: nat, p: nat): String
  {
    Hex6(n) + ", " + NatToString(p)
  }

  /** The entry texts of the pairs, in order. */
  function Entries(o: seq<(nat, nat)>): (r: seq<String>)
    ensures |r| == |o|
  {
    if o == [] then [] else Entries(o[..|o| - 1]) + [Entry(o[|o| - 1].0, o[|o| - 1].1)]
  }

  lemma {:induction false} EntriesAt(o: seq<(nat, nat)>, j: nat)
    requires j < |o|
    ensures Entries(o)[j] == Entry(o[j].0, o[j].1)
  {
    if j < |o| - 1 {
      EntriesAt(o[..|o| - 1], j);
    }
  }

  /** `id_dict` and `id_seq_dict` of the records before `n`: hex key to id, hex key to folded sequence. */
  function IdMap(records: seq<FastaRecord>): map<String, String>
  {
    if records == [] then map[]
    else IdMap(records[..|records| - 1])[Hex6(|records| - 1) := records[|records| - 1].id]
  }

  function SeqMap(records: seq<FastaRecord>, il: bool): map<String, String>
  {
    if records == [] then map[]
    else SeqMap(records[..|records| - 1], il)[Hex6(|records| - 1) := Fold(records[|records| - 1].sequence, il)]
  }

  /** Distinct records have distinct hex keys, so a later record never overwrites an earlier one. */
  lemma {:induction false} IdMapAt(records: seq<FastaRecord>, n: nat)
    requires n < |records|
    ensures Hex6(n) in IdMap(records) && IdMap(records)[Hex6(n)] == records[n].id
  {
    var last := |records| - 1;
    if n < last {
      IdMapAt(records[..last], n);
      if Hex6(n) == Hex6(last) {
        Hex6Injective(n, last);
      }
    }
  }

  lemma {:induction false} SeqMapAt(records: seq<FastaRecord>, il: bool, n: nat)
    requires n < |records|
    ensures Hex6(n) in SeqMap(records, il) && SeqMap(records, il)[Hex6(n)] == Fold(records[n].sequence, il)
  {
    var last := |records| - 1;
    if n < last {
      SeqMapAt(records[..last], il, n);
      if Hex6(n) == Hex6(last) {
        Hex6Injective(n, last);
      }
    }
  }

  /** The window of length k at 0-based offset i. */
  function Window(s: String, k: nat, i: nat): String
    requires i + k <= |s|
  {
    s[i..i + k]
  }

  /** Every window of `s` at an offset below m is a string over the alphabet. */
  predicate WindowsOver(s: String, k: nat, alpha: String, m: nat)
  {
    m == 0 || (WindowsOver(s, k, alpha, m - 1) && (m - 1 + k <= |s| ==> Over(Window(s, k, m - 1), alpha)))
  }

  lemma {:induction false} WindowsOverMeaning(s: String, k: nat, alpha: String, m: nat)
    ensures WindowsOver(s, k, alpha, m) <==> forall i :: 0 <= i < m && i + k <= |s| ==> Over(Window(s, k, i), alpha)
  {
    if m > 0 {
      WindowsOverMeaning(s, k, alpha, m - 1);
    }
  }

  /** Offsets from the last window on ask nothing more. */
  lemma {:induction false} WindowsOverStable(s: String, k: nat, alpha: String, m: nat)
    requires m >= Windows(s, k)
    ensures WindowsOver(s, k, alpha, m) == WindowsOver(s, k, alpha, Windows(s, k))
  {
    if m > Windows(s, k) {
      WindowsOverStable(s, k, alpha, m - 1);
    }
  }

  /** Some window of some record reaches a character outside the alphabet. */
  ghost predicate BadWindow(ss: seq<String>, k: nat, alpha: String)
  {
    exists n :: 0 <= n < |ss| && !WindowsOver(ss[n], k, alpha, |ss[n]| + 1)
  }

  /** The index state `generate_index` builds and pickles; `map_peptides` reads it back. */
  datatype FastaIndex = FastaIndex(splits: map<String, seq<String>>, splitLen: nat,
                                   ids: map<String, String>, seqs: map<String, String>,
                                   alphabet: String, il: bool)

  /** `ix` is the index of the records: every key lists exactly its occurrences, in order. */
  ghost predicate IsIndexOf(ix: FastaIndex, records: seq<FastaRecord>, k: nat, alpha: String, il: bool)
  {
    ix.splitLen == k && ix.il == il && ix.alphabet == alpha &&
    ix.ids == IdMap(records) && ix.seqs == SeqMap(records, il) &&
    (forall w :: w in ix.splits <==> w in Words(ix.alphabet, k)) &&
    (forall w :: w in ix.splits ==> ix.splits[w] == Entries(Occ(FoldedSeqs(records, il), k, w)))
  }

  datatype LookupError = KeyError | MissingField | ValueError

  /** How many windows of length k `s` has: `range(len(s) - k + 1)`. */
  function Windows(s: String, k: nat): nat
  {
    if k <= |s| then |s| - k + 1 else 0
  }

  /** Offsets from the last window on add nothing. */
  lemma {:induction false} PosOccStable(n: nat, s: String, k: nat, w: String, m: nat)
    requires m >= Windows(s, k)
    ensures PosOcc(n, s, k, w, m) == PosOcc(n, s, k, w, Windows(s, k))
  {
    if m > Windows(s, k) {
      PosOccStable(n, s, k, w, m - 1);
    }
  }

  lemma {:induction false} EntriesAppend(a: seq<(nat, nat)>, b: seq<(nat, nat)>)
    ensures Entries(a + b) == Entries(a) + Entries(b)
  {
    if b == [] {
      assert a + b == a;
    } else {
      var n := |b| - 1;
      var init, last := b[..n], b[n];
      EntriesAppend(a, init);
      SplitLast(b);
      AppendAssoc(a, init, [last]);
      EntriesSnoc(a + b, a + init, last);
      EntriesSnoc(b, init, last);
      AppendAssoc(Entries(a), Entries(init), [Entry(last.0, last.1)]);
    }
  }

  lemma EntriesSnoc(o: seq<(nat, nat)>, init: seq<(nat, nat)>, last: (nat, nat))
    requires o == init + [last]
    ensures Entries(o) == Entries(init) + [Entry(last.0, last.1)]
  {
    assert o[..|o| - 1] == init;
  }

  /** One more window of record n: entry (n, i + 1) under its own key and nothing under the others. */
  lemma WindowStep(ss: seq<String>, n: nat, s: String, k: nat, w: String, i: nat)
    requires i + k <= |s|
    ensures Entries(Occ(ss, k, w) + PosOcc(n, s, k, w, i + 1)) ==
      Entries(Occ(ss, k, w) + PosOcc(n, s, k, w, i)) + (if w == s[i..i + k] then [Entry(n, i + 1)] else [])
  {
    var before := Occ(ss, k, w) + PosOcc(n, s, k, w, i);
    if w == s[i..i + k] {
      assert Occ(ss, k, w) + PosOcc(n, s, k, w, i + 1) == before + [(n, i + 1)];
      EntriesAppend(before, [(n, i + 1)]);
    } else {
      assert Occ(ss, k, w) + PosOcc(n, s, k, w, i + 1) == before;
    }
  }

  /** After the last window, record n has added all its occurrences. */
  lemma RecordStep(ss: seq<String>, n: nat, k: nat, w: String)
    requires n < |ss|
    ensures Occ(ss[..n], k, w) + PosOcc(n, ss[n], k, w, Windows(ss[n], k)) == Occ(ss[..n + 1], k, w)
  {
    PosOccStable(n, ss[n], k, w, |ss[n]| + 1);
    assert ss[..n + 1][..n] == ss[..n];
  }

  /** Appending the entry of the window at offset i keeps every key's list equal to its occurrences so far. */
  lemma IndexStep(acc: map<String, seq<String>>, ss: seq<String>, n: nat, s: String, k: nat, i: nat)
    requires i + k <= |s| && s[i..i + k] in acc
    requires forall w :: w in acc ==> acc[w] == Entries(Occ(ss, k, w) + PosOcc(n, s, k, w, i))
    ensures var next := acc[s[i..i + k] := acc[s[i..i + k]] + [Entry(n, i + 1)]];
      forall w :: w in next ==> next[w] == Entries(Occ(ss, k, w) + PosOcc(n, s, k, w, i + 1))
  {
    forall w | w in acc
      ensures Entries(Occ(ss, k, w) + PosOcc(n, s, k, w, i + 1)) ==
        (if w == s[i..i + k] then acc[w] + [Entry(n, i + 1)] else acc[w])
    {
      WindowStep(ss, n, s, k, w, i);
    }
  }

  /**
   * The window loop of `generate_index` for record n: entry "<hex n>, i + 1" appended under the
   * window at each offset i, or `None` at the first window that is no key.
   */
  method IndexWindows(splits: map<String, seq<String>>, n: nat, s: String, k: nat,
                      ghost alpha: String, ghost ss: seq<String>)
    returns (r: Option<map<String, seq<String>>>)
    requires forall w :: w in splits <==> w in Words(alpha, k)
    requires forall w :: w in splits ==> splits[w] == Entries(Occ(ss, k, w))
    ensures r.None? <==> !WindowsOver(s, k, alpha, |s| + 1)
    ensures r.Some? ==> forall w :: w in r.value <==> w in Words(alpha, k)
    ensures r.Some? ==> forall w :: w in r.value ==> r.value[w] == Entries(Occ(ss, k, w) + PosOcc(n, s, k, w, Windows(s, k)))
  {
    var acc := splits;
    var ii := 0;
    forall w | w in acc ensures acc[w] == Entries(Occ(ss, k, w) + PosOcc(n, s, k, w, 0)) {
      assert Occ(ss, k, w) + [] == Occ(ss, k, w);
    }
    while ii + k <= |s|
      invariant 0 <= ii <= Windows(s, k)
      invariant forall w :: w in acc <==> w in Words(alpha, k)
      invariant forall w :: w in acc ==> acc[w] == Entries(Occ(ss, k, w) + PosOcc(n, s, k, w, ii))
      invariant WindowsOver(s, k, alpha, ii)
    {
      var split := s[ii..ii + k];
      WordsMembers(alpha, k, split);
      assert Window(s, k, ii) == split;
      if split !in acc {
        WindowsOverMeaning(s, k, alpha, |s| + 1);
        return None;
      }
      IndexStep(acc, ss, n, s, k, ii);
      acc := acc[split := acc[split] + [Entry(n, ii + 1)]];
      ii := ii + 1;
    }
    assert ii == Windows(s, k);
    WindowsOverStable(s, k, alpha, |s| + 1);
    r := Some(acc);
  }

  /** Once record n's windows are in, the index holds the occurrences in records 0..n. */
  lemma RecordsStep(splits: map<String, seq<String>>, prev: seq<String>, s: String, k: nat, alpha: String)
    requires forall w :: w in splits ==> splits[w] == Entries(Occ(prev, k, w) + PosOcc(|prev|, s, k, w, Windows(s, k)))
    requires !BadWindow(prev, k, alpha) && WindowsOver(s, k, alpha, |s| + 1)
    ensures forall w :: w in splits ==> splits[w] == Entries(Occ(prev + [s], k, w))
    ensures !BadWindow(prev + [s], k, alpha)
  {
    var ss := prev + [s];
    var n := |prev|;
    assert ss[..n] == prev;
    forall w | w in splits
      ensures splits[w] == Entries(Occ(ss, k, w))
    {
      RecordStep(ss, n, k, w);
      assert ss[..n + 1] == ss;
    }
    forall m | 0 <= m < n + 1 ensures WindowsOver(ss[m], k, alpha, |ss[m]| + 1) {
      if m < n {
        assert ss[m] == prev[m];
      }
    }
  }

  /** The first loop of `generate_index`: an empty list under every key. */
  method EmptyLists(words: seq<String>) returns (splits: map<String, seq<String>>)
    ensures forall w :: w in splits <==> w in words
    ensures forall w :: w in splits ==> splits[w] == []
  {
    splits := map[];
    var t := 0;
    while t < |words|
      invariant 0 <= t <= |words|
      invariant forall w :: w in splits <==> w in words[..t]
      invariant forall w :: w in splits ==> splits[w] == []
    {
      assert words[..t + 1] == words[..t] + [words[t]];
      splits := splits[words[t] := []];
      t := t + 1;
    }
    assert words[..t] == words;
  }

  /** A record whose windows leave the alphabet makes the whole FASTA file unindexable. */
  lemma GenerateIndexFails(records: seq<FastaRecord>, il: bool, n: nat, k: nat, alpha: String)
    requires n < |records|
    requires !WindowsOver(Fold(records[n].sequence, il), k, alpha, |records[n].sequence| + 1)
    ensures BadWindow(FoldedSeqs(records, il), k, alpha)
  {
    FoldedSeqsAt(records, il, n);
  }

  /**
   * `generate_index`: the alphabet keyword, an empty list per key, then for each record in order
   * its I-to-L folding, its hex key in both dictionaries and one entry per window under that
   * window. A window with a letter outside the alphabet is no key: the KeyError of `split_dict[split]`.
   */
  method GenerateIndex(records: seq<FastaRecord>, splitLen: nat, aaAlphabet: String, il: bool)
    returns (r: Result<FastaIndex, LookupError>)
    ensures r.Err? <==> BadWindow(FoldedSeqs(records, il), splitLen, ResolveAlphabet(aaAlphabet, il))
    ensures r.Err? ==> r.error == KeyError
    ensures r.Ok? ==> IsIndexOf(r.value, records, splitLen, ResolveAlphabet(aaAlphabet, il), il)
  {
    r := BuildIndex(records, splitLen, ResolveAlphabet(aaAlphabet, il), il);
  }

  /** The body of `generate_index` once the alphabet keyword is resolved. */
  method BuildIndex(records: seq<FastaRecord>, splitLen: nat, alpha: String, il: bool)
    returns (r: Result<FastaIndex, LookupError>)
    ensures r.Err? <==> BadWindow(FoldedSeqs(records, il), splitLen, alpha)
    ensures r.Err? ==> r.error == KeyError
    ensures r.Ok? ==> IsIndexOf(r.value, records, splitLen, alpha, il)
  {
    var words := Words(alpha, splitLen);
    var splits := EmptyLists(words);
    var ids: map<String, String> := map[];
    var seqs: map<String, String> := map[];
    assert records[..0] == [];
    var n := 0;
    while n < |records|
      invariant 0 <= n <= |records|
      invariant IndexedUpTo(splits, ids, seqs, records, n, splitLen, alpha, il)
    {
      var next := IndexRecord(records, n, splits, ids, seqs, splitLen, alpha, il);
      if next.None? {
        return Err(KeyError);
      }
      splits, ids, seqs := next.value.0, next.value.1, next.value.2;
      n := n + 1;
    }
    assert records[..n] == records;
    r := Ok(FastaIndex(splits, splitLen, ids, seqs, alpha, il));
  }

  /** The index of the first n records as the loop of `generate_index` holds it. */
  ghost predicate IndexedUpTo(splits: map<String, seq<String>>, ids: map<String, String>, seqs: map<String, String>,
                              records: seq<FastaRecord>, n: nat, k: nat, alpha: String, il: bool)
    requires n <= |records|
  {
    (forall w :: w in splits <==> w in Words(alpha, k)) &&
    (forall w :: w in splits ==> splits[w] == Entries(Occ(FoldedSeqs(records[..n], il), k, w))) &&
    ids == IdMap(records[..n]) && seqs == SeqMap(records[..n], il) &&
    !BadWindow(FoldedSeqs(records[..n], il), k, alpha)
  }

  /** One record: folded, entered in both dictionaries under its hex key, and its windows indexed. */
  method IndexRecord(records: seq<FastaRecord>, n: nat, splits: map<String, seq<String>>,
                     ids: map<String, String>, seqs: map<String, String>, k: nat, alpha: String, il: bool)
    returns (r: Option<(map<String, seq<String>>, map<String, String>, map<String, String>)>)
    requires n < |records| && IndexedUpTo(splits, ids, seqs, records, n, k, alpha, il)
    ensures r.None? ==> BadWindow(FoldedSeqs(records, il), k, alpha)
    ensures r.Some? ==> IndexedUpTo(r.value.0, r.value.1, r.value.2, records, n + 1, k, alpha, il)
  {
    var s := records[n].sequence;
    if il {
      ReplaceOneChar(s, 'I', 'L');
      s := Replace(s, "I", "L");
    }
    ghost var prev := FoldedSeqs(records[..n], il);
    assert records[..n + 1][..n] == records[..n];
    assert FoldedSeqs(records[..n + 1], il) == prev + [s];
    var ids' := ids[Hex6(n) := records[n].id];
    var seqs' := seqs[Hex6(n) := s];
    var added := IndexWindows(splits, n, s, k, alpha, prev);
    if added.None? {
      GenerateIndexFails(records, il, n, k, alpha);
      return None;
    }
    RecordsStep(added.value, prev, s, k, alpha);
    assert s == Fold(records[n].sequence, il);
    MapsStep(records, n, ids, seqs, il);
    IndexedNext(records, n, added.value, ids', seqs', k, alpha, il, prev, s);
    r := Some((added.value, ids', seqs'));
  }

  lemma IndexedNext(records: seq<FastaRecord>, n: nat, splits: map<String, seq<String>>,
                    ids: map<String, String>, seqs: map<String, String>, k: nat, alpha: String, il: bool,
                    prev: seq<String>, s: String)
    requires n < |records| && FoldedSeqs(records[..n + 1], il) == prev + [s]
    requires forall w :: w in splits <==> w in Words(alpha, k)
    requires forall w :: w in splits ==> splits[w] == Entries(Occ(prev + [s], k, w))
    requires !BadWindow(prev + [s], k, alpha)
    requires ids == IdMap(records[..n + 1]) && seqs == SeqMap(records[..n + 1], il)
    ensures IndexedUpTo(splits, ids, seqs, records, n + 1, k, alpha, il)
  {
  }

  /** The two dictionaries of one more record. */
  lemma MapsStep(records: seq<FastaRecord>, n: nat, ids: map<String, String>, seqs: map<String, String>, il: bool)
    requires n < |records| && ids == IdMap(records[..n]) && seqs == SeqMap(records[..n], il)
    ensures ids[Hex6(n) := records[n].id] == IdMap(records[..n + 1])
    ensures seqs[Hex6(n) := Fold(records[n].sequence, il)] == SeqMap(records[..n + 1], il)
  {
    assert records[..n + 1][..n] == records[..n];
    assert records[..n + 1][n] == records[n];
  }

  // ================================================================ map_peptides

  /** The first offset at or after i where `sep` starts in `s`. */
  function FindFrom(s: String, sep: String, i: nat): (r: Option<nat>)
    requires |sep| > 0
    ensures r.Some? ==> i <= r.value && r.value + |sep| <= |s| && s[r.value..r.value + |sep|] == sep
    decreases |s| - i
  {
    if i + |sep| > |s| then None
    else if s[i..i + |sep|] == sep then Some(i)
    else FindFrom(s, sep, i + 1)
  }

  /** `e.split(', ')[0]` and `e.split(', ')[1]`; `None` when there is no second piece. */
  function EntryParts(e: String): Option<(String, String)>
  {
    match FindFrom(e, ", ", 0)
    case None => None
    case Some(j) =>
      var rest := e[j + 2..];
      match FindFrom(rest, ", ", 0)
      case None => Some((e[..j], rest))
      case Some(j2) => Some((e[..j], rest[..j2]))
  }

  lemma {:induction false} FindFromNoComma(s: String, i: nat)
    requires ',' !in s
    ensures FindFrom(s, ", ", i) == None
    decreases |s| - i
  {
    if i + 2 <= |s| {
      assert s[i..i + 2][0] == s[i];
      FindFromNoComma(s, i + 1);
    }
  }

  lemma {:induction false} FindFromSeparator(h: String, t: String, i: nat)
    requires ',' !in h && i <= |h|
    ensures FindFrom(h + ", " + t, ", ", i) == Some(|h|)
    decreases |h| - i
  {
    var e := h + ", " + t;
    if i < |h| {
      assert e[i..i + 2][0] == h[i];
      FindFromSeparator(h, t, i + 1);
    } else {
      assert e[i..i + 2] == ", ";
    }
  }

  /** An index entry reads back as the record's hex key and its position. */
  lemma EntryRoundTrip(n: nat, p: nat)
    ensures EntryParts(Entry(n, p)) == Some((Hex6(n), NatToString(p)))
    ensures ParseInt(NatToString(p)) == Some(p)
  {
    var h := Hex6(n);
    var d := NatToString(p);
    FindFromSeparator(h, d, 0);
    assert Entry(n, p)[|h| + 2..] == d;
    assert Entry(n, p)[..|h|] == h;
    assert ',' !in d by {
      assert forall q :: 0 <= q < |d| ==> IsDigit(d[q]);
    }
    FindFromNoComma(d, 0);
    ParseIntNatToString(p);
  }

  /** A slice bound as Python normalises it: a negative one counts from the end, then clamped to [0, len]. */
  function SliceBound(i: int, len: nat): (b: nat)
    ensures b <= len
    ensures 0 <= i <= len ==> b == i
  {
    if i < 0 then (if i + len < 0 then 0 else i + len) else if i > len then len else i
  }

  /** `s[i:j]`. */
  function PySlice(s: String, i: int, j: int): (r: String)
    ensures 0 <= i <= j <= |s| ==> r == s[i..j]
  {
    var a := SliceBound(i, |s|);
    var b := SliceBound(j, |s|);
    if a < b then s[a..b] else []
  }

  /** From a non-negative start, the slice of q's length is q exactly when q occurs there. */
  lemma PySliceMatch(s: String, i: nat, q: String)
    requires i <= |s|
    ensures PySlice(s, i, i + |q|) == q <==> WindowAt(s, |q|, i, q)
  {
  }

  /** The header line `map_peptides` writes first. */
  const Header: String := "peptide\tprotein\tlocation\tprevAA\tin_fasta\tnextAA\n"

  /** One mapping line: peptide, protein id and 1-based position, then three empty columns. */
  function Line(pept: String, id: String, pos: int): String
  {
    pept + "\t" + id + "\t" + IntToString(pos) + "\t\t\t\n"
  }

  /**
   * One entry under the peptide's prefix: split on ", ", read the position, fetch the indexed
   * sequence, and report the entry when the slice of the peptide's length is the peptide.
   */
  function MapEntry(ix: FastaIndex, pept: String, e: String): Result<seq<String>, LookupError>
  {
    match EntryParts(e)
    case None => Err(MissingField)
    case Some(parts) =>
      match ParseInt(parts.1)
      case None => Err(ValueError)
      case Some(pos) =>
        if parts.0 !in ix.seqs then Err(KeyError)
        else if PySlice(ix.seqs[parts.0], pos - 1, pos - 1 + |pept|) != pept then Ok([])
        else if parts.0 !in ix.ids then Err(KeyError)
        else Ok([Line(pept, ix.ids[parts.0], pos)])
  }

  function Flatten(ls: seq<seq<String>>): seq<String>
  {
    if ls == [] then [] else Flatten(ls[..|ls| - 1]) + ls[|ls| - 1]
  }

  /** The outcome of each entry, in order. */
  function EntryResults(ix: FastaIndex, pept: String, es: seq<String>): (r: seq<Result<seq<String>, LookupError>>)
    ensures |r| == |es|
  {
    if es == [] then [] else EntryResults(ix, pept, es[..|es| - 1]) + [MapEntry(ix, pept, es[|es| - 1])]
  }

  /** The entry loop: the lines of the entries in order, or the error of the first that raises. */
  function MapEntries(ix: FastaIndex, pept: String, es: seq<String>): Result<seq<String>, LookupError>
  {
    match FirstError(EntryResults(ix, pept, es))
    case Err(e) => Err(e)
    case Ok(ls) => Ok(Flatten(ls))
  }

  /**
   * One peptide of `map_peptides`: shorter than the index length it is skipped; otherwise it is
   * folded as the index was, and its prefix key must exist (else KeyError).
   */
  function MapPeptide(ix: FastaIndex, pept: String): Result<seq<String>, LookupError>
  {
    if |pept| < ix.splitLen then Ok([])
    else
      var q := Fold(pept, ix.il);
      var key := q[..ix.splitLen];
      if key !in ix.splits then Err(KeyError) else MapEntries(ix, q, ix.splits[key])
  }

  function PeptideResults(ix: FastaIndex, peps: seq<String>): (r: seq<Result<seq<String>, LookupError>>)
    ensures |r| == |peps|
  {
    if peps == [] then [] else PeptideResults(ix, peps[..|peps| - 1]) + [MapPeptide(ix, peps[|peps| - 1])]
  }

  /** `map_peptides`: the header, then every peptide's lines in order; the first error propagates. */
  function MapPeptidesSpec(ix: FastaIndex, peps: seq<String>): Result<seq<String>, LookupError>
  {
    match FirstError(PeptideResults(ix, peps))
    case Err(e) => Err(e)
    case Ok(ls) => Ok([Header] + Flatten(ls))
  }

  lemma {:induction false} EntryResultsPrefix(ix: FastaIndex, pept: String, es: seq<String>, k: nat)
    requires k <= |es|
    ensures EntryResults(ix, pept, es)[..k] == EntryResults(ix, pept, es[..k])
  {
    if k < |es| {
      var n := |es| - 1;
      EntryResultsPrefix(ix, pept, es[..n], k);
      assert es[..n][..k] == es[..k];
      assert EntryResults(ix, pept, es)[..k] == EntryResults(ix, pept, es[..n])[..k];
    } else {
      assert es[..k] == es;
    }
  }

  lemma {:induction false} PeptideResultsPrefix(ix: FastaIndex, peps: seq<String>, k: nat)
    requires k <= |peps|
    ensures PeptideResults(ix, peps)[..k] == PeptideResults(ix, peps[..k])
  {
    if k < |peps| {
      var n := |peps| - 1;
      PeptideResultsPrefix(ix, peps[..n], k);
      assert peps[..n][..k] == peps[..k];
      assert PeptideResults(ix, peps)[..k] == PeptideResults(ix, peps[..n])[..k];
    } else {
      assert peps[..k] == peps;
    }
  }

  /** The entry loop of one peptide: `None` if it completed, the error otherwise. */
  method MapPeptideEntries(ix: FastaIndex, q: String, list: seq<String>) returns (lines: seq<String>, err: Option<LookupError>)
    ensures err.None? ==> MapEntries(ix, q, list) == Ok(lines)
    ensures err.Some? ==> MapEntries(ix, q, list) == Err(err.value)
  {
    lines := [];
    var j := 0;
    while j < |list|
      invariant 0 <= j <= |list|
      invariant FirstError(EntryResults(ix, q, list[..j])).Ok?
      invariant lines == Flatten(FirstError(EntryResults(ix, q, list[..j])).value)
    {
      var out := MapEntry(ix, q, list[j]);
      EntryStep(ix, q, list, j);
      if out.Err? {
        return lines, Some(out.error);
      }
      lines := lines + out.value;
      j := j + 1;
    }
    assert list[..j] == list;
    err := None;
  }

  /** One more entry of the loop: its error ends the run, its lines extend it. */
  lemma EntryStep(ix: FastaIndex, q: String, list: seq<String>, j: nat)
    requires j < |list| && FirstError(EntryResults(ix, q, list[..j])).Ok?
    ensures var out := MapEntry(ix, q, list[j]); var prev := FirstError(EntryResults(ix, q, list[..j])).value;
      (out.Err? ==> MapEntries(ix, q, list) == Err(out.error)) &&
      (out.Ok? ==> FirstError(EntryResults(ix, q, list[..j + 1])) == Ok(prev + [out.value]) &&
                   Flatten(prev + [out.value]) == Flatten(prev) + out.value)
  {
    var out := MapEntry(ix, q, list[j]);
    assert list[..j + 1][..j] == list[..j];
    assert EntryResults(ix, q, list[..j + 1]) == EntryResults(ix, q, list[..j]) + [out];
    if out.Err? {
      EntryResultsPrefix(ix, q, list, j + 1);
      FirstErrorStops(EntryResults(ix, q, list), j + 1);
    } else {
      var prev := FirstError(EntryResults(ix, q, list[..j])).value;
      assert (prev + [out.value])[..|prev|] == prev;
    }
  }

  /** One peptide: skipped when short, otherwise folded and looked up under its prefix. */
  method MapOnePeptide(ix: FastaIndex, pept: String) returns (found: seq<String>, err: Option<LookupError>)
    ensures err.None? ==> MapPeptide(ix, pept) == Ok(found)
    ensures err.Some? ==> MapPeptide(ix, pept) == Err(err.value)
  {
    found, err := [], None;
    if |pept| >= ix.splitLen {
      var q := pept;
      if ix.il {
        ReplaceOneChar(pept, 'I', 'L');
        q := Replace(pept, "I", "L");
      }
      var key := q[..ix.splitLen];
      if key !in ix.splits {
        return [], Some(KeyError);
      }
      found, err := MapPeptideEntries(ix, q, ix.splits[key]);
    }
  }

  /**
   * `map_peptides` on a loaded index: the header line, then for each peptide long enough the
   * lines of the entries under its folded prefix that the sequence confirms.
   */
  method MapPeptides(ix: FastaIndex, peps: seq<String>) returns (r: Result<seq<String>, LookupError>)
    ensures r == MapPeptidesSpec(ix, peps)
  {
    var lines := [];
    var i := 0;
    while i < |peps|
      invariant 0 <= i <= |peps|
      invariant FirstError(PeptideResults(ix, peps[..i])).Ok?
      invariant lines == Flatten(FirstError(PeptideResults(ix, peps[..i])).value)
    {
      var found, err := MapOnePeptide(ix, peps[i]);
      if err.Some? {
        PeptideFails(ix, peps, i, err.value);
        return Err(err.value);
      }
      PeptideStep(ix, peps, i, found);
      lines := lines + found;
      i := i + 1;
    }
    assert peps[..i] == peps;
    r := Ok([Header] + lines);
  }

  /** A peptide that raises ends the run with its error. */
  lemma PeptideFails(ix: FastaIndex, peps: seq<String>, i: nat, e: LookupError)
    requires i < |peps| && MapPeptide(ix, peps[i]) == Err(e)
    requires FirstError(PeptideResults(ix, peps[..i])).Ok?
    ensures MapPeptidesSpec(ix, peps) == Err(e)
  {
    assert peps[..i + 1][..i] == peps[..i];
    PeptideResultsPrefix(ix, peps, i + 1);
    FirstErrorStops(PeptideResults(ix, peps), i + 1);
  }

  /** A peptide that maps adds its lines after the ones before it. */
  lemma PeptideStep(ix: FastaIndex, peps: seq<String>, i: nat, found: seq<String>)
    requires i < |peps| && MapPeptide(ix, peps[i]) == Ok(found)
    requires FirstError(PeptideResults(ix, peps[..i])).Ok?
    ensures FirstError(PeptideResults(ix, peps[..i + 1])) == Ok(FirstError(PeptideResults(ix, peps[..i])).value + [found])
    ensures Flatten(FirstError(PeptideResults(ix, peps[..i + 1])).value) == Flatten(FirstError(PeptideResults(ix, peps[..i])).value) + found
  {
    assert peps[..i + 1][..i] == peps[..i];
    var prev := FirstError(PeptideResults(ix, peps[..i])).value;
    assert (prev + [found])[..|prev|] == prev;
  }

  // ---- What map_peptides reports on an index that generate_index built

  /** The pairs whose sequence, read with the slice test of `map_peptides`, holds q at that position. */
  function Keep(ss: seq<String>, q: String, o: seq<(nat, nat)>): seq<(nat, nat)>
  {
    if o == [] then []
    else
      var x := o[|o| - 1];
      Keep(ss, q, o[..|o| - 1]) + (if Confirms(ss, q, x) then [x] else [])
  }

  /** The slice test of `map_peptides` for one pair. */
  predicate Confirms(ss: seq<String>, q: String, x: (nat, nat))
  {
    x.0 < |ss| && PySlice(ss[x.0], x.1 - 1, x.1 - 1 + |q|) == q
  }

  lemma {:induction false} KeepBounds(ss: seq<String>, q: String, o: seq<(nat, nat)>)
    ensures forall j :: 0 <= j < |Keep(ss, q, o)| ==> Keep(ss, q, o)[j].0 < |ss|
  {
    if o != [] {
      KeepBounds(ss, q, o[..|o| - 1]);
    }
  }

  lemma {:induction false} KeepAppend(ss: seq<String>, q: String, a: seq<(nat, nat)>, b: seq<(nat, nat)>)
    ensures Keep(ss, q, a + b) == Keep(ss, q, a) + Keep(ss, q, b)
  {
    if b == [] {
      assert a + b == a;
    } else {
      var n := |b| - 1;
      KeepAppend(ss, q, a, b[..n]);
      assert (a + b)[..|a + b| - 1] == a + b[..n];
    }
  }

  lemma KeepSnoc(ss: seq<String>, q: String, a: seq<(nat, nat)>, x: (nat, nat))
    ensures Keep(ss, q, a + [x]) == Keep(ss, q, a) + (if Confirms(ss, q, x) then [x] else [])
  {
    assert (a + [x])[..|a|] == a;
  }

  /** At a real offset, the slice test is the window test. */
  lemma ConfirmsWindow(ss: seq<String>, n: nat, q: String, m: nat)
    requires n < |ss| && 1 <= m <= |ss[n]| + 1
    ensures Confirms(ss, q, (n, m)) == WindowAt(ss[n], |q|, m - 1, q)
  {
    PySliceMatch(ss[n], m - 1, q);
  }

  /** Within one record, the slice test turns the occurrences of the prefix into those of q. */
  lemma {:induction false} KeepPosOcc(ss: seq<String>, n: nat, k: nat, q: String, m: nat)
    requires n < |ss| && k <= |q|
    ensures Keep(ss, q, PosOcc(n, ss[n], k, q[..k], m)) == PosOcc(n, ss[n], |q|, q, m)
  {
    if m > 0 {
      KeepPosOcc(ss, n, k, q, m - 1);
      var s := ss[n];
      var a := PosOcc(n, s, k, q[..k], m - 1);
      if WindowAt(s, k, m - 1, q[..k]) {
        KeepSnoc(ss, q, a, (n, m));
        ConfirmsWindow(ss, n, q, m);
      } else {
        WindowPrefix(s, k, m - 1, q);
        assert a + [] == a;
      }
    }
  }

  /** A window holding q holds each prefix of q. */
  lemma WindowPrefix(s: String, k: nat, i: nat, q: String)
    requires k <= |q|
    ensures WindowAt(s, |q|, i, q) ==> WindowAt(s, k, i, q[..k])
  {
    if WindowAt(s, |q|, i, q) {
      assert s[i..i + k] == s[i..i + |q|][..k];
    }
  }

  /** Over the first j records, the slice test turns the occurrences of the prefix into those of q. */
  lemma {:induction false} KeepOcc(ss: seq<String>, j: nat, k: nat, q: String)
    requires j <= |ss| && k <= |q|
    ensures Keep(ss, q, Occ(ss[..j], k, q[..k])) == Occ(ss[..j], |q|, q)
  {
    if j > 0 {
      var n := j - 1;
      assert ss[..j][..n] == ss[..n];
      assert ss[..j][n] == ss[n];
      KeepOcc(ss, n, k, q);
      KeepAppend(ss, q, Occ(ss[..n], k, q[..k]), RecordOcc(n, ss[n], k, q[..k]));
      KeepPosOcc(ss, n, k, q, |ss[n]| + 1);
    }
  }

  /** The lines `map_peptides` writes for the occurrences, each with its record's id. */
  function Lines(q: String, records: seq<FastaRecord>, o: seq<(nat, nat)>): (r: seq<String>)
    requires forall j :: 0 <= j < |o| ==> o[j].0 < |records|
    ensures |r| == |o|
  {
    if o == [] then [] else Lines(q, records, o[..|o| - 1]) + [Line(q, records[o[|o| - 1].0].id, o[|o| - 1].1)]
  }

  /** The id and sequence tables of the index resolve every record's hex key. */
  predicate Resolves(ix: FastaIndex, records: seq<FastaRecord>, ss: seq<String>)
  {
    |ss| == |records| &&
    forall n :: 0 <= n < |records| ==>
      Hex6(n) in ix.seqs && ix.seqs[Hex6(n)] == ss[n] && Hex6(n) in ix.ids && ix.ids[Hex6(n)] == records[n].id
  }

  lemma IndexResolves(ix: FastaIndex, records: seq<FastaRecord>, k: nat, alpha: String, il: bool)
    requires IsIndexOf(ix, records, k, alpha, il)
    ensures Resolves(ix, records, FoldedSeqs(records, il))
  {
    forall n | 0 <= n < |records|
      ensures Hex6(n) in ix.seqs && ix.seqs[Hex6(n)] == FoldedSeqs(records, il)[n]
      ensures Hex6(n) in ix.ids && ix.ids[Hex6(n)] == records[n].id
    {
      SeqMapAt(records, il, n);
      IdMapAt(records, n);
      FoldedSeqsAt(records, il, n);
    }
  }

  /** On a resolving index, an entry yields its line exactly when the slice test confirms it. */
  lemma MapEntryAt(ix: FastaIndex, records: seq<FastaRecord>, ss: seq<String>, q: String, n: nat, p: nat)
    requires Resolves(ix, records, ss) && n < |records|
    ensures MapEntry(ix, q, Entry(n, p)) == Ok(if Confirms(ss, q, (n, p)) then [Line(q, records[n].id, p)] else [])
  {
    EntryRoundTrip(n, p);
    var h := Hex6(n);
    assert EntryParts(Entry(n, p)) == Some((h, NatToString(p)));
    assert h in ix.seqs && ix.seqs[h] == ss[n] && h in ix.ids && ix.ids[h] == records[n].id;
  }

  /** The entry loop over one more entry that does not raise. */
  lemma MapEntriesStep(ix: FastaIndex, q: String, es: seq<String>, e: String, l: seq<String>, v: seq<String>)
    requires MapEntries(ix, q, es) == Ok(l) && MapEntry(ix, q, e) == Ok(v)
    ensures MapEntries(ix, q, es + [e]) == Ok(l + v)
  {
    assert (es + [e])[..|es|] == es;
    var prev := FirstError(EntryResults(ix, q, es)).value;
    assert (prev + [v])[..|prev|] == prev;
  }

  /** On a resolving index, the entry loop never raises and writes the lines of the confirmed entries. */
  lemma {:induction false} MapEntriesOcc(ix: FastaIndex, records: seq<FastaRecord>, ss: seq<String>, q: String, o: seq<(nat, nat)>)
    requires Resolves(ix, records, ss)
    requires forall j :: 0 <= j < |o| ==> o[j].0 < |records|
    ensures forall j :: 0 <= j < |Keep(ss, q, o)| ==> Keep(ss, q, o)[j].0 < |records|
    ensures MapEntries(ix, q, Entries(o)) == Ok(Lines(q, records, Keep(ss, q, o)))
  {
    KeepBounds(ss, q, o);
    if o == [] {
      assert Entries(o) == [];
      assert EntryResults(ix, q, []) == [];
      assert MapEntries(ix, q, []) == Ok([]);
      assert Lines(q, records, Keep(ss, q, o)) == [];
    } else {
      var n := |o| - 1;
      var p := o[..n];
      var x := o[n];
      MapEntriesOcc(ix, records, ss, q, p);
      MapEntryAt(ix, records, ss, q, x.0, x.1);
      KeepBounds(ss, q, p);
      var kp := Keep(ss, q, p);
      var lp := Lines(q, records, kp);
      var v := if Confirms(ss, q, x) then [Line(q, records[x.0].id, x.1)] else [];
      SplitLast(o);
      EntriesSnoc(o, p, x);
      MapEntriesStep(ix, q, Entries(p), Entry(x.0, x.1), lp, v);
      KeepLinesSnoc(ss, q, records, p, x);
    }
  }

  /** One more pair adds its line to the confirmed lines exactly when it is confirmed. */
  lemma KeepLinesSnoc(ss: seq<String>, q: String, records: seq<FastaRecord>, init: seq<(nat, nat)>, x: (nat, nat))
    requires forall j :: 0 <= j < |Keep(ss, q, init + [x])| ==> Keep(ss, q, init + [x])[j].0 < |records|
    requires forall j :: 0 <= j < |Keep(ss, q, init)| ==> Keep(ss, q, init)[j].0 < |records|
    requires x.0 < |records|
    ensures Lines(q, records, Keep(ss, q, init + [x])) == Lines(q, records, Keep(ss, q, init)) +
        (if Confirms(ss, q, x) then [Line(q, records[x.0].id, x.1)] else [])
  {
    var o, kp := init + [x], Keep(ss, q, init);
    assert o[..|o| - 1] == init && o[|o| - 1] == x;
    if Confirms(ss, q, x) {
      assert Keep(ss, q, o) == kp + [x];
      assert (kp + [x])[..|kp|] == kp;
    } else {
      assert Keep(ss, q, o) == kp + [];
      assert kp + [] == kp;
    }
  }

  /**
   * `map_peptides` on an index `generate_index` built from the records: a peptide shorter than
   * the index length maps nowhere; one whose folded prefix leaves the alphabet has no key
   * (KeyError); otherwise its lines are those of every occurrence of the folded peptide, by
   * record and then by position.
   */
  lemma MapPeptideOnIndex(ix: FastaIndex, records: seq<FastaRecord>, k: nat, alpha: String, il: bool, pept: String)
    requires IsIndexOf(ix, records, k, alpha, il)
    ensures |pept| < k ==> MapPeptide(ix, pept) == Ok([])
    ensures |pept| >= k && !Over(Fold(pept, il)[..k], alpha) ==> MapPeptide(ix, pept) == Err(KeyError)
    ensures forall j :: 0 <= j < |Occ(FoldedSeqs(records, il), |pept|, Fold(pept, il))| ==>
      Occ(FoldedSeqs(records, il), |pept|, Fold(pept, il))[j].0 < |records|
    ensures |pept| >= k && Over(Fold(pept, il)[..k], alpha) ==>
      MapPeptide(ix, pept) == Ok(Lines(Fold(pept, il), records, Occ(FoldedSeqs(records, il), |pept|, Fold(pept, il))))
  {
    var q := Fold(pept, il);
    assert |q| == |pept|;
    OccAscending(FoldedSeqs(records, il), |q|, q);
    if |pept| >= k {
      WordsMembers(alpha, k, q[..k]);
      if Over(q[..k], alpha) {
        MapPeptideFound(ix, records, k, alpha, il, pept);
      }
    }
  }

  /** A peptide whose prefix is a key: the lines of its occurrences, in order. */
  lemma MapPeptideFound(ix: FastaIndex, records: seq<FastaRecord>, k: nat, alpha: String, il: bool, pept: String)
    requires IsIndexOf(ix, records, k, alpha, il)
    requires |pept| >= k && Over(Fold(pept, il)[..k], alpha)
    ensures forall j :: 0 <= j < |Occ(FoldedSeqs(records, il), |pept|, Fold(pept, il))| ==>
      Occ(FoldedSeqs(records, il), |pept|, Fold(pept, il))[j].0 < |records|
    ensures MapPeptide(ix, pept) == Ok(Lines(Fold(pept, il), records, Occ(FoldedSeqs(records, il), |pept|, Fold(pept, il))))
  {
    var q := Fold(pept, il);
    var ss := FoldedSeqs(records, il);
    assert |q| == |pept|;
    var key := q[..k];
    WordsMembers(alpha, k, key);
    var o := Occ(ss, k, key);
    OccAscending(ss, k, key);
    IndexResolves(ix, records, k, alpha, il);
    MapEntriesOcc(ix, records, ss, q, o);
    assert ss[..|ss|] == ss;
    KeepOcc(ss, |ss|, k, q);
  }

  /** The occurrences reported are exactly the places where the folded record holds the folded peptide. */
  lemma ReportedOccurrences(records: seq<FastaRecord>, il: bool, q: String, x: (nat, nat))
    ensures Ascending(Occ(FoldedSeqs(records, il), |q|, q))
    ensures x in Occ(FoldedSeqs(records, il), |q|, q) <==>
      x.0 < |records| && 1 <= x.1 && WindowAt(Fold(records[x.0].sequence, il), |q|, x.1 - 1, q)
  {
    OccAscending(FoldedSeqs(records, il), |q|, q);
    OccMembers(FoldedSeqs(records, il), |q|, q, x);
    if x.0 < |records| {
      FoldedSeqsAt(records, il, x.0);
    }
  }
}
