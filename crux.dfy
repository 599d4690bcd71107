/**
 * The crux wrapper: file names for the protease strata, the crux generate-peptides,
 * clips and promast command lines, and custom cleavage rules written as
 * `[KR]|{P}` (a bracket pair before and after the cleavage site; square brackets
 * list the residues that allow cleavage, curly brackets the ones that prevent it).
 */
module CruxScript {
  import opened Wrappers
  import opened Strings
  import PeptideMapper
  import Analysis

  // ================================================================ clean_protease_names

  /** The characters the crux wrapper turns into '_' in file names (brackets included). */
  const CruxSpecials: String := "\\/:*?\"<>|,;-[]{}"

  /** The crux wrapper's `clean_protease_names`. */
  function CleanNames(ps: seq<String>): (r: seq<String>)
    ensures |r| == |ps|
  {
    PeptideMapper.CleanNames(ps, CruxSpecials)
  }

  /**
   * Cleaned names keep their number and order, hold no special character, are
   * pairwise distinct, and a single name is only sanitised.
   */
  lemma CleanNamesSpec(ps: seq<String>)
    ensures forall i, c :: 0 <= i < |ps| && c in CruxSpecials ==> c !in CleanNames(ps)[i]
    ensures forall i, j :: 0 <= i < j < |ps| ==> CleanNames(ps)[i] != CleanNames(ps)[j]
    ensures forall i :: 0 <= i < |ps| ==>
      PeptideMapper.Suffixed(CleanNames(ps)[i], PeptideMapper.Sanitise(ps[i], CruxSpecials))
  {
    PeptideMapper.CleanNamesNoSpecials(ps, CruxSpecials);
    PeptideMapper.CleanNamesDistinct(ps, CruxSpecials);
    PeptideMapper.CleanNamesShape(ps, CruxSpecials);
  }

  // ================================================================ the custom cleavage pattern

  predicate IsLetter(c: char)
  {
    'A' <= c <= 'Z' || 'a' <= c <= 'z'
  }

  predicate Letters(s: String)
  {
    forall k :: 0 <= k < |s| ==> IsLetter(s[k])
  }

  predicate IsOpen(c: char)
  {
    c == '[' || c == '{'
  }

  predicate IsClose(c: char)
  {
    c == ']' || c == '}'
  }

  /** The end of the longest run of letters starting at `i` (the greedy `[A-Za-z]*`). */
  function LetterRun(s: String, i: nat): (j: nat)
    requires i <= |s|
    ensures i <= j <= |s| && (j == |s| || !IsLetter(s[j]))
    ensures forall k :: i <= k < j ==> IsLetter(s[k])
    decreases |s| - i
  {
    if i < |s| && IsLetter(s[i]) then LetterRun(s, i + 1) else i
  }

  /** The six groups of the pattern: bracket, letters, bracket, '|', bracket, letters, bracket. */
  datatype Groups = Groups(preOpen: char, pre: String, preClose: char, postOpen: char, post: String, postClose: char)

  /** The text the six groups span. */
  function Render(g: Groups): String
  {
    [g.preOpen] + g.pre + [g.preClose] + "|" + [g.postOpen] + g.post + [g.postClose]
  }

  /** Groups the pattern can capture. */
  predicate WellFormed(g: Groups)
  {
    IsOpen(g.preOpen) && Letters(g.pre) && IsClose(g.preClose) &&
    IsOpen(g.postOpen) && Letters(g.post) && IsClose(g.postClose)
  }

  /** The groups part of the pattern matched at position `i`, if it matches there. */
  function MatchAt(s: String, i: nat): Option<Groups>
    requires i <= |s|
  {
    if !(i < |s| && IsOpen(s[i])) then None
    else
      var j := LetterRun(s, i + 1);
      if !(j + 2 < |s| && IsClose(s[j]) && s[j + 1] == '|' && IsOpen(s[j + 2])) then None
      else
        var l := LetterRun(s, j + 3);
        if !(l < |s| && IsClose(s[l])) then None
        else Some(Groups(s[i], s[i + 1..j], s[j], s[j + 2], s[j + 3..l], s[l]))
  }

  /** A letter run that stops at a non-letter ends exactly there. */
  lemma {:induction false} LetterRunExact(s: String, a: nat, b: nat)
    requires a <= b < |s| && !IsLetter(s[b])
    requires forall k :: a <= k < b ==> IsLetter(s[k])
    ensures LetterRun(s, a) == b
    decreases b - a
  {
    if a < b {
      LetterRunExact(s, a + 1, b);
    }
  }

  /** Whether `s` holds the text of well-formed groups `g` at position `i`. */
  predicate Spans(s: String, i: nat, g: Groups)
  {
    i + |Render(g)| <= |s| && s[i..i + |Render(g)|] == Render(g)
  }

  lemma SliceOfSlice(s: String, a: nat, b: nat, c: nat, d: nat)
    requires a <= b <= |s| && c <= d <= b - a
    ensures s[a..b][c..d] == s[a + c..a + d]
  {
    forall k | 0 <= k < d - c
      ensures s[a..b][c..d][k] == s[a + c..a + d][k]
    {
    }
  }

  /** Where the pieces of rendered groups sit. */
  lemma RenderAt(s: String, i: nat, g: Groups)
    requires Spans(s, i, g)
    ensures var j := i + 1 + |g.pre|; var l := j + 3 + |g.post|;
      l < |s| && s[i] == g.preOpen && s[i + 1..j] == g.pre && s[j] == g.preClose && s[j + 1] == '|' &&
      s[j + 2] == g.postOpen && s[j + 3..l] == g.post && s[l] == g.postClose
  {
    var j := i + 1 + |g.pre|;
    var l := j + 3 + |g.post|;
    var w := s[i..i + |Render(g)|];
    assert w == Render(g);
    assert w[0] == g.preOpen;
    assert w[1..j - i] == g.pre;
    assert w[j - i] == g.preClose && w[j - i + 1] == '|' && w[j - i + 2] == g.postOpen;
    assert w[j - i + 3..l - i] == g.post;
    assert w[l - i] == g.postClose;
    SliceOfSlice(s, i, i + |Render(g)|, 1, j - i);
    SliceOfSlice(s, i, i + |Render(g)|, j - i + 3, l - i);
  }

  /** A match at `i` spans well-formed groups there. */
  lemma MatchAtSound(s: String, i: nat)
    requires i <= |s| && MatchAt(s, i).Some?
    ensures WellFormed(MatchAt(s, i).value) && Spans(s, i, MatchAt(s, i).value)
  {
    MatchAtWellFormed(s, i);
    MatchAtSpans(s, i);
  }

  lemma MatchAtWellFormed(s: String, i: nat)
    requires i <= |s| && MatchAt(s, i).Some?
    ensures WellFormed(MatchAt(s, i).value)
  {
    var g := MatchAt(s, i).value;
    var j := LetterRun(s, i + 1);
    var l := LetterRun(s, j + 3);
    assert Letters(g.pre) by {
      forall k | 0 <= k < |g.pre| ensures IsLetter(g.pre[k]) {
        assert g.pre[k] == s[i + 1 + k];
      }
    }
    assert Letters(g.post) by {
      forall k | 0 <= k < |g.post| ensures IsLetter(g.post[k]) {
        assert g.post[k] == s[j + 3 + k];
      }
    }
  }

  lemma MatchAtSpans(s: String, i: nat)
    requires i <= |s| && MatchAt(s, i).Some?
    ensures Spans(s, i, MatchAt(s, i).value)
  {
    var j := LetterRun(s, i + 1);
    var l := LetterRun(s, j + 3);
    var g := MatchAt(s, i).value;
    SpanPieces(s, i, j, l);
    assert Render(g) == [s[i]] + s[i + 1..j] + [s[j]] + [s[j + 1]] + [s[j + 2]] + s[j + 3..l] + [s[l]];
  }

  /** The text from `i` to `l` cut at the seven places the pattern's groups sit. */
  lemma SpanPieces(s: String, i: nat, j: nat, l: nat)
    requires i < j && j + 3 <= l < |s|
    ensures s[i..l + 1] == [s[i]] + s[i + 1..j] + [s[j]] + [s[j + 1]] + [s[j + 2]] + s[j + 3..l] + [s[l]]
  {
    assert s[i..l + 1] == s[i..j] + s[j..l + 1];
    assert s[i..j] == [s[i]] + s[i + 1..j];
    assert s[j..l + 1] == [s[j]] + ([s[j + 1]] + ([s[j + 2]] + (s[j + 3..l] + [s[l]])));
  }

  /** Well-formed groups spanned at `i` are what the pattern captures there. */
  lemma MatchAtComplete(s: String, i: nat, g: Groups)
    requires WellFormed(g) && Spans(s, i, g)
    ensures MatchAt(s, i) == Some(g)
  {
    RenderAt(s, i, g);
    var j := i + 1 + |g.pre|;
    var l := j + 3 + |g.post|;
    forall k | i + 1 <= k < j ensures IsLetter(s[k]) {
      assert s[k] == g.pre[k - i - 1];
    }
    LetterRunExact(s, i + 1, j);
    forall k | j + 3 <= k < l ensures IsLetter(s[k]) {
      assert s[k] == g.post[k - j - 3];
    }
    LetterRunExact(s, j + 3, l);
  }

  /** The pattern matches at `i` with groups `g` exactly when `s` spans well-formed `g` there. */
  lemma MatchAtSpec(s: String, i: nat, g: Groups)
    requires i <= |s|
    ensures MatchAt(s, i) == Some(g) <==> WellFormed(g) && Spans(s, i, g)
  {
    if MatchAt(s, i) == Some(g) {
      MatchAtSound(s, i);
    }
    if WellFormed(g) && Spans(s, i, g) {
      MatchAtComplete(s, i, g);
    }
  }

  /**
   * `re.match` with the leading lazy `.*?`: the leftmost position from `i` on where the
   * groups match; `.` does not match '\n', so the search stops at the first newline.
   */
  function SearchFrom(s: String, i: nat): (r: Option<(nat, Groups)>)
    requires i <= |s|
    ensures r.Some? ==> i <= r.value.0 <= |s| && MatchAt(s, r.value.0) == Some(r.value.1)
    decreases |s| - i
  {
    match MatchAt(s, i)
    case Some(g) => Some((i, g))
    case None => if i == |s| || s[i] == '\n' then None else SearchFrom(s, i + 1)
  }

  /** No newline between `i` and `p`. */
  predicate LineFrom(s: String, i: nat, p: nat)
    requires i <= p <= |s|
  {
    forall q :: i <= q < p ==> s[q] != '\n'
  }

  /** The search finds the first matching position the lazy prefix can reach, and only that. */
  lemma {:induction false} SearchFromSpec(s: String, i: nat)
    requires i <= |s|
    ensures SearchFrom(s, i).Some? ==> var p := SearchFrom(s, i).value.0;
      LineFrom(s, i, p) && forall q :: i <= q < p ==> MatchAt(s, q).None?
    ensures SearchFrom(s, i).None? ==> forall q :: i <= q <= |s| && LineFrom(s, i, q) ==> MatchAt(s, q).None?
    decreases |s| - i
  {
    if MatchAt(s, i).None? && i < |s| && s[i] != '\n' {
      SearchFromSpec(s, i + 1);
      if SearchFrom(s, i).None? {
        forall q | i <= q <= |s| && LineFrom(s, i, q) ensures MatchAt(s, q).None? {
          if q > i {
            assert LineFrom(s, i + 1, q);
          }
        }
      }
    }
  }

  // ================================================================ handle_custom_proteases

  /** What `handle_custom_proteases` returns once the pattern is found: code 0, -2 or -3. */
  datatype CustomReturn = Accepted(spec: String) | FirstPairMismatch | SecondPairMismatch

  /** The 'bracket_dict' lookup: the closing bracket that belongs to an opening one. */
  function Closing(c: char): char
  {
    if c == '[' then ']' else if c == '{' then '}' else c
  }

  /** A bracket's letters: upper-cased, or "X" (any residue) when empty. */
  function Fill(content: String): String
  {
    if content == [] then "X" else Upper(content)
  }

  /**
   * `handle_custom_proteases`: the first bracket-pair pattern in the text without its
   * whitespace; `None` is the ValueError raised when there is none.
   */
  function HandleCustomProteases(s: String): Option<CustomReturn>
  {
    var found := SearchFrom(RemoveSpace(s), 0);
    if found.None? then None else Some(Classify(found.value.1))
  }

  /** The groups with their letters filled. */
  function Filled(g: Groups): Groups
  {
    Groups(g.preOpen, Fill(g.pre), g.preClose, g.postOpen, Fill(g.post), g.postClose)
  }

  /** The return for the groups found: the bracket pairs are checked after the letters are filled. */
  function Classify(g: Groups): CustomReturn
  {
    if Closing(g.preOpen) != g.preClose then FirstPairMismatch
    else if Closing(g.postOpen) != g.postClose then SecondPairMismatch
    else Accepted(Render(Filled(g)))
  }

  /** A cleavage rule as crux reads it: matched brackets around non-empty upper-case letters. */
  predicate CleanRule(g: Groups)
  {
    WellFormed(g) && Closing(g.preOpen) == g.preClose && Closing(g.postOpen) == g.postClose &&
    g.pre != [] && g.post != [] &&
    (forall k :: 0 <= k < |g.pre| ==> 'A' <= g.pre[k] <= 'Z') &&
    (forall k :: 0 <= k < |g.post| ==> 'A' <= g.post[k] <= 'Z')
  }

  lemma {:induction false} UpperLetters(s: String)
    requires Letters(s)
    ensures forall k :: 0 <= k < |Upper(s)| ==> 'A' <= Upper(s)[k] <= 'Z'
  {
    if s != [] {
      UpperLetters(s[1..]);
      assert Upper(s) == [UpperChar(s[0])] + Upper(s[1..]);
    }
  }

  lemma {:induction false} UpperKeeps(s: String)
    requires forall k :: 0 <= k < |s| ==> 'A' <= s[k] <= 'Z'
    ensures Upper(s) == s
  {
    if s != [] {
      UpperKeeps(s[1..]);
      assert [s[0]] + s[1..] == s;
    }
  }

  /** Filled letters are a non-empty upper-case run, and filling them again changes nothing. */
  lemma FillSpec(content: String)
    requires Letters(content)
    ensures Fill(content) != [] && forall k :: 0 <= k < |Fill(content)| ==> 'A' <= Fill(content)[k] <= 'Z'
    ensures Fill(Fill(content)) == Fill(content)
  {
    if content != [] {
      UpperLetters(content);
      UpperKeeps(Upper(content));
    }
  }

  /** A rendered rule holds no whitespace. */
  lemma RenderNoSpace(g: Groups)
    requires WellFormed(g)
    ensures RemoveSpace(Render(g)) == Render(g)
  {
    var r := Render(g);
    forall k | 0 <= k < |r| ensures !IsSpace(r[k]) {
      var j := 1 + |g.pre|;
      if 1 <= k < j {
        assert r[k] == g.pre[k - 1];
      } else if j + 3 <= k < j + 3 + |g.post| {
        assert r[k] == g.post[k - j - 3];
      }
    }
    RemoveSpaceNone(r);
  }

  /** Some position of `t` spans a bracket-pair pattern. */
  ghost predicate Findable(t: String)
  {
    exists q: nat, g :: q <= |t| && WellFormed(g) && Spans(t, q, g)
  }

  /**
   * `handle_custom_proteases` raises (`None`) exactly when no position of the
   * whitespace-free text spans a bracket-pair pattern.
   */
  lemma HandleNone(s: String)
    ensures HandleCustomProteases(s).None? <==> !Findable(RemoveSpace(s))
  {
    var t := RemoveSpace(s);
    var found := SearchFrom(t, 0);
    if found.None? {
      NoNewline(t);
      SearchFromSpec(t, 0);
      forall q, g | 0 <= q <= |t| ensures !(WellFormed(g) && Spans(t, q, g)) {
        MatchAtSpec(t, q, g);
      }
    } else {
      var q := found.value.0;
      var g := found.value.1;
      MatchAtSound(t, q);
      assert 0 <= q <= |t| && WellFormed(g) && Spans(t, q, g);
    }
  }

  /** A text without whitespace has no newline. */
  lemma NoNewline(t: String)
    requires forall i :: 0 <= i < |t| ==> !IsSpace(t[i])
    ensures forall q :: 0 <= q <= |t| ==> LineFrom(t, 0, q)
  {
    assert IsSpace('\n');
  }

  /**
   * Otherwise the first pattern found decides: a mismatched first pair gives code -2,
   * a mismatched second pair code -3, and matched pairs the rule built from its groups.
   */
  lemma HandleFound(s: String)
    requires HandleCustomProteases(s).Some?
    ensures exists q: nat, g :: FirstSpan(RemoveSpace(s), q, g) && Decides(HandleCustomProteases(s).value, g)
  {
    var t := RemoveSpace(s);
    var found := SearchFrom(t, 0);
    NoNewline(t);
    SearchFromSpec(t, 0);
    var q := found.value.0;
    var g := found.value.1;
    MatchAtSound(t, q);
    forall p: nat, h | p < q ensures !(WellFormed(h) && Spans(t, p, h)) {
      MatchAtSpec(t, p, h);
    }
    assert FirstSpan(t, q, g);
    assert HandleCustomProteases(s).value == Classify(g);
  }

  /** Groups `g` spanned at `q`, and no pattern spanned earlier. */
  ghost predicate FirstSpan(t: String, q: nat, g: Groups)
  {
    q <= |t| && WellFormed(g) && Spans(t, q, g) &&
    forall p: nat, h :: p < q ==> !(WellFormed(h) && Spans(t, p, h))
  }

  /** What the groups found decide, pair by pair. */
  predicate Decides(r: CustomReturn, g: Groups)
  {
    (r == FirstPairMismatch <==> Closing(g.preOpen) != g.preClose) &&
    (r == SecondPairMismatch <==> Closing(g.preOpen) == g.preClose && Closing(g.postOpen) != g.postClose) &&
    (r.Accepted? ==> r.spec == Render(Filled(g)))
  }

  /** An accepted rule is clean, and feeding it back in accepts it unchanged. */
  lemma HandleAccepted(s: String)
    requires HandleCustomProteases(s).Some? && HandleCustomProteases(s).value.Accepted?
    ensures exists g :: CleanRule(g) && HandleCustomProteases(s).value.spec == Render(g)
    ensures HandleCustomProteases(HandleCustomProteases(s).value.spec) == HandleCustomProteases(s)
  {
    var t := RemoveSpace(s);
    var p := SearchFrom(t, 0).value.0;
    var g := SearchFrom(t, 0).value.1;
    MatchAtSound(t, p);
    FillSpec(g.pre);
    FillSpec(g.post);
    var h := Filled(g);
    assert HandleCustomProteases(s) == Some(Accepted(Render(h)));
    assert CleanRule(h);
    var spec := Render(h);
    RenderNoSpace(h);
    MatchAtComplete(spec, 0, h);
    assert Filled(h) == h;
    assert SearchFrom(spec, 0) == Some((0, h));
  }

  /** A text that is exactly a pattern is decided by that pattern's groups. */
  lemma HandleRendered(g: Groups)
    requires WellFormed(g)
    ensures HandleCustomProteases(Render(g)) == Some(Classify(g))
  {
    RenderNoSpace(g);
    MatchAtComplete(Render(g), 0, g);
  }

  /** A rule with lower-case letters and an empty pair: the letters are upper-cased, the pair reads X. */
  lemma HandleExampleLower()
    ensures HandleCustomProteases("[kr]|{}") == Some(Accepted("[KR]|{X}"))
  {
    var g := Groups('[', "kr", ']', '{', "", '}');
    RenderLower();
    HandleRendered(g);
    ClassifyLower();
  }

  lemma RenderLower()
    ensures Render(Groups('[', "kr", ']', '{', "", '}')) == "[kr]|{}"
  {
  }

  lemma ClassifyLower()
    ensures Classify(Groups('[', "kr", ']', '{', "", '}')) == Accepted("[KR]|{X}")
  {
    var g := Groups('[', "kr", ']', '{', "", '}');
    assert Upper("kr") == "KR" by {
      assert Upper("kr") == [UpperChar('k')] + Upper("r");
      assert Upper("r") == [UpperChar('r')] + Upper("");
    }
    var h := Groups('[', "KR", ']', '{', "X", '}');
    assert Filled(g) == h;
    assert Render(h) == "[KR]|{X}";
  }

  /** A mismatched second pair: code -3. */
  lemma HandleExampleMismatch()
    ensures HandleCustomProteases("[]|[P}") == Some(SecondPairMismatch)
  {
    var g := Groups('[', "", ']', '[', "P", '}');
    HandleRendered(g);
    assert Render(g) == "[]|[P}";
  }

  // ================================================================ generate_peptides_call

  /** Why the crux command builder stops. */
  datatype CruxError =
    | DigestionNotAllowed   // a digestion outside the allowed set
    | ProteaseNotDefined    // an enzyme that is neither custom nor known to crux
    | InvalidCustomSyntax   // a custom enzyme without the bracket-pair pattern
    | UnpackError           // a mismatched bracket pair: the three-value return cannot be unpacked into two names

  /** Whether the enzyme name asks for a custom rule: `enzyme.lower().startswith("custom")`. */
  predicate IsCustom(enzyme: String)
  {
    StartsWith(Lower(enzyme), "custom")
  }

  /** The enzyme option of the command: `--custom-enzyme "<rule>"` or `--enzyme <name>`. */
  function EnzymeOption(enzyme: String): Result<(String, String), CruxError>
  {
    if IsCustom(enzyme) then
      match HandleCustomProteases(enzyme)
      case None => Err(InvalidCustomSyntax)
      case Some(Accepted(spec)) => Ok(("custom-enzyme", PeptideMapper.Quote(spec)))
      case Some(_) => Err(UnpackError)
    else if enzyme !in PeptideMapper.AllowedEnzymes then Err(ProteaseNotDefined)
    else Ok(("enzyme", enzyme))
  }

  /** The options the crux command builder writes, in order; the output folder is not quoted. */
  function PeptideOptions(outFolder: String, minMass: String, maxMass: String, minLen: String, maxLen: String,
                          missedCleavages: String, digestion: String, clipNTermMet: String, decoyFormat: String,
                          enzymeOption: (String, String)): seq<(String, String)>
  {
    [("overwrite", "T"), ("min-mass", minMass), ("max-mass", maxMass), ("min-length", minLen),
     ("max-length", maxLen), ("digestion", digestion), ("missed-cleavages", missedCleavages),
     ("clip-nterm-methionine", clipNTermMet), ("decoy-format", decoyFormat), enzymeOption,
     ("fileroot", outFolder)]
  }

  /** The command line of an accepted call, with the crux and FASTA paths as given. */
  function PeptidesCommand(outFolder: String, fasta: String, cruxPath: String, minMass: String, maxMass: String,
                           minLen: String, maxLen: String, missedCleavages: String, digestion: String,
                           clipNTermMet: String, decoyFormat: String, enzymeOption: (String, String)): String
  {
    PeptideMapper.CommandLine(cruxPath + " generate-peptides",
      PeptideOptions(outFolder, minMass, maxMass, minLen, maxLen, missedCleavages, digestion, clipNTermMet, decoyFormat,
                     enzymeOption),
      " " + fasta)
  }

  /** `generate_peptides_call` of the crux wrapper. */
  function GeneratePeptidesCall(outFolder: String, fasta: String, cruxPath: String, minMass: String, maxMass: String,
                                minLen: String, maxLen: String, missedCleavages: String, digestion: String,
                                clipNTermMet: String, decoyFormat: String, enzyme: String): Result<String, CruxError>
  {
    if digestion !in PeptideMapper.AllowedDigestion then Err(DigestionNotAllowed)
    else
      match EnzymeOption(enzyme)
      case Err(e) => Err(e)
      case Ok(opt) => Ok(PeptidesCommand(outFolder, fasta, cruxPath, minMass, maxMass, minLen, maxLen, missedCleavages,
                                         digestion, clipNTermMet, decoyFormat, opt))
  }

  /**
   * The builder's errors: the digestion is checked first; a custom name fails exactly
   * when its rule does not parse or has a mismatched pair; any other name must be a
   * crux enzyme.
   */
  lemma GeneratePeptidesCallErrors(outFolder: String, fasta: String, cruxPath: String, minMass: String, maxMass: String,
                                   minLen: String, maxLen: String, mc: String, digestion: String,
                                   clip: String, decoy: String, enzyme: String)
    ensures var r := GeneratePeptidesCall(outFolder, fasta, cruxPath, minMass, maxMass, minLen, maxLen, mc, digestion, clip, decoy, enzyme);
      && (r == Err(DigestionNotAllowed) <==> digestion !in PeptideMapper.AllowedDigestion)
      && (r.Ok? <==> (digestion in PeptideMapper.AllowedDigestion &&
            if IsCustom(enzyme) then HandleCustomProteases(enzyme).Some? && HandleCustomProteases(enzyme).value.Accepted?
            else enzyme in PeptideMapper.AllowedEnzymes))
      && (r == Err(InvalidCustomSyntax) <==>
            digestion in PeptideMapper.AllowedDigestion && IsCustom(enzyme) && HandleCustomProteases(enzyme).None?)
      && (r == Err(UnpackError) <==>
            digestion in PeptideMapper.AllowedDigestion && IsCustom(enzyme) && HandleCustomProteases(enzyme).Some? &&
            !HandleCustomProteases(enzyme).value.Accepted?)
      && (r == Err(ProteaseNotDefined) <==>
            digestion in PeptideMapper.AllowedDigestion && !IsCustom(enzyme) && enzyme !in PeptideMapper.AllowedEnzymes)
  {
  }

  /**
   * An accepted command runs crux generate-peptides with the requested missed cleavages,
   * the enzyme as `--enzyme <name>` or the parsed rule as `--custom-enzyme "<rule>"`,
   * the output folder, and ends with the FASTA path.
   */
  lemma GeneratePeptidesCallShape(outFolder: String, fasta: String, cruxPath: String, minMass: String, maxMass: String,
                                  minLen: String, maxLen: String, mc: String, digestion: String,
                                  clip: String, decoy: String, enzyme: String)
    requires GeneratePeptidesCall(outFolder, fasta, cruxPath, minMass, maxMass, minLen, maxLen, mc, digestion, clip, decoy, enzyme).Ok?
    ensures var cmd := GeneratePeptidesCall(outFolder, fasta, cruxPath, minMass, maxMass, minLen, maxLen, mc, digestion, clip, decoy, enzyme).value;
      && StartsWith(cmd, cruxPath + " generate-peptides" + " ")
      && Contains(cmd, PeptideMapper.OptionText("missed-cleavages", mc))
      && Contains(cmd, PeptideMapper.OptionText("digestion", digestion))
      && Contains(cmd, PeptideMapper.OptionText("fileroot", outFolder))
      && EndsWith(cmd, " " + fasta)
      && (!IsCustom(enzyme) ==> Contains(cmd, PeptideMapper.OptionText("enzyme", enzyme)))
      && (IsCustom(enzyme) ==>
            Contains(cmd, PeptideMapper.OptionText("custom-enzyme", PeptideMapper.Quote(HandleCustomProteases(enzyme).value.spec))))
  {
    var opt := EnzymeOption(enzyme).value;
    PeptidesCommandShape(outFolder, fasta, cruxPath, minMass, maxMass, minLen, maxLen, mc, digestion, clip, decoy, opt);
  }

  /** The command line of an accepted call holds each requested option, between the crux call and the FASTA path. */
  lemma PeptidesCommandShape(outFolder: String, fasta: String, cruxPath: String, minMass: String, maxMass: String,
                             minLen: String, maxLen: String, mc: String, digestion: String,
                             clip: String, decoy: String, opt: (String, String))
    ensures var cmd := PeptidesCommand(outFolder, fasta, cruxPath, minMass, maxMass, minLen, maxLen, mc, digestion, clip, decoy, opt);
      && StartsWith(cmd, cruxPath + " generate-peptides" + " ")
      && Contains(cmd, PeptideMapper.OptionText("missed-cleavages", mc))
      && Contains(cmd, PeptideMapper.OptionText("digestion", digestion))
      && Contains(cmd, PeptideMapper.OptionText("fileroot", outFolder))
      && Contains(cmd, PeptideMapper.OptionText(opt.0, opt.1))
      && EndsWith(cmd, " " + fasta)
  {
    var head := cruxPath + " generate-peptides";
    var opts := PeptideOptions(outFolder, minMass, maxMass, minLen, maxLen, mc, digestion, clip, decoy, opt);
    var tail := " " + fasta;
    assert opts[5] == ("digestion", digestion) && opts[6] == ("missed-cleavages", mc);
    assert opts[9] == opt && opts[10] == ("fileroot", outFolder);
    PeptideMapper.CommandParts(head, opts, tail, 5);
    PeptideMapper.CommandParts(head, opts, tail, 6);
    PeptideMapper.CommandParts(head, opts, tail, 9);
    PeptideMapper.CommandParts(head, opts, tail, 10);
  }

  // ================================================================ clips and promast calls

  /** The prefix both perl scripts need on Linux: `"perl "` when the platform names Linux. */
  function Perl(platform: String): String
  {
    if Contains(platform, "linux") then "perl " else ""
  }

  /** `generate_clips_call`: index the FASTA file with segments of the given size. */
  function GenerateClipsCall(fasta: String, clipsPath: String, segmentSize: int, platform: String): (r: String)
    ensures StartsWith(r, Perl(platform) + clipsPath)
    ensures EndsWith(r, " -V -f -s " + IntToString(segmentSize) + " " + fasta)
  {
    var head := Perl(platform) + clipsPath;
    var tail := " -V -f -s " + IntToString(segmentSize) + " " + fasta;
    assert (head + tail)[..|head|] == head;
    assert (head + tail)[|head|..] == tail;
    head + tail
  }

  /** `generate_promast_call`: map a peptide list to the FASTA file with context and threads. */
  function GeneratePromastCall(fasta: String, peptideList: String, outName: String, promastPath: String,
                               cpus: int, platform: String): (r: String)
    ensures StartsWith(r, Perl(platform) + promastPath)
    ensures EndsWith(r, " -c -t " + IntToString(cpus) + " -n " + outName + " " + fasta + " " + peptideList)
  {
    var head := Perl(platform) + promastPath;
    var tail := " -c -t " + IntToString(cpus) + " -n " + outName + " " + fasta + " " + peptideList;
    assert (head + tail)[..|head|] == head;
    assert (head + tail)[|head|..] == tail;
    head + tail
  }

  /** The perl prefix appears exactly on platforms naming Linux. */
  lemma PerlPrefix(platform: String)
    ensures Contains(platform, "linux") <==> StartsWith(Perl(platform), "perl ")
  {
  }

  // ================================================================ get_crux_cmds

  /** The crux output folder of one stratum: `<clean>_<mc>_MCs`. */
  function ResultName(p: String, mc: int): String
  {
    PeptideMapper.Sanitise(p, CruxSpecials) + "_" + IntToString(mc) + "_MCs"
  }

  /** The line of the result-file list for one stratum. */
  function FileLine(p: String, mc: int): String
  {
    ResultName(p, mc) + ".generate-peptides.target.txt" + "\t" + p + "\t" + IntToString(mc)
  }

  /** The call `get_crux_cmds` makes for one stratum, with the builder's defaults. */
  function StratumCall(s: Analysis.Stratum, fasta: String, cruxPath: String,
                       minMass: String, maxMass: String, minLen: String, maxLen: String): Result<String, CruxError>
  {
    GeneratePeptidesCall(ResultName(s.enzyme, s.mc), fasta, cruxPath, minMass, maxMass, minLen, maxLen,
                         IntToString(s.mc), "full-digest", "T", "none", s.enzyme)
  }

  /** The builder's default digestion is allowed, so only the enzyme can stop a stratum. */
  lemma StratumCallSpec(s: Analysis.Stratum, fasta: String, cruxPath: String,
                        minMass: String, maxMass: String, minLen: String, maxLen: String)
    ensures StratumCall(s, fasta, cruxPath, minMass, maxMass, minLen, maxLen).Ok? <==> EnzymeOption(s.enzyme).Ok?
    ensures StratumCall(s, fasta, cruxPath, minMass, maxMass, minLen, maxLen).Err? ==>
      StratumCall(s, fasta, cruxPath, minMass, maxMass, minLen, maxLen).error == EnzymeOption(s.enzyme).error
  {
    assert "full-digest" in PeptideMapper.AllowedDigestion;
  }

  /**
   * `get_crux_cmds` of the crux wrapper: the strata of the (protease, max MC) pairs, then
   * one crux call and one file line per stratum; the first refused call ends the run.
   */
  method GetCruxCmds(proteases: seq<String>, maxMcs: seq<int>, fasta: String, cruxPath: String,
                     minMass: String, maxMass: String, minLen: String, maxLen: String)
    returns (r: Result<PeptideMapper.CruxCmds, CruxError>)
    ensures var strata := Analysis.Expansion(proteases, maxMcs);
      (r.Ok? <==> forall i :: 0 <= i < |strata| ==> StratumCall(strata[i], fasta, cruxPath, minMass, maxMass, minLen, maxLen).Ok?) &&
      (r.Err? ==> exists i :: 0 <= i < |strata| && StratumCall(strata[i], fasta, cruxPath, minMass, maxMass, minLen, maxLen) == Err(r.error) &&
                    forall j :: 0 <= j < i ==> StratumCall(strata[j], fasta, cruxPath, minMass, maxMass, minLen, maxLen).Ok?)
    ensures var strata := Analysis.Expansion(proteases, maxMcs);
      r.Ok? ==>
        |r.value.commands| == |strata| && |r.value.proteases| == |strata| &&
        |r.value.mcs| == |strata| && |r.value.files| == |strata| &&
        forall i :: 0 <= i < |strata| ==>
          Ok(r.value.commands[i]) == StratumCall(strata[i], fasta, cruxPath, minMass, maxMass, minLen, maxLen) &&
          r.value.proteases[i] == strata[i].enzyme && r.value.mcs[i] == strata[i].mc &&
          r.value.files[i] == FileLine(strata[i].enzyme, strata[i].mc)
  {
    var strata := Analysis.ExpandPairs(proteases, maxMcs);
    var cmds := PeptideMapper.CruxCmds([], [], [], []);
    var i := 0;
    while i < |strata|
      invariant 0 <= i <= |strata|
      invariant Built(strata, cmds, i, fasta, cruxPath, minMass, maxMass, minLen, maxLen)
    {
      var s := strata[i];
      var cmd := StratumCmd(s, fasta, cruxPath, minMass, maxMass, minLen, maxLen);
      if cmd.Err? {
        return Err(cmd.error);
      }
      var next := PeptideMapper.CruxCmds(cmds.commands + [cmd.value.0], cmds.proteases + [s.enzyme],
                                         cmds.mcs + [s.mc], cmds.files + [cmd.value.1]);
      BuiltSnoc(strata, cmds, i, fasta, cruxPath, minMass, maxMass, minLen, maxLen, cmd.value, next);
      cmds := next;
      i := i + 1;
    }
    r := Ok(cmds);
  }

  /** The body of the loop of `get_crux_cmds` for one stratum: its crux call and its file line. */
  method StratumCmd(s: Analysis.Stratum, fasta: String, cruxPath: String,
                    minMass: String, maxMass: String, minLen: String, maxLen: String)
    returns (r: Result<(String, String), CruxError>)
    ensures r.Err? ==> StratumCall(s, fasta, cruxPath, minMass, maxMass, minLen, maxLen) == Err(r.error)
    ensures r.Ok? ==> StratumCall(s, fasta, cruxPath, minMass, maxMass, minLen, maxLen) == Ok(r.value.0) &&
                      r.value.1 == FileLine(s.enzyme, s.mc)
  {
    var clean := PeptideMapper.CleanProteaseNames([s.enzyme], CruxSpecials);
    PeptideMapper.CleanSingle(s.enzyme, CruxSpecials);
    var resultName := clean[0] + "_" + IntToString(s.mc) + "_MCs";
    assert resultName == ResultName(s.enzyme, s.mc);
    var call := GeneratePeptidesCall(resultName, fasta, cruxPath, minMass, maxMass, minLen, maxLen,
                                     IntToString(s.mc), "full-digest", "T", "none", s.enzyme);
    assert call == StratumCall(s, fasta, cruxPath, minMass, maxMass, minLen, maxLen);
    if call.Err? {
      return Err(call.error);
    }
    var line := resultName + ".generate-peptides.target.txt" + "\t" + s.enzyme + "\t" + IntToString(s.mc);
    assert line == FileLine(s.enzyme, s.mc);
    r := Ok((call.value, line));
  }

  /** The commands, names, MC counts and file lines of the first `n` strata. */
  ghost predicate Built(strata: seq<Analysis.Stratum>, c: PeptideMapper.CruxCmds, n: nat, fasta: String, cruxPath: String,
                        minMass: String, maxMass: String, minLen: String, maxLen: String)
    requires n <= |strata|
  {
    |c.commands| == n && |c.proteases| == n && |c.mcs| == n && |c.files| == n &&
    forall j :: 0 <= j < n ==>
      Ok(c.commands[j]) == StratumCall(strata[j], fasta, cruxPath, minMass, maxMass, minLen, maxLen) &&
      c.proteases[j] == strata[j].enzyme && c.mcs[j] == strata[j].mc &&
      c.files[j] == FileLine(strata[j].enzyme, strata[j].mc)
  }

  lemma BuiltSnoc(strata: seq<Analysis.Stratum>, c: PeptideMapper.CruxCmds, n: nat, fasta: String, cruxPath: String,
                  minMass: String, maxMass: String, minLen: String, maxLen: String, cmd: (String, String),
                  next: PeptideMapper.CruxCmds)
    requires n < |strata| && Built(strata, c, n, fasta, cruxPath, minMass, maxMass, minLen, maxLen)
    requires StratumCall(strata[n], fasta, cruxPath, minMass, maxMass, minLen, maxLen) == Ok(cmd.0)
    requires cmd.1 == FileLine(strata[n].enzyme, strata[n].mc)
    requires next == PeptideMapper.CruxCmds(c.commands + [cmd.0], c.proteases + [strata[n].enzyme],
                                            c.mcs + [strata[n].mc], c.files + [cmd.1])
    ensures Built(strata, next, n + 1, fasta, cruxPath, minMass, maxMass, minLen, maxLen)
  {
    forall j | 0 <= j < n
      ensures next.commands[j] == c.commands[j] && next.proteases[j] == c.proteases[j] &&
              next.mcs[j] == c.mcs[j] && next.files[j] == c.files[j]
    {
    }
  }
}
