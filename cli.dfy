/**
 * The command-line front end: loading the parameter file, the comma-list
 * parsers of the options that override it, the regrouping of missed-cleavage
 * frequencies per enzyme, the sampling-basis rule, and the choice of the tasks
 * to run.
 */
module Cli {
  import opened Wrappers
  import opened Strings
  import A = Analysis
  import P = ParamFunctions

  /** The exceptions the command line raises itself. */
  datatype CliError =
    | ValueError    // int() or float() of a malformed entry
    | RuntimeError  // the explicit checks, and any failure of load_params

  // ---------------------------------------------------------------- loading the parameter file

  /** `load_params` as `main` calls it: whatever it raises is turned into a RuntimeError. */
  function LoadForCli(vs: P.Values, rows: seq<String>, isFile: String -> bool, dirUsable: String -> bool,
                      numeric: String -> bool): (r: Result<P.Values, CliError>)
    ensures r.Err? ==> r.error == RuntimeError
  {
    var o := P.LoadSpec(vs, rows, isFile, dirUsable, numeric);
    if o.result.Err? then Err(RuntimeError) else Ok(o.values)
  }

  /**
   * Loading fails exactly when the rows do not make a dictionary with every
   * required key, or perl mapping is on and a script path is missing.
   */
  lemma LoadForCliFails(vs: P.Values, rows: seq<String>, isFile: String -> bool, dirUsable: String -> bool,
                        numeric: String -> bool)
    ensures var pd := P.ParamDict(rows);
      LoadForCli(vs, rows, isFile, dirUsable, numeric).Err? <==>
        pd.Err? || !P.HasRequired(pd.value) ||
        (P.Perl(vs) && (P.Name(P.ClipsPath) !in pd.value || P.Name(P.PromastPath) !in pd.value))
  {
    P.LoadErrors(vs, rows, isFile, dirUsable, numeric);
  }

  /** A file written by the parameter object loads at the command line. */
  lemma SavedFileLoadsAtCli(w: P.Values, u: P.Values, isFile: String -> bool, dirUsable: String -> bool,
                            numeric: String -> bool)
    requires forall a: P.Attr :: P.Storable(P.Str(w, a))
    ensures LoadForCli(u, P.SavedRows(w), isFile, dirUsable, numeric).Ok?
  {
    P.SavedFileLoads(w, u, isFile, dirUsable, numeric);
    LoadedOk(u, P.SavedRows(w), isFile, dirUsable, numeric);
  }

  lemma LoadedOk(vs: P.Values, rows: seq<String>, isFile: String -> bool, dirUsable: String -> bool,
                 numeric: String -> bool)
    requires P.LoadSpec(vs, rows, isFile, dirUsable, numeric).result.Ok?
    ensures LoadForCli(vs, rows, isFile, dirUsable, numeric).Ok?
  {
  }

  // ---------------------------------------------------------------- comma lists

  /**
   * `parse_enzyme_list`, `parse_mc_list` and `parse_num_peps`: the option split
   * on ','; the `str()` the last two apply to each piece changes nothing.
   */
  function ParseCommaList(s: String): (r: seq<String>)
    ensures |r| >= 1
    ensures forall i :: 0 <= i < |r| ==> ',' !in r[i]
    ensures Join(r, ",") == s
  {
    JoinSplit(s, ',');
    Split(s, ',')
  }

  /** A non-empty list of comma-free entries, joined with ',', parses back to itself. */
  lemma ParseJoined(xs: seq<String>)
    requires |xs| >= 1
    requires forall i :: 0 <= i < |xs| ==> ',' !in xs[i]
    ensures ParseCommaList(Join(xs, ",")) == xs
  {
    SplitJoin(xs, ',');
  }

  // ---------------------------------------------------------------- missed-cleavage bounds

  /** Number of frequencies an enzyme with at most `m` missed cleavages takes: `range(m + 1)`. */
  function GroupLen(m: int): nat
  {
    if m >= 0 then m + 1 else 0
  }

  /** `mc_len` after the enzymes `ms`: the number of frequencies they take together. */
  function McLen(ms: seq<int>): nat
  {
    if ms == [] then 0 else McLen(ms[..|ms| - 1]) + GroupLen(ms[|ms| - 1])
  }

  /** The frequencies of enzyme `i` follow those of the enzymes before it and end within the total. */
  lemma McLenStep(ms: seq<int>, i: int)
    requires 0 <= i < |ms|
    ensures McLen(ms[..i + 1]) == McLen(ms[..i]) + GroupLen(ms[i])
  {
    assert ms[..i + 1][..i] == ms[..i];
  }

  lemma {:induction false} McLenBounds(ms: seq<int>, i: int)
    requires 0 <= i <= |ms|
    ensures McLen(ms[..i]) <= McLen(ms)
    decreases |ms| - i
  {
    if i == |ms| {
      assert ms[..i] == ms;
    } else {
      McLenBounds(ms, i + 1);
      McLenStep(ms, i);
    }
  }

  /**
   * The first loop of `parse_mc_freq_list`: `mc_len` counted one by one, and the
   * positions where the frequencies of each enzyme start and stop.
   */
  method McBounds(ms: seq<int>) returns (mcLen: nat, starts: seq<nat>, stops: seq<nat>)
    ensures mcLen == McLen(ms)
    ensures |starts| == |ms| && |stops| == |ms|
    ensures forall i :: 0 <= i < |ms| ==> starts[i] == McLen(ms[..i]) && stops[i] == McLen(ms[..i + 1])
  {
    mcLen := 0;
    starts := [];
    stops := [];
    var k := 0;
    while k < |ms|
      invariant 0 <= k <= |ms|
      invariant mcLen == McLen(ms[..k])
      invariant |starts| == k && |stops| == k
      invariant forall i :: 0 <= i < k ==> starts[i] == McLen(ms[..i]) && stops[i] == McLen(ms[..i + 1])
    {
      starts := starts + [mcLen];
      var n := 0;
      while n < ms[k] + 1
        invariant 0 <= n <= GroupLen(ms[k])
        invariant mcLen == McLen(ms[..k]) + n
      {
        mcLen := mcLen + 1;
        n := n + 1;
      }
      McLenStep(ms, k);
      stops := stops + [mcLen];
      k := k + 1;
    }
    assert ms[..k] == ms;
  }

  // ---------------------------------------------------------------- frequency groups

  /** The values of enzyme `i`: `mc_freq_list[start_pos[i]:stop_pos[i]]`. */
  function Slice<T>(vals: seq<T>, ms: seq<int>, i: int): (g: seq<T>)
    requires |vals| == McLen(ms) && 0 <= i < |ms|
    ensures |g| == GroupLen(ms[i])
  {
    McLenStep(ms, i);
    McLenBounds(ms, i + 1);
    vals[McLen(ms[..i])..McLen(ms[..i + 1])]
  }

  /** Where the values of enzyme `i` sit among all values. */
  lemma SliceAt<T>(vals: seq<T>, ms: seq<int>, i: int)
    requires |vals| == McLen(ms) && 0 <= i < |ms|
    ensures McLen(ms[..i]) <= McLen(ms[..i + 1]) <= |vals|
    ensures Slice(vals, ms, i) == vals[McLen(ms[..i])..McLen(ms[..i + 1])]
  {
    McLenStep(ms, i);
    McLenBounds(ms, i + 1);
  }

  /** The values of every enzyme, in enzyme order. */
  function Slices<T>(vals: seq<T>, ms: seq<int>): (gs: seq<seq<T>>)
    requires |vals| == McLen(ms)
    ensures |gs| == |ms|
    ensures forall i :: 0 <= i < |ms| ==> gs[i] == Slice(vals, ms, i)
  {
    seq(|ms|, i requires 0 <= i < |ms| => Slice(vals, ms, i))
  }

  lemma {:induction false} SlicesPrefix<T>(vals: seq<T>, ms: seq<int>, k: int)
    requires |vals| == McLen(ms) && 0 <= k <= |ms|
    ensures McLen(ms[..k]) <= |vals|
    ensures A.Flatten(Slices(vals, ms)[..k]) == vals[..McLen(ms[..k])]
  {
    McLenBounds(ms, k);
    if k > 0 {
      SlicesPrefix(vals, ms, k - 1);
      var gs := Slices(vals, ms);
      var a, b := McLen(ms[..k - 1]), McLen(ms[..k]);
      SliceAt(vals, ms, k - 1);
      PrefixSnoc(gs, k - 1);
      A.FlattenSnoc(gs[..k - 1], gs[k - 1]);
      PrefixJoin(vals, a, b);
    }
  }

  /** Each value goes to exactly one enzyme: the groups, one after the other, are the values. */
  lemma SlicesFlatten<T>(vals: seq<T>, ms: seq<int>)
    requires |vals| == McLen(ms)
    ensures A.Flatten(Slices(vals, ms)) == vals
  {
    SlicesPrefix(vals, ms, |ms|);
    assert Slices(vals, ms)[..|ms|] == Slices(vals, ms);
    assert ms[..|ms|] == ms;
  }

  /** `str()` of each value, with `show` standing for Python's `str` of a float. */
  function Shown(g: seq<real>, show: real -> String): (t: seq<String>)
    ensures |t| == |g|
  {
    seq(|g|, j requires 0 <= j < |g| => show(g[j]))
  }

  /** One group as the parser writes it: `"[" + ",".join(...) + "]"`. */
  function Bracketed(g: seq<real>, show: real -> String): String
  {
    "[" + Join(Shown(g, show), ",") + "]"
  }

  /** The output of `parse_mc_freq_list`: the group text of each enzyme. */
  function Groups(vals: seq<real>, ms: seq<int>, show: real -> String): (r: seq<String>)
    requires |vals| == McLen(ms)
    ensures |r| == |ms|
  {
    seq(|ms|, i requires 0 <= i < |ms| => Bracketed(Slice(vals, ms, i), show))
  }

  /** The entries `int()` iterates over: the items of a list, the characters of a text. */
  function McItems(v: P.Value): (xs: seq<String>)
    ensures v.List? ==> xs == v.items
    ensures v.Text? ==> |xs| == |v.s| && forall i :: 0 <= i < |xs| ==> xs[i] == [v.s[i]]
  {
    match v
    case List(items) => items
    case Text(s) => seq(|s|, i requires 0 <= i < |s| => [s[i]])
  }

  /** The frequency option with every bracket removed, split on ','. */
  function FreqTokens(s: String): seq<String>
  {
    Split(RemoveChar(RemoveChar(s, '['), ']'), ',')
  }

  /**
   * `parse_mc_freq_list` on a text: the maximal missed cleavages and the
   * frequencies parsed, their count checked against `mc_len`, the frequencies
   * regrouped per enzyme.
   */
  function ParseMcFreqSpec(s: String, maxMcs: P.Value, show: real -> String): Result<seq<String>, CliError>
  {
    match A.ParseInts(McItems(maxMcs))
    case None => Err(ValueError)
    case Some(ms) =>
      match A.ParseReals(FreqTokens(s))
      case None => Err(ValueError)
      case Some(vals) =>
        if |vals| != McLen(ms) then Err(RuntimeError)
        else Ok(Groups(vals, ms, show))
  }

  /**
   * ValueError exactly when a maximal missed cleavage is no integer or a
   * frequency no float; otherwise RuntimeError exactly when the number of
   * frequencies is not the number the enzymes take; otherwise one group per
   * enzyme, group `i` holding that enzyme's share of the frequencies, and the
   * groups together holding all of them in order.
   */
  lemma ParseMcFreqCases(s: String, maxMcs: P.Value, show: real -> String)
    ensures var r := ParseMcFreqSpec(s, maxMcs, show);
      var ms := A.ParseInts(McItems(maxMcs));
      var vals := A.ParseReals(FreqTokens(s));
      (r == Err(ValueError) <==> ms.None? || vals.None?) &&
      (r == Err(RuntimeError) <==> ms.Some? && vals.Some? && |vals.value| != McLen(ms.value)) &&
      (r.Ok? ==>
         ms.Some? && vals.Some? && |vals.value| == McLen(ms.value) &&
         |r.value| == |ms.value| == |McItems(maxMcs)| &&
         A.Flatten(Slices(vals.value, ms.value)) == vals.value &&
         forall i :: 0 <= i < |r.value| ==>
           |Slices(vals.value, ms.value)[i]| == GroupLen(ms.value[i]) &&
           r.value[i] == Bracketed(Slices(vals.value, ms.value)[i], show))
  {
    var ms := A.ParseInts(McItems(maxMcs));
    var vals := A.ParseReals(FreqTokens(s));
    if ms.Some? && vals.Some? && |vals.value| == McLen(ms.value) {
      SlicesFlatten(vals.value, ms.value);
    }
  }

  /** The group loop of `parse_mc_freq_list`: the slices between the start and stop positions. */
  method RegroupFreqs(vals: seq<real>, ms: seq<int>, starts: seq<nat>, stops: seq<nat>, show: real -> String)
    returns (groups: seq<String>)
    requires |vals| == McLen(ms) && |starts| == |ms| && |stops| == |ms|
    requires forall i :: 0 <= i < |ms| ==> starts[i] == McLen(ms[..i]) && stops[i] == McLen(ms[..i + 1])
    ensures groups == Groups(vals, ms, show)
  {
    groups := [];
    var idx := 0;
    while idx < |starts|
      invariant 0 <= idx <= |starts|
      invariant groups == Groups(vals, ms, show)[..idx]
    {
      var g := Slice(vals, ms, idx);
      McLenStep(ms, idx);
      McLenBounds(ms, idx + 1);
      assert g == vals[starts[idx]..stops[idx]];
      var text := "[" + Join(Shown(g, show), ",") + "]";
      groups := groups + [text];
      idx := idx + 1;
    }
    assert Groups(vals, ms, show)[..idx] == Groups(vals, ms, show);
  }

  /** `parse_mc_freq_list` for a text option (the form the command line passes). */
  method ParseMcFreqList(s: String, maxMcs: P.Value, show: real -> String) returns (r: Result<seq<String>, CliError>)
    ensures r == ParseMcFreqSpec(s, maxMcs, show)
  {
    var parsedMcs := A.ParseInts(McItems(maxMcs));
    if parsedMcs.None? {
      return Err(ValueError);
    }
    var ms := parsedMcs.value;
    var mcLen, starts, stops := McBounds(ms);
    var tokens := FreqTokens(s);
    var parsedVals := A.ParseReals(tokens);
    if parsedVals.None? {
      return Err(ValueError);
    }
    var vals := parsedVals.value;
    if |vals| != mcLen {
      return Err(RuntimeError);
    }
    var groups := RegroupFreqs(vals, ms, starts, stops, show);
    return Ok(groups);
  }

  // ---------------------------------------------------------------- the groups read back

  /** `show` writes `v` as a bracket- and comma-free text that `float()` reads back as `v`. */
  predicate ShowsBack(show: real -> String, v: real)
  {
    ParseReal(show(v)) == Some(v) && ',' !in show(v) && '[' !in show(v) && ']' !in show(v)
  }

  /** The text with both kinds of brackets removed, as the parser does first. */
  function Unbracketed(t: String): String
  {
    RemoveChar(RemoveChar(t, '['), ']')
  }

  lemma UnbracketedAppend(a: String, b: String)
    ensures Unbracketed(a + b) == Unbracketed(a) + Unbracketed(b)
  {
    RemoveCharAppend(a, b, '[');
    RemoveCharAppend(RemoveChar(a, '['), RemoveChar(b, '['), ']');
  }

  lemma UnbracketedFree(t: String)
    requires '[' !in t && ']' !in t
    ensures Unbracketed(t) == t
  {
    RemoveCharAbsent(t, '[');
    RemoveCharAbsent(t, ']');
  }

  /** Removing the brackets of a join removes them from each piece. */
  lemma {:induction false} UnbracketedJoin(ts: seq<String>)
    ensures Unbracketed(Join(ts, ",")) == Join(seq(|ts|, i requires 0 <= i < |ts| => Unbracketed(ts[i])), ",")
  {
    var us := seq(|ts|, i requires 0 <= i < |ts| => Unbracketed(ts[i]));
    if |ts| == 1 {
    } else if |ts| > 1 {
      UnbracketedJoin(ts[1..]);
      UnbracketedAppend(ts[0] + ",", Join(ts[1..], ","));
      UnbracketedAppend(ts[0], ",");
      UnbracketedFree(",");
      assert us[1..] == seq(|ts[1..]|, i requires 0 <= i < |ts[1..]| => Unbracketed(ts[1..][i]));
    } else {
      UnbracketedFree([]);
    }
  }

  /** The text of one group with its brackets removed: its values joined with ','. */
  lemma UnbracketedGroup(g: seq<real>, show: real -> String)
    requires forall j :: 0 <= j < |g| ==> ShowsBack(show, g[j])
    ensures Unbracketed(Bracketed(g, show)) == Join(Shown(g, show), ",")
  {
    var inner := Join(Shown(g, show), ",");
    NoBrackets(Shown(g, show));
    UnbracketedAppend("[" + inner, "]");
    UnbracketedAppend("[", inner);
    UnbracketedFree(inner);
  }

  lemma {:induction false} NoBrackets(xs: seq<String>)
    requires forall j :: 0 <= j < |xs| ==> '[' !in xs[j] && ']' !in xs[j]
    ensures '[' !in Join(xs, ",") && ']' !in Join(xs, ",")
  {
    if |xs| > 1 {
      NoBrackets(xs[1..]);
    }
  }

  /** Joining joins of non-empty lists is joining all their pieces. */
  lemma {:induction false} JoinFlatten(pss: seq<seq<String>>, k: int)
    requires 1 <= k <= |pss|
    requires forall i :: 0 <= i < |pss| ==> |pss[i]| >= 1
    ensures |A.Flatten(pss[..k])| >= 1
    ensures Join(seq(k, i requires 0 <= i < k => Join(pss[i], ",")), ",") == Join(A.Flatten(pss[..k]), ",")
  {
    var js := seq(k, i requires 0 <= i < k => Join(pss[i], ","));
    assert pss[..k][..k - 1] == pss[..k - 1];
    if k == 1 {
      assert A.Flatten(pss[..1]) == pss[0] by {
        assert A.Flatten(pss[..0]) == [];
      }
    } else {
      JoinFlatten(pss, k - 1);
      var init := seq(k - 1, i requires 0 <= i < k - 1 => Join(pss[i], ","));
      assert js == init + [Join(pss[k - 1], ",")];
      JoinAppend(init, [Join(pss[k - 1], ",")], ",");
      JoinAppend(A.Flatten(pss[..k - 1]), pss[k - 1], ",");
    }
  }

  lemma {:induction false} FlattenShown(gs: seq<seq<real>>, show: real -> String)
    ensures A.Flatten(seq(|gs|, i requires 0 <= i < |gs| => Shown(gs[i], show))) == Shown(A.Flatten(gs), show)
  {
    if gs != [] {
      var n := |gs| - 1;
      var ss := seq(|gs|, i requires 0 <= i < |gs| => Shown(gs[i], show));
      FlattenShown(gs[..n], show);
      assert ss[..n] == seq(|gs[..n]|, i requires 0 <= i < |gs[..n]| => Shown(gs[..n][i], show));
      assert Shown(A.Flatten(gs), show) == Shown(A.Flatten(gs[..n]), show) + Shown(gs[n], show);
    }
  }

  lemma ParseRealsShown(vals: seq<real>, show: real -> String)
    requires forall j :: 0 <= j < |vals| ==> ShowsBack(show, vals[j])
    ensures A.ParseReals(Shown(vals, show)) == Some(vals)
  {
    var t := Shown(vals, show);
    var os := seq(|t|, i requires 0 <= i < |t| => ParseReal(t[i]));
    A.AllSomeSome(os);
    assert A.ParseReals(t) == A.AllSome(os);
    assert A.AllSome(os).value == vals;
  }

  /** Value `j` of group `i` is value `j` after the groups before it. */
  lemma SliceElem<T>(vals: seq<T>, ms: seq<int>, i: int, j: int)
    requires |vals| == McLen(ms) && 0 <= i < |ms| && 0 <= j < GroupLen(ms[i])
    ensures McLen(ms[..i]) + j < |vals|
    ensures Slice(vals, ms, i)[j] == vals[McLen(ms[..i]) + j]
  {
    McLenStep(ms, i);
    McLenBounds(ms, i + 1);
  }

  lemma SliceShowsBack(vals: seq<real>, ms: seq<int>, i: int, show: real -> String)
    requires |vals| == McLen(ms) && 0 <= i < |ms|
    requires forall j :: 0 <= j < |vals| ==> ShowsBack(show, vals[j])
    ensures forall j :: 0 <= j < |Slice(vals, ms, i)| ==> ShowsBack(show, Slice(vals, ms, i)[j])
  {
    var g := Slice(vals, ms, i);
    forall j | 0 <= j < |g| ensures ShowsBack(show, g[j]) {
      SliceElem(vals, ms, i, j);
    }
  }

  /**
   * The groups joined with ',' parse back to the same groups, when every enzyme
   * takes at least one frequency and `str()` of each frequency reads back as it.
   * (With an empty group, "[]" leaves an empty token and float() fails.)
   */
  lemma ParseMcFreqRoundTrip(s: String, maxMcs: P.Value, show: real -> String)
    requires ParseMcFreqSpec(s, maxMcs, show).Ok?
    requires A.ParseInts(McItems(maxMcs)).Some?
    requires var ms := A.ParseInts(McItems(maxMcs)).value;
      |ms| >= 1 && forall i :: 0 <= i < |ms| ==> ms[i] >= 0
    requires var vals := A.ParseReals(FreqTokens(s));
      vals.Some? && forall j :: 0 <= j < |vals.value| ==> ShowsBack(show, vals.value[j])
    ensures ParseMcFreqSpec(Join(ParseMcFreqSpec(s, maxMcs, show).value, ","), maxMcs, show) ==
            ParseMcFreqSpec(s, maxMcs, show)
  {
    var ms := A.ParseInts(McItems(maxMcs)).value;
    var vals := A.ParseReals(FreqTokens(s)).value;
    var groups := Groups(vals, ms, show);
    var gs := Slices(vals, ms);
    var pss := seq(|gs|, i requires 0 <= i < |gs| => Shown(gs[i], show));
    forall i | 0 <= i < |gs| ensures |pss[i]| >= 1 && Unbracketed(groups[i]) == Join(pss[i], ",") {
      SliceShowsBack(vals, ms, i, show);
      UnbracketedGroup(gs[i], show);
    }
    UnbracketedJoin(groups);
    JoinFlatten(pss, |pss|);
    assert pss[..|pss|] == pss;
    assert seq(|groups|, i requires 0 <= i < |groups| => Unbracketed(groups[i])) ==
           seq(|pss|, i requires 0 <= i < |pss| => Join(pss[i], ","));
    FlattenShown(gs, show);
    SlicesFlatten(vals, ms);
    var all := Shown(vals, show);
    assert Unbracketed(Join(groups, ",")) == Join(all, ",");
    SplitJoin(all, ',') by {
      assert |all| >= 1 by {
        McLenStep(ms, 0);
        McLenBounds(ms, 1);
      }
    }
    assert FreqTokens(Join(groups, ",")) == all;
    ParseRealsShown(vals, show);
  }

  // ---------------------------------------------------------------- overriding the parameters

  /** The options of `main` that override list parameters and the sampling basis; "" when not given. */
  datatype Options = Options(enzymes: String, mc: String, mcFreq: String, numPeps: String, fracPeps: String)

  /** The parameter values after the overrides, and the exception raised on the way, if any. */
  datatype Applied = Applied(values: P.Values, error: Option<CliError>)

  /** The maximal missed cleavages once the `--mc` option, if given, replaced them. */
  function MaxMCsAfter(vs: P.Values, o: Options): P.Value
  {
    if o.mc != "" then P.List(ParseCommaList(o.mc)) else vs.maxMCs
  }

  /** `parse_mc_freq_list` of the `--mc_freq` option, grouped by the maximal missed cleavages then in force. */
  function FreqOverride(vs: P.Values, o: Options, show: real -> String): Result<seq<String>, CliError>
  {
    ParseMcFreqSpec(o.mcFreq, MaxMCsAfter(vs, o), show)
  }

  /** The exception the overrides stop at: a frequency option that does not parse, or both sampling options. */
  function OverrideError(vs: P.Values, o: Options, show: real -> String): Option<CliError>
  {
    var freq := FreqOverride(vs, o, show);
    if o.mcFreq != "" && freq.Err? then Some(freq.error)
    else if o.numPeps != "" && o.fracPeps != "" then Some(RuntimeError)
    else None
  }

  /**
   * The overrides in `main`'s order: enzymes, maximal missed cleavages, their
   * frequencies, then the sampling basis; each assignment happens only when
   * the run has not stopped before it.
   */
  function Overrides(vs: P.Values, o: Options, show: real -> String): Applied
  {
    var freq := FreqOverride(vs, o, show);
    var error := OverrideError(vs, o, show);
    var number := error.None? && o.numPeps != "";
    var coverage := error.None? && o.numPeps == "" && o.fracPeps != "";
    Applied(
      vs.(proteases := if o.enzymes != "" then P.List(ParseCommaList(o.enzymes)) else vs.proteases,
          maxMCs := MaxMCsAfter(vs, o),
          freqMCs := if o.mcFreq != "" && freq.Ok? then P.List(freq.value) else vs.freqMCs,
          peptidesSamplingSize := if number then P.List(ParseCommaList(o.numPeps)) else vs.peptidesSamplingSize,
          pepLevelProteomeCov := if coverage then P.List(ParseCommaList(o.fracPeps)) else vs.pepLevelProteomeCov,
          samplingSizeBasedOn :=
            if number then P.Text("number") else if coverage then P.Text("coverage") else vs.samplingSizeBasedOn),
      error)
  }

  /** The attributes the overrides may change. */
  predicate Overridable(a: P.Attr)
  {
    P.IsListAttr(a) || a == P.SamplingSizeBasedOn
  }

  /** No override touches an attribute other than the five lists and the sampling basis. */
  lemma OverridesFrame(vs: P.Values, o: Options, show: real -> String)
    ensures forall a: P.Attr :: !Overridable(a) ==> P.Get(Overrides(vs, o, show).values, a) == P.Get(vs, a)
  {
    var r := Overrides(vs, o, show).values;
    forall a: P.Attr | !Overridable(a) ensures P.Get(r, a) == P.Get(vs, a) {
      match a
      case CruxPath => {}
      case _ => {}
    }
  }

  /**
   * The sampling basis: both a number and a fraction given is a RuntimeError
   * (once the frequencies parsed); a number alone sets the sizes and the basis
   * "number", a fraction alone the coverages and the basis "coverage", and
   * neither keeps the basis.
   */
  lemma OverridesBasis(vs: P.Values, o: Options, show: real -> String)
    ensures var r := Overrides(vs, o, show);
      var freqOk := o.mcFreq == "" || FreqOverride(vs, o, show).Ok?;
      (freqOk && o.numPeps != "" && o.fracPeps != "" ==> r.error == Some(RuntimeError)) &&
      (r.error.None? <==> freqOk && (o.numPeps == "" || o.fracPeps == "")) &&
      (r.error.None? && o.numPeps != "" ==>
         r.values.samplingSizeBasedOn == P.Text("number") &&
         r.values.peptidesSamplingSize.List? && Join(r.values.peptidesSamplingSize.items, ",") == o.numPeps &&
         r.values.pepLevelProteomeCov == vs.pepLevelProteomeCov) &&
      (r.error.None? && o.fracPeps != "" ==>
         r.values.samplingSizeBasedOn == P.Text("coverage") &&
         r.values.pepLevelProteomeCov.List? && Join(r.values.pepLevelProteomeCov.items, ",") == o.fracPeps &&
         r.values.peptidesSamplingSize == vs.peptidesSamplingSize) &&
      (o.numPeps == "" && o.fracPeps == "" ==>
         r.values.samplingSizeBasedOn == vs.samplingSizeBasedOn &&
         r.values.peptidesSamplingSize == vs.peptidesSamplingSize &&
         r.values.pepLevelProteomeCov == vs.pepLevelProteomeCov)
  {
  }

  /**
   * The list overrides: a given enzyme or missed-cleavage option replaces its
   * list by its comma pieces, and a given frequency option, when it parses,
   * replaces the frequencies by one group per entry of the maximal missed
   * cleavages then in force.
   */
  lemma OverridesLists(vs: P.Values, o: Options, show: real -> String)
    ensures var r := Overrides(vs, o, show).values;
      (r.proteases == if o.enzymes != "" then P.List(ParseCommaList(o.enzymes)) else vs.proteases) &&
      (r.maxMCs == if o.mc != "" then P.List(ParseCommaList(o.mc)) else vs.maxMCs) &&
      (o.mcFreq == "" ==> r.freqMCs == vs.freqMCs) &&
      (o.mcFreq != "" && Overrides(vs, o, show).error.None? ==>
         r.freqMCs.List? && |r.freqMCs.items| == |McItems(r.maxMCs)|)
  {
    if o.mcFreq != "" {
      ParseMcFreqCases(o.mcFreq, MaxMCsAfter(vs, o), show);
    }
  }

  /**
   * `main` between loading and running: the list and sampling-basis overrides
   * written into the parameter object, stopping at the first exception.
   */
  method ApplyOverrides(p: P.Parameter, o: Options, show: real -> String) returns (error: Option<CliError>)
    modifies p
    ensures Applied(p.values, error) == Overrides(old(p.values), o, show)
  {
    var vs := p.values;
    ghost var v0 := vs;
    if o.enzymes != "" {
      vs := vs.(proteases := P.List(ParseCommaList(o.enzymes)));
    }
    if o.mc != "" {
      vs := vs.(maxMCs := P.List(ParseCommaList(o.mc)));
    }
    assert vs.maxMCs == MaxMCsAfter(v0, o);
    if o.mcFreq != "" {
      var freq := ParseMcFreqList(o.mcFreq, vs.maxMCs, show);
      assert freq == FreqOverride(v0, o, show);
      if freq.Err? {
        p.values := vs;
        return Some(freq.error);
      }
      vs := vs.(freqMCs := P.List(freq.value));
    }
    if o.numPeps != "" && o.fracPeps != "" {
      p.values := vs;
      return Some(RuntimeError);
    } else if o.numPeps != "" {
      vs := vs.(peptidesSamplingSize := P.List(ParseCommaList(o.numPeps)));
      vs := vs.(samplingSizeBasedOn := P.Text("number"));
    } else if o.fracPeps != "" {
      vs := vs.(pepLevelProteomeCov := P.List(ParseCommaList(o.fracPeps)));
      vs := vs.(samplingSizeBasedOn := P.Text("coverage"));
    }
    p.values := vs;
    return None;
  }

  // ---------------------------------------------------------------- mode selection

  /** The three tasks a run can perform. */
  datatype Task = RunExport | RunDigest | RunAnalysis

  /** Position of a task in the order `main` runs them. */
  function Rank(t: Task): nat
  {
    match t
    case RunExport => 0
    case RunDigest => 1
    case RunAnalysis => 2
  }

  /** Whether the flag of a task was given. */
  predicate Flagged(t: Task, exported: bool, digest: bool, analysis: bool)
  {
    match t
    case RunExport => exported
    case RunDigest => digest
    case RunAnalysis => analysis
  }

  /** The tasks `main` runs for the flags `-e`, `-d` and `-a`, in the order it runs them. */
  function Tasks(exported: bool, digest: bool, analysis: bool): (r: seq<Task>)
    ensures forall i, j :: 0 <= i < j < |r| ==> Rank(r[i]) < Rank(r[j])
  {
    (if exported then [RunExport] else []) +
    (if digest then [RunDigest] else []) +
    (if analysis then [RunAnalysis] else []) +
    (if !exported && !digest && !analysis then [RunExport, RunDigest, RunAnalysis] else [])
  }

  /**
   * With no flag every task runs, export, digest then analysis; with some flag
   * exactly the flagged tasks run; each task runs at most once.
   */
  lemma TasksSelected(exported: bool, digest: bool, analysis: bool)
    ensures !exported && !digest && !analysis ==> Tasks(exported, digest, analysis) == [RunExport, RunDigest, RunAnalysis]
    ensures exported || digest || analysis ==>
      forall t: Task :: t in Tasks(exported, digest, analysis) <==> Flagged(t, exported, digest, analysis)
    ensures forall i, j :: 0 <= i < j < |Tasks(exported, digest, analysis)| ==>
      Tasks(exported, digest, analysis)[i] != Tasks(exported, digest, analysis)[j]
  {
    var r := Tasks(exported, digest, analysis);
    forall i, j | 0 <= i < j < |r| ensures r[i] != r[j] {
      assert Rank(r[i]) < Rank(r[j]);
    }
  }
}
