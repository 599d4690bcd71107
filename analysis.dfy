/**
 * Stratum planning for the peptide sampling simulation: the (protease, missed
 * cleavages) strata, their frequencies, the number of peptides to draw from each
 * stratum, the draw itself as a choice of distinct peptide IDs, and the 0/1
 * sampling columns built from the drawn IDs.
 */
module Analysis {
  import opened Wrappers
  import opened Strings

  /** The Python exceptions the planning steps can raise. */
  datatype AnalysisError =
    | ValueError      // int() / float() of a malformed string, or a column of the wrong length
    | RuntimeError    // the explicit checks of the script
    | IntCastError    // `astype('int')` of a NaN or infinite value
    | AttributeError  // a plan without `sampling_size` (a basis other than "number" or "coverage")

  /** One stratum of the sampling plan. */
  datatype Stratum = Stratum(enzyme: String, mc: int)

  /** `int(x)` of a float: truncation toward zero. */
  function Trunc(x: real): (t: int)
    ensures x >= 0.0 ==> 0 <= t && t as real <= x < t as real + 1.0
    ensures x < 0.0 ==> t <= 0 && t as real - 1.0 < x <= t as real
  {
    if x >= 0.0 then x.Floor else -((-x).Floor)
  }

  // ================================================================ protease_mc_expansion

  /** `[int(i) for i in xs]`: `None` when some entry is not an integer literal. */
  function ParseInts(xs: seq<String>): (r: Option<seq<int>>)
    ensures r.Some? ==> |r.value| == |xs|
  {
    AllSome(seq(|xs|, i requires 0 <= i < |xs| => ParseInt(xs[i])))
  }

  /** The strata of one protease: missed cleavages 0, 1, ..., m. */
  function StrataOf(p: String, m: int): (r: seq<Stratum>)
    ensures |r| == if m >= 0 then m + 1 else 0
    ensures forall i :: 0 <= i < |r| ==> r[i] == Stratum(p, i)
  {
    if m < 0 then [] else StrataOf(p, m - 1) + [Stratum(p, m)]
  }

  /** The plan for the proteases paired with their maximum missed cleavages (as `zip` pairs them). */
  function Expansion(proteases: seq<String>, mcs: seq<int>): seq<Stratum>
  {
    if proteases == [] || mcs == [] then []
    else StrataOf(proteases[0], mcs[0]) + Expansion(proteases[1..], mcs[1..])
  }

  /** Moving the strata of pair `j` from the pending pairs to the emitted list. */
  lemma ExpansionStep(proteases: seq<String>, mcs: seq<int>, j: nat, done: seq<Stratum>)
    requires j < |proteases| && j < |mcs|
    ensures done + StrataOf(proteases[j], mcs[j]) + Expansion(proteases[j + 1..], mcs[j + 1..])
         == done + Expansion(proteases[j..], mcs[j..])
  {
    assert proteases[j..][1..] == proteases[j + 1..] && mcs[j..][1..] == mcs[j + 1..];
  }

  /** The integers parse exactly when every entry does, and they are those entries' values. */
  lemma ParseIntsSome(xs: seq<String>)
    ensures ParseInts(xs).Some? <==> forall i :: 0 <= i < |xs| ==> ParseInt(xs[i]).Some?
    ensures ParseInts(xs).Some? ==> forall i :: 0 <= i < |xs| ==> ParseInts(xs).value[i] == ParseInt(xs[i]).value
  {
    var os := seq(|xs|, i requires 0 <= i < |xs| => ParseInt(xs[i]));
    AllSomeSome(os);
    assert forall i :: 0 <= i < |xs| ==> os[i] == ParseInt(xs[i]);
  }

  /** Number of strata a maximum of `m` missed cleavages contributes. */
  function RowsFor(m: int): nat
  {
    if m >= 0 then m + 1 else 0
  }

  function TotalRows(proteases: seq<String>, mcs: seq<int>): nat
  {
    if proteases == [] || mcs == [] then 0
    else RowsFor(mcs[0]) + TotalRows(proteases[1..], mcs[1..])
  }

  /**
   * `protease_mc_expansion`: the integer conversion of the maximum missed cleavages,
   * then the loops emitting (p, 0) ... (p, m) for every pair.
   */
  method ProteaseMcExpansion(proteases: seq<String>, mcList: seq<String>) returns (r: Result<seq<Stratum>, AnalysisError>)
    ensures r.Err? <==> ParseInts(mcList).None?
    ensures r.Ok? ==> r.value == Expansion(proteases, ParseInts(mcList).value)
  {
    var parsed := ParseInts(mcList);
    if parsed.None? {
      return Err(ValueError);
    }
    var expanded := ExpandPairs(proteases, parsed.value);
    r := Ok(expanded);
  }

  /** The nested loop over the `zip` pairs and their missed-cleavage counts 0 ... m. */
  method ExpandPairs(proteases: seq<String>, mcs: seq<int>) returns (expanded: seq<Stratum>)
    ensures expanded == Expansion(proteases, mcs)
  {
    expanded := [];
    var j := 0;
    while j < |proteases| && j < |mcs|
      invariant 0 <= j <= |proteases| && j <= |mcs|
      invariant expanded + Expansion(proteases[j..], mcs[j..]) == Expansion(proteases, mcs)
    {
      var counter := 0;
      ghost var before := expanded;
      while counter < mcs[j] + 1
        invariant 0 <= counter && (counter <= mcs[j] + 1 || counter == 0)
        invariant expanded == before + StrataOf(proteases[j], counter - 1)
      {
        expanded := expanded + [Stratum(proteases[j], counter)];
        counter := counter + 1;
      }
      assert expanded == before + StrataOf(proteases[j], mcs[j]);
      ExpansionStep(proteases, mcs, j, before);
      j := j + 1;
    }
    assert Expansion(proteases[j..], mcs[j..]) == [];
  }

  /** The plan has one stratum per missed-cleavage count of every paired protease: Σ (m + 1). */
  lemma {:induction false} ExpansionCount(proteases: seq<String>, mcs: seq<int>)
    ensures |Expansion(proteases, mcs)| == TotalRows(proteases, mcs)
  {
    if proteases != [] && mcs != [] {
      ExpansionCount(proteases[1..], mcs[1..]);
    }
  }

  /** (p, c) is a stratum iff some paired protease p has maximum m with 0 <= c <= m. */
  lemma {:induction false} ExpansionMembers(proteases: seq<String>, mcs: seq<int>, p: String, c: int)
    ensures Stratum(p, c) in Expansion(proteases, mcs) <==>
      exists i :: 0 <= i < |proteases| && i < |mcs| && proteases[i] == p && 0 <= c <= mcs[i]
  {
    if proteases != [] && mcs != [] {
      ExpansionMembers(proteases[1..], mcs[1..], p, c);
      var head := StrataOf(proteases[0], mcs[0]);
      assert Stratum(p, c) in head <==> proteases[0] == p && 0 <= c <= mcs[0] by {
        if Stratum(p, c) in head {
          var k :| 0 <= k < |head| && head[k] == Stratum(p, c);
        }
        if proteases[0] == p && 0 <= c <= mcs[0] {
          assert head[c] == Stratum(p, c);
        }
      }
      if exists i :: 0 <= i < |proteases| && i < |mcs| && proteases[i] == p && 0 <= c <= mcs[i] {
        var i :| 0 <= i < |proteases| && i < |mcs| && proteases[i] == p && 0 <= c <= mcs[i];
        if i > 0 {
          assert proteases[1..][i - 1] == p && mcs[1..][i - 1] == mcs[i];
        }
      }
      if exists i :: 0 <= i < |proteases[1..]| && i < |mcs[1..]| && proteases[1..][i] == p && 0 <= c <= mcs[1..][i] {
        var i :| 0 <= i < |proteases[1..]| && i < |mcs[1..]| && proteases[1..][i] == p && 0 <= c <= mcs[1..][i];
        assert proteases[i + 1] == p && mcs[i + 1] == mcs[1..][i];
      }
    }
  }

  // ================================================================ get_numeric_list

  /** The tokens `get_numeric_list` walks: the list joined with "," and split on ",". */
  function NumericTokens(list: seq<String>): seq<String>
  {
    Split(Join(list, ","), ',')
  }

  /** The token after `.replace("[", "")`, applied only when it starts with "[". */
  function DropOpen(t: String): String
  {
    if StartsWith(t, "[") then RemoveChar(t, '[') else t
  }

  /** The token after both replacements; "]" is looked for after "[" was removed. */
  function DropBrackets(t: String): String
  {
    var u := DropOpen(t);
    if EndsWith(u, "]") then RemoveChar(u, ']') else u
  }

  /** A token that opens a group. */
  predicate Opens(t: String)
  {
    StartsWith(t, "[")
  }

  /** A token that closes a group. */
  predicate Closes(t: String)
  {
    EndsWith(DropOpen(t), "]")
  }

  function OpenFlags(ts: seq<String>): (r: seq<bool>)
    ensures |r| == |ts| && forall i :: 0 <= i < |ts| ==> r[i] == Opens(ts[i])
  {
    seq(|ts|, i requires 0 <= i < |ts| => Opens(ts[i]))
  }

  function CloseFlags(ts: seq<String>): (r: seq<bool>)
    ensures |r| == |ts| && forall i :: 0 <= i < |ts| ==> r[i] == Closes(ts[i])
  {
    seq(|ts|, i requires 0 <= i < |ts| => Closes(ts[i]))
  }

  /** The positions whose flag is set, in increasing order. */
  function Marks(fs: seq<bool>): (r: seq<nat>)
    ensures |r| <= |fs|
    ensures forall k :: 0 <= k < |r| ==> r[k] < |fs|
  {
    if fs == [] then [] else Marks(fs[..|fs| - 1]) + (if fs[|fs| - 1] then [|fs| - 1] else [])
  }

  /** `start_pos_list` and `end_pos_list`. */
  function OpenIndices(ts: seq<String>): seq<nat>
  {
    Marks(OpenFlags(ts))
  }

  function CloseIndices(ts: seq<String>): seq<nat>
  {
    Marks(CloseFlags(ts))
  }

  /** All the values, or `None` as soon as one of them is missing. */
  function AllSome<T>(os: seq<Option<T>>): (r: Option<seq<T>>)
    ensures r.Some? ==> |r.value| == |os|
  {
    if os == [] then Some([])
    else
      match AllSome(os[..|os| - 1])
      case None => None
      case Some(a) => (match os[|os| - 1] case None => None case Some(b) => Some(a + [b]))
  }

  /** The values are all there exactly when each one is, and they are those values. */
  lemma {:induction false} AllSomeSome<T>(os: seq<Option<T>>)
    ensures AllSome(os).Some? <==> forall i :: 0 <= i < |os| ==> os[i].Some?
    ensures AllSome(os).Some? ==> forall i :: 0 <= i < |os| ==> AllSome(os).value[i] == os[i].value
  {
    if os != [] {
      var init := os[..|os| - 1];
      AllSomeSome(init);
      assert forall i :: 0 <= i < |init| ==> init[i] == os[i];
    }
  }

  /** `float()` of one token once its brackets are removed. */
  function TokenValue(t: String): Option<real>
  {
    ParseReal(DropBrackets(t))
  }

  function TokenOptions(ts: seq<String>): (r: seq<Option<real>>)
    ensures |r| == |ts| && forall i :: 0 <= i < |ts| ==> r[i] == TokenValue(ts[i])
  {
    seq(|ts|, i requires 0 <= i < |ts| => TokenValue(ts[i]))
  }

  /** `value_list`: every token's value, or `None` when `float()` rejects one of them. */
  function TokenValues(ts: seq<String>): (r: Option<seq<real>>)
    ensures r.Some? ==> |r.value| == |ts|
  {
    AllSome(TokenOptions(ts))
  }

  /** The tokens parse exactly when each of them does, and the values are theirs. */
  lemma TokenValuesSome(ts: seq<String>)
    ensures TokenValues(ts).Some? <==> forall i :: 0 <= i < |ts| ==> TokenValue(ts[i]).Some?
    ensures TokenValues(ts).Some? ==> forall i :: 0 <= i < |ts| ==> TokenValues(ts).value[i] == TokenValue(ts[i]).value
  {
    AllSomeSome(TokenOptions(ts));
  }

  /** Python's `v[a:b]` for a non-negative start. */
  function Slice(v: seq<real>, a: nat, b: int): (r: seq<real>)
    ensures |r| <= |v|
  {
    if a >= |v| || b <= a then []
    else if b >= |v| then v[a..]
    else v[a..b]
  }

  /** The slices from each opening index through its paired closing index, flattened. */
  function Bracketed(v: seq<real>, opens: seq<nat>, closes: seq<nat>): seq<real>
  {
    if opens == [] || closes == [] then []
    else Slice(v, opens[0], closes[0] + 1) + Bracketed(v, opens[1..], closes[1..])
  }

  /** What `get_numeric_list` returns or raises for a list of strings. */
  function NumericList(list: seq<String>): Result<seq<real>, AnalysisError>
  {
    var ts := NumericTokens(list);
    match TokenValues(ts)
    case None => Err(ValueError)
    case Some(v) => Ok(Bracketed(v, OpenIndices(ts), CloseIndices(ts)))
  }

  /** A list whose tokens all parse yields a value; one token `float()` rejects raises. */
  lemma NumericListFails(list: seq<String>)
    ensures NumericList(list).Err? <==> exists i :: 0 <= i < |NumericTokens(list)| && TokenValue(NumericTokens(list)[i]).None?
  {
    TokenValuesSome(NumericTokens(list));
  }

  /** Without an opening bracket there is no group, so nothing is returned. */
  lemma NumericListNoGroups(list: seq<String>)
    requires NumericList(list).Ok?
    requires forall i :: 0 <= i < |NumericTokens(list)| ==> !Opens(NumericTokens(list)[i])
    ensures NumericList(list).value == []
  {
    var fs := OpenFlags(NumericTokens(list));
    MarksNone(fs);
  }

  lemma {:induction false} MarksNone(fs: seq<bool>)
    requires forall i :: 0 <= i < |fs| ==> !fs[i]
    ensures Marks(fs) == []
  {
    if fs != [] {
      MarksNone(fs[..|fs| - 1]);
    }
  }

  /**
   * `get_numeric_list` for a list input: the tokens of the joined list, then the
   * scan and the slicing below.
   */
  method GetNumericList(list: seq<String>) returns (r: Result<seq<real>, AnalysisError>)
    ensures r == NumericList(list)
  {
    var tokens := Split(Join(list, ","), ',');
    var scanned := ScanTokens(tokens);
    if scanned.None? {
      return Err(ValueError);
    }
    var (startPos, endPos, values) := scanned.value;
    var groups := SliceGroups(values, startPos, endPos);
    var flat := FlattenGroups(groups);
    r := Ok(flat);
  }

  /**
   * The first pass of `get_numeric_list`: the positions of the opening and closing
   * brackets and the value of every token, or `None` at the first token `float()` rejects.
   */
  method ScanTokens(tokens: seq<String>) returns (r: Option<(seq<nat>, seq<nat>, seq<real>)>)
    ensures r.None? <==> TokenValues(tokens).None?
    ensures r.Some? ==> r.value == (OpenIndices(tokens), CloseIndices(tokens), TokenValues(tokens).value)
  {
    var startPos: seq<nat> := [];
    var endPos: seq<nat> := [];
    var values: seq<real> := [];
    var count := 0;
    while count < |tokens|
      invariant 0 <= count <= |tokens|
      invariant startPos == OpenIndices(tokens[..count])
      invariant endPos == CloseIndices(tokens[..count])
      invariant TokenValues(tokens[..count]) == Some(values)
    {
      ScanStep(tokens, count);
      var opens, closes, value := ScanToken(tokens[count]);
      if opens {
        startPos := startPos + [count];
      }
      if closes {
        endPos := endPos + [count];
      }
      if value.None? {
        TokenValuesNoneExtends(tokens, count + 1);
        return None;
      }
      values := values + [value.value];
      count := count + 1;
    }
    assert tokens[..count] == tokens;
    r := Some((startPos, endPos, values));
  }

  /** The body of the first pass for one token: whether it opens or closes a group, and its value. */
  method ScanToken(t: String) returns (opens: bool, closes: bool, value: Option<real>)
    ensures opens == Opens(t) && closes == Closes(t) && value == TokenValue(t)
  {
    var mcFreq := t;
    opens := StartsWith(mcFreq, "[");
    if opens {
      mcFreq := RemoveChar(mcFreq, '[');
    }
    closes := EndsWith(mcFreq, "]");
    if closes {
      mcFreq := RemoveChar(mcFreq, ']');
    }
    value := ParseReal(mcFreq);
  }

  /** One token more in the scan. */
  lemma ScanStep(ts: seq<String>, n: nat)
    requires n < |ts|
    ensures OpenIndices(ts[..n + 1]) == OpenIndices(ts[..n]) + (if Opens(ts[n]) then [n] else [])
    ensures CloseIndices(ts[..n + 1]) == CloseIndices(ts[..n]) + (if Closes(ts[n]) then [n] else [])
    ensures TokenValues(ts[..n + 1]) ==
      match TokenValues(ts[..n])
      case None => None
      case Some(a) => (match TokenValue(ts[n]) case None => None case Some(b) => Some(a + [b]))
  {
    assert ts[..n + 1][..n] == ts[..n];
    assert OpenFlags(ts[..n + 1])[..n] == OpenFlags(ts[..n]);
    assert CloseFlags(ts[..n + 1])[..n] == CloseFlags(ts[..n]);
    assert TokenOptions(ts[..n + 1])[..n] == TokenOptions(ts[..n]);
  }

  /** A token `float()` rejects fails the whole list. */
  lemma TokenValuesNoneExtends(ts: seq<String>, n: nat)
    requires n <= |ts| && TokenValues(ts[..n]).None?
    ensures TokenValues(ts).None?
  {
    TokenValuesSome(ts[..n]);
    TokenValuesSome(ts);
    var i :| 0 <= i < n && TokenValue(ts[..n][i]).None?;
    assert ts[..n][i] == ts[i];
  }

  /** The second pass: one slice per paired opening and closing index. */
  method SliceGroups(values: seq<real>, startPos: seq<nat>, endPos: seq<nat>) returns (groups: seq<seq<real>>)
    ensures Flatten(groups) == Bracketed(values, startPos, endPos)
  {
    groups := [];
    var k := 0;
    while k < |startPos| && k < |endPos|
      invariant 0 <= k <= |startPos| && k <= |endPos|
      invariant Flatten(groups) + Bracketed(values, startPos[k..], endPos[k..]) == Bracketed(values, startPos, endPos)
    {
      var group := Slice(values, startPos[k], endPos[k] + 1);
      BracketedStep(values, startPos, endPos, k);
      FlattenSnoc(groups, group);
      AppendAssoc(Flatten(groups), group, Bracketed(values, startPos[k + 1..], endPos[k + 1..]));
      groups := groups + [group];
      k := k + 1;
    }
  }

  lemma BracketedStep(v: seq<real>, opens: seq<nat>, closes: seq<nat>, k: nat)
    requires k < |opens| && k < |closes|
    ensures Bracketed(v, opens[k..], closes[k..])
         == Slice(v, opens[k], closes[k] + 1) + Bracketed(v, opens[k + 1..], closes[k + 1..])
  {
    assert opens[k..][1..] == opens[k + 1..] && closes[k..][1..] == closes[k + 1..];
  }

  /** The third pass: the groups flattened into one list. */
  method FlattenGroups(groups: seq<seq<real>>) returns (flat: seq<real>)
    ensures flat == Flatten(groups)
  {
    flat := [];
    var g := 0;
    while g < |groups|
      invariant 0 <= g <= |groups|
      invariant flat == Flatten(groups[..g])
    {
      assert groups[..g + 1][..g] == groups[..g];
      flat := flat + groups[g];
      g := g + 1;
    }
    assert groups[..g] == groups;
  }

  /** The concatenation of a list of lists. */
  function Flatten<T>(gs: seq<seq<T>>): seq<T>
  {
    if gs == [] then [] else Flatten(gs[..|gs| - 1]) + gs[|gs| - 1]
  }

  lemma FlattenSnoc<T>(gs: seq<seq<T>>, g: seq<T>)
    ensures Flatten(gs + [g]) == Flatten(gs) + g
  {
    assert (gs + [g])[..|gs|] == gs;
  }

  // ---------------------------------------------------------------- round trip

  /** One protease's frequencies as the interface stores them: `"[" + ",".join(parts) + "]"`. */
  function Bracket(parts: seq<String>): String
  {
    "[" + Join(parts, ",") + "]"
  }

  /** Text without brackets and commas. */
  predicate PlainText(s: String)
  {
    '[' !in s && ']' !in s && ',' !in s
  }

  /** Non-empty groups of bracket-free literals that `float()` accepts. */
  predicate PlainGroups(gs: seq<seq<String>>)
  {
    forall g :: 0 <= g < |gs| ==> |gs[g]| >= 1 && PlainParts(gs[g])
  }

  predicate PlainParts(parts: seq<String>)
  {
    forall j :: 0 <= j < |parts| ==> PlainText(parts[j]) && ParseReal(parts[j]).Some?
  }

  /** The values of one group and of all groups, in order. */
  function GroupValues(parts: seq<String>): (r: seq<real>)
    requires PlainParts(parts)
    ensures |r| == |parts|
  {
    seq(|parts|, j requires 0 <= j < |parts| => ParseReal(parts[j]).value)
  }

  function AllValues(gs: seq<seq<String>>): seq<real>
    requires PlainGroups(gs)
  {
    if gs == [] then [] else GroupValues(gs[0]) + AllValues(gs[1..])
  }

  /**
   * `get_numeric_list` reads the interface's bracketed frequency lists back as the
   * concatenation of their values.
   */
  lemma NumericListOfBrackets(gs: seq<seq<String>>)
    requires |gs| >= 1 && PlainGroups(gs)
    ensures NumericList(seq(|gs|, g requires 0 <= g < |gs| => Bracket(gs[g]))) == Ok(AllValues(gs))
  {
    var list := seq(|gs|, g requires 0 <= g < |gs| => Bracket(gs[g]));
    var ts := AllTokens(gs);
    JoinBrackets(gs);
    AllTokensPlain(gs);
    SplitJoin(ts, ',');
    assert NumericTokens(list) == ts;
    AllTokensValues(gs);
    AllTokensIndices(gs);
    BracketedAll(gs);
  }

  /** A token of a group: "[" before the first value, "]" after the last. */
  function Tok(s: String, first: bool, last: bool): String
  {
    (if first then "[" else "") + s + (if last then "]" else "")
  }

  function GroupTokens(parts: seq<String>): (r: seq<String>)
    ensures |r| == |parts|
    ensures forall j :: 0 <= j < |parts| ==> r[j] == Tok(parts[j], j == 0, j == |parts| - 1)
  {
    seq(|parts|, j requires 0 <= j < |parts| => Tok(parts[j], j == 0, j == |parts| - 1))
  }

  function AllTokens(gs: seq<seq<String>>): seq<String>
  {
    if gs == [] then [] else GroupTokens(gs[0]) + AllTokens(gs[1..])
  }

  /** Only the first token of a group opens it. */
  lemma TokOpens(s: String, first: bool, last: bool)
    requires PlainText(s)
    ensures Opens(Tok(s, first, last)) <==> first
  {
    var t := Tok(s, first, last);
    if first {
      assert t[..1] == "[";
    } else {
      assert t == s + (if last then "]" else "");
      if |t| >= 1 {
        assert t[0] == (if |s| >= 1 then s[0] else ']');
        assert t[..1] != "[" by {
          assert t[..1][0] == t[0];
        }
      }
    }
  }

  lemma TokDropOpen(s: String, first: bool, last: bool)
    requires PlainText(s)
    ensures DropOpen(Tok(s, first, last)) == s + (if last then "]" else "")
  {
    TokOpens(s, first, last);
    var tail := s + (if last then "]" else "");
    if first {
      assert Tok(s, first, last) == "[" + tail;
      RemoveCharAppend("[", tail, '[');
      RemoveCharAbsent(tail, '[');
    } else {
      assert Tok(s, first, last) == tail;
    }
  }

  /** Only the last token of a group closes it. */
  lemma TokCloses(s: String, first: bool, last: bool)
    requires PlainText(s)
    ensures Closes(Tok(s, first, last)) <==> last
  {
    TokDropOpen(s, first, last);
    if !last && |s| >= 1 {
      assert (s + "")[|s| - 1] == s[|s| - 1];
    }
  }

  /** Removing the brackets leaves the literal. */
  lemma TokPlain(s: String, first: bool, last: bool)
    requires PlainText(s)
    ensures DropBrackets(Tok(s, first, last)) == s
    ensures ',' !in Tok(s, first, last)
  {
    TokDropOpen(s, first, last);
    TokCloses(s, first, last);
    if last {
      RemoveCharAppend(s, "]", ']');
      RemoveCharAbsent(s, ']');
    }
  }

  lemma PlainRest(gs: seq<seq<String>>)
    requires |gs| >= 1 && PlainGroups(gs)
    ensures PlainGroups(gs[1..])
  {
    var rest := gs[1..];
    forall g | 0 <= g < |rest| ensures |rest[g]| >= 1 && PlainParts(rest[g]) {
      assert rest[g] == gs[g + 1];
    }
  }

  // the joined text

  /** Joining the bracketed lists is joining all the tokens. */
  lemma {:induction false} JoinBrackets(gs: seq<seq<String>>)
    requires |gs| >= 1 && PlainGroups(gs)
    ensures Join(seq(|gs|, g requires 0 <= g < |gs| => Bracket(gs[g])), ",") == Join(AllTokens(gs), ",")
    ensures |AllTokens(gs)| >= 1
  {
    var list := seq(|gs|, g requires 0 <= g < |gs| => Bracket(gs[g]));
    JoinGroup(gs[0]);
    if |gs| > 1 {
      var rest := gs[1..];
      PlainRest(gs);
      JoinBrackets(rest);
      assert list[1..] == seq(|rest|, g requires 0 <= g < |rest| => Bracket(rest[g]));
      JoinAppend(GroupTokens(gs[0]), AllTokens(rest), ",");
    } else {
      assert gs[1..] == [];
      assert AllTokens(gs) == GroupTokens(gs[0]);
    }
  }

  lemma JoinGroup(parts: seq<String>)
    requires |parts| >= 1
    ensures Bracket(parts) == Join(GroupTokens(parts), ",")
  {
    var n := |parts|;
    JoinPrefix("[", parts, ",");
    var p1 := ["[" + parts[0]] + parts[1..];
    JoinSuffix(p1, "]", ",");
    var p2 := p1[..n - 1] + [p1[n - 1] + "]"];
    assert p2 == GroupTokens(parts) by {
      forall j | 0 <= j < n ensures p2[j] == GroupTokens(parts)[j] {
        if j == 0 && n == 1 {
          assert p2[j] == "[" + parts[0] + "]";
        }
      }
    }
  }

  lemma AllTokensPlain(gs: seq<seq<String>>)
    requires PlainGroups(gs)
    ensures forall i :: 0 <= i < |AllTokens(gs)| ==> ',' !in AllTokens(gs)[i]
  {
    forall i | 0 <= i < |AllTokens(gs)| ensures ',' !in AllTokens(gs)[i] {
      AllTokensAt(gs, i);
    }
  }

  lemma {:induction false} AllTokensAt(gs: seq<seq<String>>, i: nat)
    requires PlainGroups(gs) && i < |AllTokens(gs)|
    ensures ',' !in AllTokens(gs)[i]
  {
    var n := |gs[0]|;
    if i < n {
      TokPlain(gs[0][i], i == 0, i == n - 1);
    } else {
      PlainRest(gs);
      AllTokensAt(gs[1..], i - n);
    }
  }

  // the values

  lemma TokenOptionsAppend(a: seq<String>, b: seq<String>)
    ensures TokenOptions(a + b) == TokenOptions(a) + TokenOptions(b)
  {
    assert forall i :: 0 <= i < |a + b| ==> TokenOptions(a + b)[i] == (TokenOptions(a) + TokenOptions(b))[i];
  }

  lemma {:induction false} AllSomeAppend<T>(a: seq<Option<T>>, b: seq<Option<T>>)
    requires AllSome(a).Some? && AllSome(b).Some?
    ensures AllSome(a + b) == Some(AllSome(a).value + AllSome(b).value)
  {
    if b == [] {
      assert a + b == a;
      assert AllSome(b) == Some([]);
      assert AllSome(a).value + [] == AllSome(a).value;
    } else {
      var init := b[..|b| - 1];
      assert AllSome(init).Some?;
      AllSomeAppend(a, init);
      assert (a + b)[..|a + b| - 1] == a + init;
      assert (a + b)[|a + b| - 1] == b[|b| - 1];
      var x, y, z := AllSome(a).value, AllSome(init).value, b[|b| - 1].value;
      assert AllSome(b).value == y + [z];
      AppendAssoc(x, y, [z]);
    }
  }

  lemma {:induction false} AllSomeOf<T>(os: seq<Option<T>>, vs: seq<T>)
    requires |os| == |vs| && forall j :: 0 <= j < |os| ==> os[j] == Some(vs[j])
    ensures AllSome(os) == Some(vs)
  {
    if os != [] {
      AllSomeOf(os[..|os| - 1], vs[..|vs| - 1]);
      assert vs[..|vs| - 1] + [vs[|vs| - 1]] == vs;
    }
  }

  lemma GroupTokenValues(parts: seq<String>)
    requires PlainParts(parts)
    ensures TokenValues(GroupTokens(parts)) == Some(GroupValues(parts))
  {
    var ts, vs := GroupTokens(parts), GroupValues(parts);
    var os := TokenOptions(ts);
    forall j | 0 <= j < |parts| ensures os[j] == Some(vs[j]) {
      TokPlain(parts[j], j == 0, j == |parts| - 1);
    }
    AllSomeOf(os, vs);
  }

  lemma {:induction false} AllTokensValues(gs: seq<seq<String>>)
    requires PlainGroups(gs)
    ensures TokenValues(AllTokens(gs)) == Some(AllValues(gs))
  {
    if gs == [] {
      assert TokenOptions([]) == [];
    } else {
      PlainRest(gs);
      AllTokensValues(gs[1..]);
      GroupTokenValues(gs[0]);
      TokenOptionsAppend(GroupTokens(gs[0]), AllTokens(gs[1..]));
      AllSomeAppend(TokenOptions(GroupTokens(gs[0])), TokenOptions(AllTokens(gs[1..])));
    }
  }

  // the bracket positions

  function Shift(d: nat, xs: seq<nat>): (r: seq<nat>)
    ensures |r| == |xs| && forall i :: 0 <= i < |xs| ==> r[i] == xs[i] + d
  {
    seq(|xs|, i requires 0 <= i < |xs| => xs[i] + d)
  }

  lemma ShiftTail(d: nat, xs: seq<nat>)
    requires xs != []
    ensures Shift(d, xs)[0] == xs[0] + d && Shift(d, xs)[1..] == Shift(d, xs[1..])
  {
  }

  /** Where each group starts and ends among all the tokens. */
  function Offsets(gs: seq<seq<String>>): seq<nat>
  {
    if gs == [] then [] else [0] + Shift(|gs[0]|, Offsets(gs[1..]))
  }

  function Ends(gs: seq<seq<String>>): seq<nat>
  {
    if gs == [] then []
    else [if |gs[0]| >= 1 then |gs[0]| - 1 else 0] + Shift(|gs[0]|, Ends(gs[1..]))
  }

  lemma {:induction false} MarksAppend(a: seq<bool>, b: seq<bool>)
    ensures Marks(a + b) == Marks(a) + Shift(|a|, Marks(b))
  {
    if b == [] {
      assert a + b == a;
    } else {
      var init := b[..|b| - 1];
      MarksAppend(a, init);
      assert (a + b)[..|a + b| - 1] == a + init;
      assert Shift(|a|, Marks(b)) == Shift(|a|, Marks(init)) + (if b[|b| - 1] then [|a| + |b| - 1] else []);
    }
  }

  lemma {:induction false} MarksOnlyFirst(fs: seq<bool>, n: nat)
    requires 1 <= n <= |fs|
    requires forall i :: 0 <= i < |fs| ==> fs[i] == (i == 0)
    ensures Marks(fs[..n]) == [0]
  {
    if n == 1 {
      assert fs[..1][..0] == [];
    } else {
      MarksOnlyFirst(fs, n - 1);
      assert fs[..n][..n - 1] == fs[..n - 1];
    }
  }

  lemma {:induction false} MarksOnlyLast(fs: seq<bool>, n: nat)
    requires n <= |fs|
    requires forall i :: 0 <= i < |fs| ==> fs[i] == (i == |fs| - 1)
    ensures Marks(fs[..n]) == if n == |fs| && n >= 1 then [n - 1] else []
  {
    if n > 0 {
      MarksOnlyLast(fs, n - 1);
      assert fs[..n][..n - 1] == fs[..n - 1];
    }
  }

  lemma FlagsAppend(a: seq<String>, b: seq<String>)
    ensures OpenFlags(a + b) == OpenFlags(a) + OpenFlags(b)
    ensures CloseFlags(a + b) == CloseFlags(a) + CloseFlags(b)
  {
    assert forall i :: 0 <= i < |a + b| ==> OpenFlags(a + b)[i] == (OpenFlags(a) + OpenFlags(b))[i];
    assert forall i :: 0 <= i < |a + b| ==> CloseFlags(a + b)[i] == (CloseFlags(a) + CloseFlags(b))[i];
  }

  lemma GroupIndices(parts: seq<String>)
    requires |parts| >= 1 && forall j :: 0 <= j < |parts| ==> PlainText(parts[j])
    ensures OpenIndices(GroupTokens(parts)) == [0]
    ensures CloseIndices(GroupTokens(parts)) == [|parts| - 1]
  {
    GroupOpenIndices(parts);
    GroupCloseIndices(parts);
  }

  lemma GroupOpenIndices(parts: seq<String>)
    requires |parts| >= 1 && forall j :: 0 <= j < |parts| ==> PlainText(parts[j])
    ensures OpenIndices(GroupTokens(parts)) == [0]
  {
    GroupOpenFlags(parts);
    MarksFirst(OpenFlags(GroupTokens(parts)));
  }

  lemma GroupCloseIndices(parts: seq<String>)
    requires |parts| >= 1 && forall j :: 0 <= j < |parts| ==> PlainText(parts[j])
    ensures CloseIndices(GroupTokens(parts)) == [|parts| - 1]
  {
    GroupCloseFlags(parts);
    MarksLast(CloseFlags(GroupTokens(parts)));
  }

  lemma MarksFirst(fs: seq<bool>)
    requires |fs| >= 1 && forall i :: 0 <= i < |fs| ==> fs[i] == (i == 0)
    ensures Marks(fs) == [0]
  {
    MarksOnlyFirst(fs, |fs|);
    assert fs[..|fs|] == fs;
  }

  lemma MarksLast(fs: seq<bool>)
    requires |fs| >= 1 && forall i :: 0 <= i < |fs| ==> fs[i] == (i == |fs| - 1)
    ensures Marks(fs) == [|fs| - 1]
  {
    MarksOnlyLast(fs, |fs|);
    assert fs[..|fs|] == fs;
  }

  /** Of a group's tokens only the first opens. */
  lemma GroupOpenFlags(parts: seq<String>)
    requires forall j :: 0 <= j < |parts| ==> PlainText(parts[j])
    ensures forall j :: 0 <= j < |parts| ==> OpenFlags(GroupTokens(parts))[j] == (j == 0)
  {
    var ts := GroupTokens(parts);
    forall j | 0 <= j < |parts| ensures OpenFlags(ts)[j] == (j == 0) {
      TokOpens(parts[j], j == 0, j == |parts| - 1);
    }
  }

  /** Of a group's tokens only the last closes. */
  lemma GroupCloseFlags(parts: seq<String>)
    requires forall j :: 0 <= j < |parts| ==> PlainText(parts[j])
    ensures forall j :: 0 <= j < |parts| ==> CloseFlags(GroupTokens(parts))[j] == (j == |parts| - 1)
  {
    var ts := GroupTokens(parts);
    forall j | 0 <= j < |parts| ensures CloseFlags(ts)[j] == (j == |parts| - 1) {
      TokCloses(parts[j], j == 0, j == |parts| - 1);
    }
  }

  lemma {:induction false} AllTokensIndices(gs: seq<seq<String>>)
    requires PlainGroups(gs)
    ensures OpenIndices(AllTokens(gs)) == Offsets(gs)
    ensures CloseIndices(AllTokens(gs)) == Ends(gs)
  {
    if gs == [] {
      assert OpenFlags([]) == [] && CloseFlags([]) == [];
    } else {
      var head, rest := GroupTokens(gs[0]), AllTokens(gs[1..]);
      PlainRest(gs);
      AllTokensIndices(gs[1..]);
      GroupIndices(gs[0]);
      FlagsAppend(head, rest);
      MarksAppend(OpenFlags(head), OpenFlags(rest));
      MarksAppend(CloseFlags(head), CloseFlags(rest));
    }
  }

  // the slices

  lemma SliceShift(p: seq<real>, w: seq<real>, a: nat, b: int, a2: nat, b2: int)
    requires a2 == |p| + a && b2 == |p| + b
    ensures Slice(p + w, a2, b2) == Slice(w, a, b)
  {
    if a < |w| && a < b {
      if b >= |w| {
        assert (p + w)[a2..] == w[a..];
      } else {
        assert (p + w)[a2..b2] == w[a..b];
      }
    }
  }

  /** Bracketing is unaffected by a prefix when every index moves past it. */
  lemma {:induction false} BracketedOffset(p: seq<real>, w: seq<real>, o: seq<nat>, c: seq<nat>, o2: seq<nat>, c2: seq<nat>)
    requires |o2| == |o| && forall i :: 0 <= i < |o| ==> o2[i] == |p| + o[i]
    requires |c2| == |c| && forall i :: 0 <= i < |c| ==> c2[i] == |p| + c[i]
    ensures Bracketed(p + w, o2, c2) == Bracketed(w, o, c)
  {
    if o == [] || c == [] {
      assert o2 == [] || c2 == [];
    } else {
      BracketedCons(p + w, o2, c2);
      SliceShift(p, w, o[0], c[0] + 1, o2[0], c2[0] + 1);
      BracketedOffset(p, w, o[1..], c[1..], o2[1..], c2[1..]);
    }
  }

  lemma BracketedCons(v: seq<real>, o: seq<nat>, c: seq<nat>)
    requires o != [] && c != []
    ensures Bracketed(v, o, c) == Slice(v, o[0], c[0] + 1) + Bracketed(v, o[1..], c[1..])
  {
  }

  lemma BracketedShift(p: seq<real>, w: seq<real>, o: seq<nat>, c: seq<nat>)
    ensures Bracketed(p + w, Shift(|p|, o), Shift(|p|, c)) == Bracketed(w, o, c)
  {
    BracketedOffset(p, w, o, c, Shift(|p|, o), Shift(|p|, c));
  }

  lemma {:induction false} BracketedAll(gs: seq<seq<String>>)
    requires PlainGroups(gs)
    ensures Bracketed(AllValues(gs), Offsets(gs), Ends(gs)) == AllValues(gs)
  {
    if gs != [] {
      PlainRest(gs);
      BracketedAll(gs[1..]);
      var head := GroupValues(gs[0]);
      var rest := AllValues(gs[1..]);
      BracketedShift(head, rest, Offsets(gs[1..]), Ends(gs[1..]));
      assert Slice(head + rest, 0, |head|) == head by {
        if |head| < |head + rest| {
          assert (head + rest)[0..|head|] == head;
        }
      }
    }
  }

  // ================================================================ the frequency column

  /** A stratum with its missed-cleavage frequency. */
  datatype FreqRow = FreqRow(enzyme: String, mc: int, freq: real)

  /**
   * `protease_mc_df['MC_Freq'] = freq_mc`, guarded by the length check of `main`
   * that raises RuntimeError when the counts differ.
   */
  function AssignFrequencies(strata: seq<Stratum>, freqs: seq<real>): (r: Result<seq<FreqRow>, AnalysisError>)
  {
    if |freqs| != |strata| then Err(RuntimeError)
    else Ok(seq(|strata|, i requires 0 <= i < |strata| => FreqRow(strata[i].enzyme, strata[i].mc, freqs[i])))
  }

  /** The check passes exactly when there is one frequency per stratum, and then row i carries frequency i. */
  lemma AssignFrequenciesSpec(strata: seq<Stratum>, freqs: seq<real>)
    ensures AssignFrequencies(strata, freqs).Err? <==> |freqs| != |strata|
    ensures AssignFrequencies(strata, freqs).Ok? ==>
      var rows := AssignFrequencies(strata, freqs).value;
      |rows| == |strata| &&
      forall i :: 0 <= i < |rows| ==> rows[i].enzyme == strata[i].enzyme && rows[i].mc == strata[i].mc && rows[i].freq == freqs[i]
  {
  }

  function GroupSizes(gs: seq<seq<String>>): nat
  {
    if gs == [] then 0 else |gs[0]| + GroupSizes(gs[1..])
  }

  lemma {:induction false} AllValuesLength(gs: seq<seq<String>>)
    requires PlainGroups(gs)
    ensures |AllValues(gs)| == GroupSizes(gs)
  {
    if gs != [] {
      PlainRest(gs);
      AllValuesLength(gs[1..]);
    }
  }

  /**
   * A protease table whose row i lists exactly `max_mc_i + 1` frequencies passes the
   * length check.
   */
  lemma {:induction false} TableLengthsMatch(proteases: seq<String>, mcs: seq<int>, gs: seq<seq<String>>)
    requires |gs| == |proteases| == |mcs| && PlainGroups(gs)
    requires forall i :: 0 <= i < |gs| ==> |gs[i]| == RowsFor(mcs[i])
    ensures GroupSizes(gs) == TotalRows(proteases, mcs)
  {
    if gs != [] {
      PlainRest(gs);
      assert forall i :: 0 <= i < |gs[1..]| ==> gs[1..][i] == gs[i + 1] && mcs[1..][i] == mcs[i + 1];
      TableLengthsMatch(proteases[1..], mcs[1..], gs[1..]);
    }
  }

  lemma FrequenciesOfTable(proteases: seq<String>, mcs: seq<int>, gs: seq<seq<String>>)
    requires |gs| == |proteases| == |mcs| && PlainGroups(gs)
    requires forall i :: 0 <= i < |gs| ==> |gs[i]| == RowsFor(mcs[i])
    ensures AssignFrequencies(Expansion(proteases, mcs), AllValues(gs)).Ok?
  {
    TableLengthsMatch(proteases, mcs, gs);
    AllValuesLength(gs);
    ExpansionCount(proteases, mcs);
  }

  // ================================================================ normalise_mc

  /** The sum of an enzyme's frequencies (`groupby('Enzyme')['MC_Freq'].sum()`). */
  function EnzymeTotal(rows: seq<FreqRow>, e: String): real
  {
    if rows == [] then 0.0
    else EnzymeTotal(rows[..|rows| - 1], e) + (if rows[|rows| - 1].enzyme == e then rows[|rows| - 1].freq else 0.0)
  }

  /** A frequency after normalisation; `None` stands for the NaN or infinity of a division by a zero total. */
  datatype NormRow = NormRow(enzyme: String, mc: int, freq: Option<real>)

  function Normalised(rows: seq<FreqRow>, row: FreqRow): NormRow
  {
    var total := EnzymeTotal(rows, row.enzyme);
    NormRow(row.enzyme, row.mc, if total == 0.0 then None else Some(row.freq / total))
  }

  /** `normalise_mc`: every frequency divided by its enzyme's total. */
  function NormaliseMc(rows: seq<FreqRow>): (r: seq<NormRow>)
    ensures |r| == |rows|
  {
    seq(|rows|, i requires 0 <= i < |rows| => Normalised(rows, rows[i]))
  }

  /** The enzymes `normalise_mc` warns about: those whose frequencies sum below 0.99 or above 1.01. */
  function FrequencyWarnings(rows: seq<FreqRow>): set<String>
  {
    set i | 0 <= i < |rows| && (EnzymeTotal(rows, rows[i].enzyme) < 0.99 || EnzymeTotal(rows, rows[i].enzyme) > 1.01) :: rows[i].enzyme
  }

  /** Sum of the normalised frequencies of enzyme `e` over the first `n` rows. */
  function NormSum(norm: seq<NormRow>, e: String): real
  {
    if norm == [] then 0.0
    else
      var last := norm[|norm| - 1];
      NormSum(norm[..|norm| - 1], e) + (if last.enzyme == e && last.freq.Some? then last.freq.value else 0.0)
  }

  /** The normalised frequencies of `rows` sum to their share of the enzyme's total over `all`. */
  lemma {:induction false} NormSumScaled(rows: seq<FreqRow>, all: seq<FreqRow>, e: String, norm: seq<NormRow>)
    requires EnzymeTotal(all, e) != 0.0
    requires |norm| == |rows| && forall i :: 0 <= i < |rows| ==> norm[i] == Normalised(all, rows[i])
    ensures NormSum(norm, e) == EnzymeTotal(rows, e) / EnzymeTotal(all, e)
  {
    var t := EnzymeTotal(all, e);
    if rows == [] {
      assert 0.0 / t == 0.0;
    } else {
      var n := |rows| - 1;
      NormSumScaled(rows[..n], all, e, norm[..n]);
      var last := rows[n];
      var y := if last.enzyme == e then last.freq else 0.0;
      assert NormSum(norm, e) == NormSum(norm[..n], e) + y / t;
      DivAdd(EnzymeTotal(rows[..n], e), y, t);
    }
  }

  lemma DivAdd(x: real, y: real, t: real)
    requires t != 0.0
    ensures x / t + y / t == (x + y) / t
  {
  }

  /** After normalisation the frequencies of an enzyme with a nonzero total sum to 1. */
  lemma NormalisedSumsToOne(rows: seq<FreqRow>, e: String)
    requires EnzymeTotal(rows, e) != 0.0
    ensures NormSum(NormaliseMc(rows), e) == 1.0
  {
    NormSumScaled(rows, rows, e, NormaliseMc(rows));
    DivSelf(EnzymeTotal(rows, e));
  }

  lemma DivSelf(t: real)
    requires t != 0.0
    ensures t / t == 1.0
  {
  }

  /** Row i keeps its stratum; its frequency is missing exactly when its enzyme's total is zero. */
  lemma NormaliseMcRow(rows: seq<FreqRow>, i: nat)
    requires i < |rows|
    ensures NormaliseMc(rows)[i].enzyme == rows[i].enzyme && NormaliseMc(rows)[i].mc == rows[i].mc
    ensures NormaliseMc(rows)[i].freq.None? <==> EnzymeTotal(rows, rows[i].enzyme) == 0.0
  {
    assert NormaliseMc(rows)[i] == Normalised(rows, rows[i]);
  }

  /** A warning comes only from an enzyme in the table whose sum is off by more than one percent. */
  lemma FrequencyWarningsSpec(rows: seq<FreqRow>, e: String)
    ensures e in FrequencyWarnings(rows) <==>
      (exists i :: 0 <= i < |rows| && rows[i].enzyme == e) && (EnzymeTotal(rows, e) < 0.99 || EnzymeTotal(rows, e) > 1.01)
  {
  }

  // ================================================================ get_pep_counts

  /** A digested peptide; its `ID` is its row number. */
  datatype Peptide = Peptide(enzyme: String, mc: int)

  /** A stratum with its normalised frequency and `pep_count` (`None`: no peptide, NaN after the left merge). */
  datatype PlanRow = PlanRow(enzyme: String, mc: int, freq: Option<real>, count: Option<nat>)

  /** Number of peptides of one (enzyme, missed cleavages) pair. */
  function CountRows(peps: seq<Peptide>, e: String, m: int): nat
  {
    if peps == [] then 0
    else CountRows(peps[..|peps| - 1], e, m) + (if peps[|peps| - 1] == Peptide(e, m) then 1 else 0)
  }

  /** `get_pep_counts`: the stratum counts merged onto the plan. */
  function GetPepCounts(peps: seq<Peptide>, norm: seq<NormRow>): (r: seq<PlanRow>)
    ensures |r| == |norm|
  {
    seq(|norm|, i requires 0 <= i < |norm| =>
      var c := CountRows(peps, norm[i].enzyme, norm[i].mc);
      PlanRow(norm[i].enzyme, norm[i].mc, norm[i].freq, if c > 0 then Some(c) else None))
  }

  /** The merged count is the stratum's number of peptides, and missing exactly when there is none. */
  lemma GetPepCountsSpec(peps: seq<Peptide>, norm: seq<NormRow>, i: nat)
    requires i < |norm|
    ensures var row := GetPepCounts(peps, norm)[i];
      row.enzyme == norm[i].enzyme && row.mc == norm[i].mc && row.freq == norm[i].freq &&
      (row.count.None? <==> forall j :: 0 <= j < |peps| ==> peps[j] != Peptide(norm[i].enzyme, norm[i].mc)) &&
      (row.count.Some? ==> row.count.value == CountRows(peps, norm[i].enzyme, norm[i].mc))
  {
    CountRowsZero(peps, norm[i].enzyme, norm[i].mc);
  }

  lemma {:induction false} CountRowsZero(peps: seq<Peptide>, e: String, m: int)
    ensures CountRows(peps, e, m) == 0 <==> forall j :: 0 <= j < |peps| ==> peps[j] != Peptide(e, m)
  {
    if peps != [] {
      var init := peps[..|peps| - 1];
      CountRowsZero(init, e, m);
      assert forall j :: 0 <= j < |init| ==> init[j] == peps[j];
    }
  }

  // ================================================================ get_peps_required

  /** `Enzyme + "__" + str(MC)`, the key `rand_smp` selects a stratum's peptides by. */
  function SubsetKey(e: String, m: int): String
  {
    e + "__" + IntToString(m)
  }

  lemma IntToStringNoUnderscore(m: int)
    ensures '_' !in IntToString(m)
  {
    var d := NatToString(if m < 0 then -m else m);
    assert forall i :: 0 <= i < |d| ==> d[i] != '_' by {
      forall i | 0 <= i < |d| ensures d[i] != '_' {
        assert IsDigit(d[i]);
      }
    }
    if m < 0 {
      assert IntToString(m) == "-" + d;
    }
  }

  /** The text after the last `c` in `k` (all of `k` when it has none). */
  function AfterLast(k: String, c: char): String
  {
    if k == [] then [] else if k[|k| - 1] == c then [] else AfterLast(k[..|k| - 1], c) + [k[|k| - 1]]
  }

  lemma {:induction false} AfterLastSuffix(p: String, s: String, c: char)
    requires c !in s
    ensures AfterLast(p + [c] + s, c) == s
  {
    var k := p + [c] + s;
    if s != [] {
      var s' := s[..|s| - 1];
      assert k[..|k| - 1] == p + [c] + s';
      assert k[|k| - 1] == s[|s| - 1];
      AfterLastSuffix(p, s', c);
      assert s' + [s[|s| - 1]] == s;
    }
  }

  /** Distinct strata have distinct keys: the number after the last '_' has no '_'. */
  lemma SubsetKeyInjective(e1: String, m1: int, e2: String, m2: int)
    requires SubsetKey(e1, m1) == SubsetKey(e2, m2)
    ensures e1 == e2 && m1 == m2
  {
    var s1, s2 := IntToString(m1), IntToString(m2);
    IntToStringNoUnderscore(m1);
    IntToStringNoUnderscore(m2);
    var k := SubsetKey(e1, m1);
    assert k == (e1 + "_") + ['_'] + s1;
    assert k == (e2 + "_") + ['_'] + s2;
    AfterLastSuffix(e1 + "_", s1, '_');
    AfterLastSuffix(e2 + "_", s2, '_');
    assert e1 == k[..|e1|] == e2;
    IntToStringInjective(m1, m2);
  }

  lemma IntToStringInjective(m1: int, m2: int)
    requires IntToString(m1) == IntToString(m2)
    ensures m1 == m2
  {
    var a, b := IntToString(m1), IntToString(m2);
    var d1 := NatToString(if m1 < 0 then -m1 else m1);
    var d2 := NatToString(if m2 < 0 then -m2 else m2);
    assert IsDigit(d1[0]) && IsDigit(d2[0]);
    if m1 < 0 && m2 < 0 {
      assert d1 == a[1..] == d2;
      NatToStringInjective(-m1, -m2);
    } else if m1 >= 0 && m2 >= 0 {
      NatToStringInjective(m1, m2);
    } else if m1 < 0 {
      assert false;
    } else {
      assert false;
    }
  }

  /** How the sampling size is based: `Sampling_Size_Based_On`. */
  datatype Basis = Number | Coverage | OtherBasis(name: String)

  /** A stratum ready for sampling; `size` is missing when no sampling size column was made. */
  datatype Planned = Planned(enzyme: String, mc: int, size: Option<int>)

  function Key(p: Planned): String
  {
    SubsetKey(p.enzyme, p.mc)
  }

  predicate Distinct<T(==)>(xs: seq<T>)
  {
    forall i, j :: 0 <= i < j < |xs| ==> xs[i] != xs[j]
  }

  /** The value the left merge on `Enzyme` brings to a stratum of enzyme `e`. */
  function Lookup<T>(proteases: seq<String>, values: seq<T>, e: String): Option<T>
    requires |values| == |proteases|
  {
    if proteases == [] then None
    else if proteases[0] == e then Some(values[0])
    else Lookup(proteases[1..], values[1..], e)
  }

  lemma {:induction false} LookupAt<T>(proteases: seq<String>, values: seq<T>, i: nat)
    requires |values| == |proteases| && i < |proteases| && Distinct(proteases)
    ensures Lookup(proteases, values, proteases[i]) == Some(values[i])
  {
    if i > 0 {
      assert proteases[0] != proteases[i];
      assert proteases[1..][i - 1] == proteases[i];
      LookupAt(proteases[1..], values[1..], i - 1);
    }
  }

  /** `float(f)` for every entry, `None` when one is not a decimal literal. */
  function ParseReals(xs: seq<String>): (r: Option<seq<real>>)
    ensures r.Some? ==> |r.value| == |xs|
  {
    AllSome(seq(|xs|, i requires 0 <= i < |xs| => ParseReal(xs[i])))
  }

  /** The sum over an enzyme's strata of `pep_count`, NaN counts skipped; `None` when the enzyme has no stratum. */
  function EnzymePeptides(rows: seq<PlanRow>, e: String): Option<nat>
  {
    if rows == [] then None
    else
      var last := rows[|rows| - 1];
      var here: nat := if last.count.Some? then last.count.value else 0;
      match EnzymePeptides(rows[..|rows| - 1], e)
      case None => if last.enzyme == e then Some(here) else None
      case Some(t) => Some(t + if last.enzyme == e then here else 0)
  }

  /** `groupby('Enzyme').pep_count.sum()` brought to each protease by the merge. */
  function PepSums(rows: seq<PlanRow>, proteases: seq<String>): (r: seq<Option<nat>>)
    ensures |r| == |proteases|
    ensures forall k :: 0 <= k < |proteases| ==> r[k] == EnzymePeptides(rows, proteases[k])
  {
    seq(|proteases|, k requires 0 <= k < |proteases| => EnzymePeptides(rows, proteases[k]))
  }

  /** `(fraction * peptides).astype('int')` for one protease. */
  function Covered(fraction: real, peptides: nat): int
  {
    Trunc(fraction * peptides as real)
  }

  /** The coverage-mode totals once the fractions are parsed; a protease without strata fails the cast. */
  function CoverageTotalsOf(rows: seq<PlanRow>, proteases: seq<String>, fs: seq<real>): (r: Result<seq<int>, AnalysisError>)
    requires |fs| == |proteases|
    ensures r.Ok? ==> |r.value| == |proteases|
  {
    match AllSome(PepSums(rows, proteases))
    case None => Err(IntCastError)
    case Some(ps) => Ok(seq(|fs|, k requires 0 <= k < |fs| => Covered(fs[k], ps[k])))
  }

  /** The per-protease totals, from the configured counts or from the coverage fractions. */
  function Totals(rows: seq<PlanRow>, basis: Basis, proteases: seq<String>, numbers: seq<String>, fractions: seq<String>)
    : (r: Result<seq<int>, AnalysisError>)
    requires !basis.OtherBasis?
    ensures r.Ok? ==> |r.value| == |proteases|
  {
    if basis.Number? then
      match ParseInts(numbers)
      case None => Err(ValueError)
      case Some(ns) => if |ns| != |proteases| then Err(ValueError) else Ok(ns)
    else
      match ParseReals(fractions)
      case None => Err(ValueError)
      case Some(fs) =>
        if |fs| != |proteases| then Err(ValueError)
        else
          CoverageTotalsOf(rows, proteases, fs)
  }

  /** `(total_peptides * MC_Freq).astype('int')` for one stratum. */
  function RawSize(total: Option<int>, freq: Option<real>): Option<int>
  {
    if total.Some? && freq.Some? then Some(Trunc(total.value as real * freq.value)) else None
  }

  /** The raw size of every stratum, its protease's total brought in by the merge. */
  function RawSizes(rows: seq<PlanRow>, proteases: seq<String>, totals: seq<int>): (r: seq<Option<int>>)
    requires |totals| == |proteases|
    ensures |r| == |rows|
    ensures forall i :: 0 <= i < |rows| ==> r[i] == RawSize(Lookup(proteases, totals, rows[i].enzyme), rows[i].freq)
  {
    seq(|rows|, i requires 0 <= i < |rows| => RawSize(Lookup(proteases, totals, rows[i].enzyme), rows[i].freq))
  }

  /** The `pep_count` column. */
  function Counts(rows: seq<PlanRow>): (r: seq<Option<nat>>)
    ensures |r| == |rows|
    ensures forall i :: 0 <= i < |rows| ==> r[i] == rows[i].count
  {
    seq(|rows|, i requires 0 <= i < |rows| => rows[i].count)
  }

  /** `where(size - pep_count < 0, pep_count)`: the size, at most the stratum's count. */
  function Clamp(size: int, count: nat): int
  {
    if size - count < 0 then size else count
  }

  /** The planned strata once every size and count is known. */
  function PlanOf(rows: seq<PlanRow>, sizes: seq<int>, counts: seq<nat>): (r: seq<Planned>)
    requires |sizes| == |rows| && |counts| == |rows|
    ensures |r| == |rows|
    ensures forall i :: 0 <= i < |rows| ==> r[i] == Planned(rows[i].enzyme, rows[i].mc, Some(Clamp(sizes[i], counts[i])))
  {
    seq(|rows|, i requires 0 <= i < |rows| => Planned(rows[i].enzyme, rows[i].mc, Some(Clamp(sizes[i], counts[i]))))
  }

  /** Whether `(size - pep_count > 0).any()`. */
  predicate Shortage(sizes: seq<int>, counts: seq<nat>)
    requires |sizes| == |counts|
  {
    exists i :: 0 <= i < |sizes| && sizes[i] - counts[i] > 0
  }

  /** The end of `get_peps_required` once the per-protease totals are known. */
  function PlanFromTotals(rows: seq<PlanRow>, proteases: seq<String>, totals: seq<int>)
    : (r: Result<(seq<Planned>, bool), AnalysisError>)
    requires |totals| == |proteases|
  {
    match AllSome(RawSizes(rows, proteases, totals))
    case None => Err(IntCastError)
    case Some(sizes) =>
      match AllSome(Counts(rows))
      case None => Err(IntCastError)
      case Some(counts) => Ok((PlanOf(rows, sizes, counts), Shortage(sizes, counts)))
  }

  /**
   * `get_peps_required`: the planned strata and whether the shortage warning is printed.
   * A stratum without a size, or any stratum without peptides, makes `astype('int')` raise.
   */
  function GetPepsRequired(rows: seq<PlanRow>, basis: Basis, proteases: seq<String>, numbers: seq<String>, fractions: seq<String>)
    : (r: Result<(seq<Planned>, bool), AnalysisError>)
  {
    if basis.OtherBasis? then
      Ok((seq(|rows|, i requires 0 <= i < |rows| => Planned(rows[i].enzyme, rows[i].mc, None)), false))
    else
      match Totals(rows, basis, proteases, numbers, fractions)
      case Err(e) => Err(e)
      case Ok(totals) => PlanFromTotals(rows, proteases, totals)
  }

  /** With an unknown basis every stratum is kept without a size and nothing is checked. */
  lemma GetPepsRequiredOther(rows: seq<PlanRow>, name: String, proteases: seq<String>, numbers: seq<String>, fractions: seq<String>)
    ensures var r := GetPepsRequired(rows, OtherBasis(name), proteases, numbers, fractions);
      r.Ok? && |r.value.0| == |rows| && !r.value.1 &&
      forall i :: 0 <= i < |rows| ==> r.value.0[i] == Planned(rows[i].enzyme, rows[i].mc, None)
  {
  }

  /**
   * Once the totals are known, a successful plan keeps every stratum in order and gives it
   * min(trunc(total × frequency), count), where `total` is its protease's total.
   */
  lemma PlanSizes(rows: seq<PlanRow>, proteases: seq<String>, totals: seq<int>, i: nat)
    requires |totals| == |proteases| && i < |rows|
    requires PlanFromTotals(rows, proteases, totals).Ok?
    ensures var plan := PlanFromTotals(rows, proteases, totals).value.0;
      var raw := RawSize(Lookup(proteases, totals, rows[i].enzyme), rows[i].freq);
      |plan| == |rows| && raw.Some? && rows[i].count.Some? &&
      Lookup(proteases, totals, rows[i].enzyme).Some? && rows[i].freq.Some? &&
      plan[i] == Planned(rows[i].enzyme, rows[i].mc, Some(if raw.value < rows[i].count.value then raw.value else rows[i].count.value)) &&
      plan[i].size.value <= rows[i].count.value
  {
    var rs, cs := RawSizes(rows, proteases, totals), Counts(rows);
    AllSomeSome(rs);
    AllSomeSome(cs);
    assert rs[i].Some? && cs[i].Some?;
  }

  /** The warning is printed exactly when some stratum asked for more peptides than it has. */
  lemma PlanWarning(rows: seq<PlanRow>, proteases: seq<String>, totals: seq<int>)
    requires |totals| == |proteases|
    requires PlanFromTotals(rows, proteases, totals).Ok?
    ensures PlanFromTotals(rows, proteases, totals).value.1 <==>
      exists i :: 0 <= i < |rows| && rows[i].count.Some? &&
        RawSize(Lookup(proteases, totals, rows[i].enzyme), rows[i].freq).Some? &&
        RawSize(Lookup(proteases, totals, rows[i].enzyme), rows[i].freq).value > rows[i].count.value
  {
    var rs, cs := RawSizes(rows, proteases, totals), Counts(rows);
    AllSomeSome(rs);
    AllSomeSome(cs);
  }

  /** Any stratum without peptides makes the plan fail, whatever the sizes. */
  lemma PlanMissingCount(rows: seq<PlanRow>, proteases: seq<String>, totals: seq<int>, i: nat)
    requires |totals| == |proteases| && i < |rows| && rows[i].count.None?
    ensures PlanFromTotals(rows, proteases, totals).Err?
  {
    var cs := Counts(rows);
    AllSomeSome(cs);
    assert cs[i].None?;
  }

  /** A stratum whose protease was given no total (absent from the merge) makes the plan fail. */
  lemma PlanMissingTotal(rows: seq<PlanRow>, proteases: seq<String>, totals: seq<int>, i: nat)
    requires |totals| == |proteases| && i < |rows| && Lookup(proteases, totals, rows[i].enzyme).None?
    ensures PlanFromTotals(rows, proteases, totals) == Err(IntCastError)
  {
    var rs := RawSizes(rows, proteases, totals);
    AllSomeSome(rs);
    assert rs[i].None?;
  }

  /** In number mode the configured counts must parse and be one per protease. */
  lemma NumberTotals(rows: seq<PlanRow>, proteases: seq<String>, numbers: seq<String>, fractions: seq<String>)
    ensures Totals(rows, Number, proteases, numbers, fractions).Err? <==>
      ParseInts(numbers).None? || |numbers| != |proteases|
    ensures Totals(rows, Number, proteases, numbers, fractions).Ok? ==>
      Totals(rows, Number, proteases, numbers, fractions).value == ParseInts(numbers).value
  {
  }

  /** In coverage mode the fractions must parse and be one per protease. */
  lemma CoverageFractions(rows: seq<PlanRow>, proteases: seq<String>, numbers: seq<String>, fractions: seq<String>)
    ensures ParseReals(fractions).None? || |fractions| != |proteases| ==>
      Totals(rows, Coverage, proteases, numbers, fractions) == Err(ValueError)
    ensures ParseReals(fractions).Some? && |fractions| == |proteases| ==>
      Totals(rows, Coverage, proteases, numbers, fractions) == CoverageTotalsOf(rows, proteases, ParseReals(fractions).value)
  {
  }

  /**
   * In coverage mode a protease's total is trunc(fraction × the sum of its strata's
   * counts), and a protease without any stratum makes the cast fail.
   */
  lemma CoverageTotals(rows: seq<PlanRow>, proteases: seq<String>, fs: seq<real>, k: nat)
    requires |fs| == |proteases| && k < |proteases|
    ensures EnzymePeptides(rows, proteases[k]).None? ==> CoverageTotalsOf(rows, proteases, fs) == Err(IntCastError)
    ensures CoverageTotalsOf(rows, proteases, fs).Ok? ==>
      EnzymePeptides(rows, proteases[k]).Some? &&
      CoverageTotalsOf(rows, proteases, fs).value[k] == Covered(fs[k], EnzymePeptides(rows, proteases[k]).value)
  {
    var sums := PepSums(rows, proteases);
    AllSomeSome(sums);
    assert sums[k] == EnzymePeptides(rows, proteases[k]);
    if AllSome(sums).Some? {
      var ps := AllSome(sums).value;
      assert ps[k] == EnzymePeptides(rows, proteases[k]).value;
      assert CoverageTotalsOf(rows, proteases, fs).value[k] == Covered(fs[k], ps[k]);
    }
  }

  /** An enzyme has a peptide sum exactly when it has a stratum in the table. */
  lemma {:induction false} EnzymePeptidesSpec(rows: seq<PlanRow>, e: String)
    ensures EnzymePeptides(rows, e).Some? <==> exists i :: 0 <= i < |rows| && rows[i].enzyme == e
  {
    if rows != [] {
      var init := rows[..|rows| - 1];
      EnzymePeptidesSpec(init, e);
      assert EnzymePeptides(rows, e).Some? <==> EnzymePeptides(init, e).Some? || rows[|rows| - 1].enzyme == e;
      if rows[|rows| - 1].enzyme != e && exists i :: 0 <= i < |rows| && rows[i].enzyme == e {
        var i :| 0 <= i < |rows| && rows[i].enzyme == e;
        assert init[i] == rows[i];
      }
      if exists i :: 0 <= i < |init| && init[i].enzyme == e {
        var i :| 0 <= i < |init| && init[i].enzyme == e;
        assert rows[i] == init[i];
      }
    }
  }

  // ================================================================ rand_smp

  /** The IDs (row numbers) of the peptides whose `subset` key is `key`, in row order. */
  function Candidates(peps: seq<Peptide>, key: String): (r: seq<nat>)
    ensures forall k :: 0 <= k < |r| ==> r[k] < |peps|
    ensures forall k, l :: 0 <= k < l < |r| ==> r[k] < r[l]
    ensures forall i :: 0 <= i < |peps| ==> (i in r <==> SubsetKey(peps[i].enzyme, peps[i].mc) == key)
  {
    if peps == [] then []
    else
      var init := peps[..|peps| - 1];
      var last := peps[|peps| - 1];
      var prev := Candidates(init, key);
      CandidatesStep(peps, key, prev);
      if SubsetKey(last.enzyme, last.mc) == key then prev + [|peps| - 1] else prev
  }

  /** The step of `Candidates`: the last row joins the candidates of the rows before it when its key matches. */
  lemma CandidatesStep(peps: seq<Peptide>, key: String, prev: seq<nat>)
    requires peps != []
    requires forall k :: 0 <= k < |prev| ==> prev[k] < |peps| - 1
    requires forall k, l :: 0 <= k < l < |prev| ==> prev[k] < prev[l]
    requires forall i :: 0 <= i < |peps| - 1 ==> (i in prev <==> SubsetKey(peps[i].enzyme, peps[i].mc) == key)
    ensures var n := |peps| - 1;
      var r := if SubsetKey(peps[n].enzyme, peps[n].mc) == key then prev + [n] else prev;
      (forall k :: 0 <= k < |r| ==> r[k] < |peps|) &&
      (forall k, l :: 0 <= k < l < |r| ==> r[k] < r[l]) &&
      (forall i :: 0 <= i < |peps| ==> (i in r <==> SubsetKey(peps[i].enzyme, peps[i].mc) == key))
  {
    var n := |peps| - 1;
    assert n !in prev;
    assert forall i :: i in prev + [n] <==> i in prev || i == n;
  }

  /** The candidates of a stratum are exactly its peptides, as many as `get_pep_counts` counted. */
  lemma {:induction false} CandidatesOfStratum(peps: seq<Peptide>, e: String, m: int)
    ensures var cs := Candidates(peps, SubsetKey(e, m));
      |cs| == CountRows(peps, e, m) &&
      forall i :: 0 <= i < |peps| ==> (i in cs <==> peps[i] == Peptide(e, m))
  {
    var cs := Candidates(peps, SubsetKey(e, m));
    forall i | 0 <= i < |peps|
      ensures i in cs <==> peps[i] == Peptide(e, m)
    {
      if i in cs {
        SubsetKeyInjective(peps[i].enzyme, peps[i].mc, e, m);
      }
    }
    if peps != [] {
      CandidatesOfStratum(peps[..|peps| - 1], e, m);
    }
  }

  /** Row `i` has a positive weight in the sampling column `w` (`None` is NaN, which `sample` reads as 0). */
  predicate PositiveWeight(w: seq<Option<real>>, i: nat)
  {
    i < |w| && w[i].Some? && w[i].value > 0.0
  }

  /** Row `i` has a negative weight in the sampling column `w`. */
  predicate NegativeWeight(w: seq<Option<real>>, i: nat)
  {
    i < |w| && w[i].Some? && w[i].value < 0.0
  }

  /** Some candidate carries a negative weight. */
  predicate SomeNegative(cands: seq<nat>, w: seq<Option<real>>)
  {
    exists k :: 0 <= k < |cands| && NegativeWeight(w, cands[k])
  }

  /** The candidates with a positive weight, in order: the rows a weighted draw can return. */
  function Weighted(cands: seq<nat>, w: seq<Option<real>>): (r: seq<nat>)
    ensures forall x :: x in r <==> x in cands && PositiveWeight(w, x)
    ensures |r| <= |cands|
  {
    if cands == [] then []
    else
      var init := Weighted(cands[..|cands| - 1], w);
      var last := cands[|cands| - 1];
      assert cands == cands[..|cands| - 1] + [last];
      if PositiveWeight(w, last) then init + [last] else init
  }

  /** A list of IDs in strictly increasing order. */
  predicate Increasing(xs: seq<nat>)
  {
    forall k, l :: 0 <= k < l < |xs| ==> xs[k] < xs[l]
  }

  /** Filtering an increasing list keeps it increasing. */
  lemma {:induction false} WeightedIncreasing(cands: seq<nat>, w: seq<Option<real>>)
    requires Increasing(cands)
    ensures Increasing(Weighted(cands, w))
  {
    if cands != [] {
      var init, last := cands[..|cands| - 1], cands[|cands| - 1];
      assert Increasing(init) by {
        forall k, l | 0 <= k < l < |init| ensures init[k] < init[l] {
          assert init[k] == cands[k] && init[l] == cands[l];
        }
      }
      WeightedIncreasing(init, w);
      var r0 := Weighted(init, w);
      forall k | 0 <= k < |r0| ensures r0[k] < last {
        assert r0[k] in init;
        var j :| 0 <= j < |init| && init[j] == r0[k];
        assert cands[j] == init[j];
      }
      var r := Weighted(cands, w);
      if PositiveWeight(w, last) {
        assert r == r0 + [last];
        forall k, l | 0 <= k < l < |r| ensures r[k] < r[l] {
          assert r[k] == r0[k];
          if l < |r0| {
            assert r[l] == r0[l];
          }
        }
      } else {
        assert r == r0;
      }
    }
  }

  lemma IncreasingDistinct(xs: seq<nat>, n: nat)
    requires Increasing(xs) && n <= |xs|
    ensures Distinct(xs[..n])
  {
    forall i, j | 0 <= i < j < n ensures xs[..n][i] != xs[..n][j] {
      assert xs[..n][i] == xs[i] && xs[..n][j] == xs[j];
    }
  }

  /**
   * One stratum's draw: `size` distinct IDs among its candidates, each of a positive weight
   * (`sample(n=size, replace=False, weights=column_to_sample)` never returns a row of weight 0 or NaN).
   */
  predicate ValidPick(cands: seq<nat>, w: seq<Option<real>>, size: int, pick: seq<nat>)
  {
    |pick| == size && Distinct(pick) && forall k :: 0 <= k < |pick| ==> pick[k] in cands && PositiveWeight(w, pick[k])
  }

  /**
   * Why `rand_smp` stops at a stratum: no `sampling_size` column; not strictly more
   * candidates than requested (RuntimeError); then, inside `sample`, a negative sample size,
   * a negative weight, weights summing to zero (no positive weight), or fewer rows of
   * positive weight than requested (all ValueError).
   */
  function StratumError(peps: seq<Peptide>, w: seq<Option<real>>, p: Planned): Option<AnalysisError>
  {
    if p.size.None? then Some(AttributeError)
    else
      var cands := Candidates(peps, Key(p));
      if !(|cands| > p.size.value) then Some(RuntimeError)
      else if p.size.value < 0 then Some(ValueError)
      else if SomeNegative(cands, w) then Some(ValueError)
      else if |Weighted(cands, w)| == 0 then Some(ValueError)
      else if |Weighted(cands, w)| < p.size.value then Some(ValueError)
      else None
  }

  /** The error of the first stratum, in plan order, that stops `rand_smp` on column `w`. */
  function DrawError(peps: seq<Peptide>, w: seq<Option<real>>, plan: seq<Planned>): Option<AnalysisError>
  {
    if plan == [] then None
    else
      match DrawError(peps, w, plan[..|plan| - 1])
      case Some(e) => Some(e)
      case None => StratumError(peps, w, plan[|plan| - 1])
  }

  /** A draw for every stratum of the plan. */
  predicate ValidDraw(peps: seq<Peptide>, w: seq<Option<real>>, plan: seq<Planned>, picks: seq<seq<nat>>)
  {
    |picks| == |plan| &&
    forall k :: 0 <= k < |plan| ==>
      plan[k].size.Some? && ValidPick(Candidates(peps, Key(plan[k])), w, plan[k].size.value, picks[k])
  }

  lemma ValidDrawSnoc(peps: seq<Peptide>, w: seq<Option<real>>, plan: seq<Planned>, j: nat, picks: seq<seq<nat>>, pick: seq<nat>)
    requires j < |plan| && ValidDraw(peps, w, plan[..j], picks)
    requires plan[j].size.Some? && ValidPick(Candidates(peps, Key(plan[j])), w, plan[j].size.value, pick)
    ensures ValidDraw(peps, w, plan[..j + 1], picks + [pick])
  {
    var longer, more := plan[..j + 1], picks + [pick];
    forall k | 0 <= k < j + 1
      ensures longer[k].size.Some? && ValidPick(Candidates(peps, Key(longer[k])), w, longer[k].size.value, more[k])
    {
      if k < j {
        assert longer[k] == plan[..j][k] && more[k] == picks[k];
      }
    }
  }

  /** Once a prefix of the plan stops the sampling, the whole plan stops with the same error. */
  lemma {:induction false} DrawErrorPrefix(peps: seq<Peptide>, w: seq<Option<real>>, plan: seq<Planned>, j: nat)
    requires j <= |plan| && DrawError(peps, w, plan[..j]).Some?
    ensures DrawError(peps, w, plan) == DrawError(peps, w, plan[..j])
    decreases |plan| - j
  {
    if j < |plan| {
      assert plan[..j + 1][..j] == plan[..j];
      DrawErrorPrefix(peps, w, plan, j + 1);
    } else {
      assert plan[..j] == plan;
    }
  }

  /**
   * `rand_smp` on the weight column `w`: per stratum in plan order, `size` distinct IDs of its
   * peptides of positive weight, flattened. Which of them the weighted draw (after the shuffle)
   * returns is a choice.
   */
  method RandSmp(peps: seq<Peptide>, w: seq<Option<real>>, plan: seq<Planned>) returns (r: Result<seq<nat>, AnalysisError>, ghost picks: seq<seq<nat>>)
    ensures r.Err? <==> DrawError(peps, w, plan).Some?
    ensures r.Err? ==> r.error == DrawError(peps, w, plan).value
    ensures r.Ok? ==> ValidDraw(peps, w, plan, picks) && r.value == Flatten(picks)
  {
    var ids: seq<nat> := [];
    picks := [];
    var j := 0;
    while j < |plan|
      invariant 0 <= j <= |plan|
      invariant DrawError(peps, w, plan[..j]).None?
      invariant ValidDraw(peps, w, plan[..j], picks) && ids == Flatten(picks)
    {
      var p := plan[j];
      assert plan[..j + 1][..j] == plan[..j];
      assert DrawError(peps, w, plan[..j + 1]) == StratumError(peps, w, p);
      var err, pick := DrawStratum(peps, w, p);
      if err.Some? {
        DrawErrorPrefix(peps, w, plan, j + 1);
        return Err(err.value), picks;
      }
      ValidDrawSnoc(peps, w, plan, j, picks, pick);
      FlattenSnoc(picks, pick);
      ids := ids + pick;
      picks := picks + [pick];
      j := j + 1;
    }
    assert plan[..j] == plan;
    r := Ok(ids);
  }

  /** One stratum of `rand_smp`: its error, or `size` distinct IDs of its candidates of positive weight. */
  method DrawStratum(peps: seq<Peptide>, w: seq<Option<real>>, p: Planned) returns (err: Option<AnalysisError>, pick: seq<nat>)
    ensures err == StratumError(peps, w, p)
    ensures err.None? ==> p.size.Some? && ValidPick(Candidates(peps, Key(p)), w, p.size.value, pick)
  {
    var cands := Candidates(peps, Key(p));
    pick := [];
    if p.size.None? {
      return Some(AttributeError), pick;
    }
    var size := p.size.value;
    if !(|cands| > size) {
      return Some(RuntimeError), pick;
    }
    if size < 0 || SomeNegative(cands, w) {
      return Some(ValueError), pick;
    }
    var pos := Weighted(cands, w);
    if |pos| == 0 || |pos| < size {
      return Some(ValueError), pick;
    }
    WeightedIncreasing(cands, w);
    IncreasingDistinct(pos, size);
    assert ValidPick(cands, w, size, pos[..size]);
    pick :| ValidPick(cands, w, size, pick);
    err := None;
  }

  /**
   * A stratum `rand_smp` can draw from: a size s with 0 <= s < its number of candidates,
   * no negative weight among them, and at least max(s, 1) of them of positive weight.
   */
  predicate Drawable(peps: seq<Peptide>, w: seq<Option<real>>, p: Planned)
  {
    var cands := Candidates(peps, Key(p));
    p.size.Some? && 0 <= p.size.value < |cands| && !SomeNegative(cands, w) &&
    0 < |Weighted(cands, w)| && p.size.value <= |Weighted(cands, w)|
  }

  /** `rand_smp` goes through exactly when every stratum is drawable. */
  lemma DrawErrorNone(peps: seq<Peptide>, w: seq<Option<real>>, plan: seq<Planned>)
    ensures DrawError(peps, w, plan).None? <==> forall k :: 0 <= k < |plan| ==> Drawable(peps, w, plan[k])
  {
    if DrawError(peps, w, plan).None? {
      forall k | 0 <= k < |plan| ensures Drawable(peps, w, plan[k]) {
        DrawnDrawableAt(peps, w, plan, k);
      }
    } else if forall k :: 0 <= k < |plan| ==> Drawable(peps, w, plan[k]) {
      DrawableDrawn(peps, w, plan);
    }
  }

  /** One stratum stops `rand_smp` exactly when it is not drawable. */
  lemma StratumErrorNone(peps: seq<Peptide>, w: seq<Option<real>>, p: Planned)
    ensures StratumError(peps, w, p).None? <==> Drawable(peps, w, p)
  {
  }

  /** When `rand_smp` goes through, stratum k was drawable. */
  lemma {:induction false} DrawnDrawableAt(peps: seq<Peptide>, w: seq<Option<real>>, plan: seq<Planned>, k: nat)
    requires DrawError(peps, w, plan).None? && k < |plan|
    ensures Drawable(peps, w, plan[k])
  {
    var init, last := plan[..|plan| - 1], plan[|plan| - 1];
    assert DrawError(peps, w, init).None? && StratumError(peps, w, last).None?;
    if k == |plan| - 1 {
      StratumErrorNone(peps, w, last);
    } else {
      DrawnDrawableAt(peps, w, init, k);
      assert plan[k] == init[k];
    }
  }

  lemma {:induction false} DrawableDrawn(peps: seq<Peptide>, w: seq<Option<real>>, plan: seq<Planned>)
    requires forall k :: 0 <= k < |plan| ==> Drawable(peps, w, plan[k])
    ensures DrawError(peps, w, plan).None?
  {
    if plan != [] {
      var init, last := plan[..|plan| - 1], plan[|plan| - 1];
      forall k | 0 <= k < |init| ensures Drawable(peps, w, init[k]) {
        assert init[k] == plan[k];
      }
      DrawableDrawn(peps, w, init);
      StratumErrorNone(peps, w, last);
    }
  }

  /**
   * A stratum whose rows all weigh 0 or NaN in the column (every row of a protein that
   * `simulate_abundance_cli` set to 0, or one missing from the weight file) stops
   * `rand_smp` with ValueError, whatever its size.
   */
  lemma UnweightedStratumFails(peps: seq<Peptide>, w: seq<Option<real>>, p: Planned)
    requires p.size.Some? && 0 <= p.size.value < |Candidates(peps, Key(p))|
    requires forall i :: 0 <= i < |peps| && peps[i] == Peptide(p.enzyme, p.mc) ==> !PositiveWeight(w, i)
    ensures StratumError(peps, w, p) == Some(ValueError)
  {
    var cands := Candidates(peps, Key(p));
    CandidatesOfStratum(peps, p.enzyme, p.mc);
    forall k | 0 <= k < |cands| ensures !PositiveWeight(w, cands[k]) {
      assert peps[cands[k]] == Peptide(p.enzyme, p.mc);
    }
    WeightedEmpty(cands, w);
  }

  lemma {:induction false} WeightedEmpty(cands: seq<nat>, w: seq<Option<real>>)
    requires forall k :: 0 <= k < |cands| ==> !PositiveWeight(w, cands[k])
    ensures Weighted(cands, w) == []
  {
    if cands != [] {
      WeightedEmpty(cands[..|cands| - 1], w);
    }
  }

  /** Two rows of a stratum, one of weight 0.0 and one NaN, and a size of 1: the draw raises ValueError. */
  lemma UnweightedPairFails(e: String, m: int)
    ensures StratumError([Peptide(e, m), Peptide(e, m)], [Some(0.0), None], Planned(e, m, Some(1))) == Some(ValueError)
  {
    var peps := [Peptide(e, m), Peptide(e, m)];
    CandidatesOfStratum(peps, e, m);
    assert CountRows(peps, e, m) == 2 by {
      assert peps[..1] == [Peptide(e, m)];
      assert peps[..1][..0] == [];
    }
    UnweightedStratumFails(peps, [Some(0.0), None], Planned(e, m, Some(1)));
  }

  /** A stratum with fewer rows of positive weight than its size stops `rand_smp`, even with more rows than the size. */
  lemma FewWeightedFails(peps: seq<Peptide>, w: seq<Option<real>>, p: Planned)
    requires p.size.Some? && |Weighted(Candidates(peps, Key(p)), w)| < p.size.value
    ensures StratumError(peps, w, p).Some?
  {
  }

  /** The sum of the sizes of a plan (missing sizes count 0). */
  function TotalSize(plan: seq<Planned>): int
  {
    if plan == [] then 0
    else TotalSize(plan[..|plan| - 1]) + (if plan[|plan| - 1].size.Some? then plan[|plan| - 1].size.value else 0)
  }

  /** A draw returns as many IDs as the plan's sizes add up to. */
  lemma {:induction false} DrawLength(peps: seq<Peptide>, w: seq<Option<real>>, plan: seq<Planned>, picks: seq<seq<nat>>)
    requires ValidDraw(peps, w, plan, picks)
    ensures |Flatten(picks)| == TotalSize(plan)
  {
    if plan != [] {
      var n := |plan| - 1;
      assert picks == picks[..n] + [picks[n]];
      ValidDrawPrefix(peps, w, plan, picks);
      DrawLength(peps, w, plan[..n], picks[..n]);
      FlattenSnoc(picks[..n], picks[n]);
    }
  }

  lemma ValidDrawPrefix(peps: seq<Peptide>, w: seq<Option<real>>, plan: seq<Planned>, picks: seq<seq<nat>>)
    requires ValidDraw(peps, w, plan, picks) && |plan| > 0
    ensures ValidDraw(peps, w, plan[..|plan| - 1], picks[..|plan| - 1])
  {
  }

  /** Every ID drawn for a stratum is a peptide of that stratum, of positive weight. */
  lemma DrawMembership(peps: seq<Peptide>, w: seq<Option<real>>, plan: seq<Planned>, picks: seq<seq<nat>>, k: nat, x: nat)
    requires ValidDraw(peps, w, plan, picks) && k < |plan| && x in picks[k]
    ensures x < |peps| && peps[x] == Peptide(plan[k].enzyme, plan[k].mc)
    ensures PositiveWeight(w, x)
  {
    CandidatesOfStratum(peps, plan[k].enzyme, plan[k].mc);
  }

  /** No row of weight 0, NaN or below is ever drawn. */
  lemma DrawnWeighted(peps: seq<Peptide>, w: seq<Option<real>>, plan: seq<Planned>, picks: seq<seq<nat>>, x: nat)
    requires ValidDraw(peps, w, plan, picks) && x in Flatten(picks)
    ensures PositiveWeight(w, x)
  {
    FlattenMember(picks, x);
    var k :| 0 <= k < |picks| && x in picks[k];
    DrawMembership(peps, w, plan, picks, k, x);
  }

  lemma {:induction false} FlattenMember<T>(gs: seq<seq<T>>, x: T)
    requires x in Flatten(gs)
    ensures exists k :: 0 <= k < |gs| && x in gs[k]
  {
    var n := |gs| - 1;
    if x !in gs[n] {
      FlattenMember(gs[..n], x);
      var k :| 0 <= k < n && x in gs[..n][k];
      assert gs[..n][k] == gs[k];
    }
  }

  /** With distinct strata, no ID is drawn twice in one trial. */
  lemma {:induction false} DrawDistinct(peps: seq<Peptide>, w: seq<Option<real>>, plan: seq<Planned>, picks: seq<seq<nat>>)
    requires ValidDraw(peps, w, plan, picks)
    requires forall k, l :: 0 <= k < l < |plan| ==> Key(plan[k]) != Key(plan[l])
    ensures Distinct(Flatten(picks))
  {
    if plan != [] {
      var n := |plan| - 1;
      var init, last := picks[..n], picks[n];
      ValidDrawPrefix(peps, w, plan, picks);
      DrawDistinct(peps, w, plan[..n], init);
      assert picks == init + [last];
      FlattenSnoc(init, last);
      var f := Flatten(init);
      forall a, b | 0 <= a < |f| && 0 <= b < |last|
        ensures f[a] != last[b]
      {
        FlattenMember(init, f[a]);
        var k :| 0 <= k < n && f[a] in init[k];
        PickedCandidate(peps, w, plan, picks, k, f[a]);
        PickedCandidate(peps, w, plan, picks, n, last[b]);
        CandidatesDisjoint(peps, Key(plan[k]), Key(plan[n]), f[a]);
      }
      DistinctAppend(f, last);
    }
  }

  lemma PickedCandidate(peps: seq<Peptide>, w: seq<Option<real>>, plan: seq<Planned>, picks: seq<seq<nat>>, k: nat, x: nat)
    requires ValidDraw(peps, w, plan, picks) && k < |plan| && x in picks[k]
    ensures x in Candidates(peps, Key(plan[k]))
  {
    var j :| 0 <= j < |picks[k]| && picks[k][j] == x;
  }

  /** Rows of different subsets share no candidate. */
  lemma CandidatesDisjoint(peps: seq<Peptide>, key1: String, key2: String, x: nat)
    requires key1 != key2 && x in Candidates(peps, key1)
    ensures x !in Candidates(peps, key2)
  {
  }

  lemma DistinctAppend<T>(a: seq<T>, b: seq<T>)
    requires Distinct(a) && Distinct(b)
    requires forall i, j :: 0 <= i < |a| && 0 <= j < |b| ==> a[i] != b[j]
    ensures Distinct(a + b)
  {
    forall i, j | 0 <= i < j < |a + b|
      ensures (a + b)[i] != (a + b)[j]
    {
      if j < |a| {
        assert (a + b)[i] == a[i] && (a + b)[j] == a[j];
      } else if i < |a| {
        assert (a + b)[i] == a[i] && (a + b)[j] == b[j - |a|];
      } else {
        assert (a + b)[i] == b[i - |a|] && (a + b)[j] == b[j - |a|];
      }
    }
  }

  /**
   * The clamp of `get_peps_required` meets the strict check of `rand_smp`: a stratum that
   * asked for at least all of its peptides gets exactly its count, and sampling stops.
   */
  lemma ClampedStratumAborts(peps: seq<Peptide>, w: seq<Option<real>>, norm: seq<NormRow>, proteases: seq<String>, totals: seq<int>, i: nat)
    requires |totals| == |proteases| && i < |norm|
    requires var rows := GetPepCounts(peps, norm);
      PlanFromTotals(rows, proteases, totals).Ok? &&
      RawSize(Lookup(proteases, totals, norm[i].enzyme), norm[i].freq).Some? &&
      RawSize(Lookup(proteases, totals, norm[i].enzyme), norm[i].freq).value >= CountRows(peps, norm[i].enzyme, norm[i].mc)
    ensures DrawError(peps, w, PlanFromTotals(GetPepCounts(peps, norm), proteases, totals).value.0).Some?
  {
    var rows := GetPepCounts(peps, norm);
    var plan := PlanFromTotals(rows, proteases, totals).value.0;
    PlanSizes(rows, proteases, totals, i);
    GetPepCountsSpec(peps, norm, i);
    CandidatesOfStratum(peps, norm[i].enzyme, norm[i].mc);
    assert plan[i].size.value == CountRows(peps, norm[i].enzyme, norm[i].mc);
    assert !Drawable(peps, w, plan[i]);
    DrawErrorNone(peps, w, plan);
  }

  // ================================================================ main: sampling columns

  /** A weight column that `main` samples by: its lower-cased name starts with "random_sampling_". */
  predicate IsRandomSamplingColumn(c: String)
  {
    StartsWith(Lower(c), "random_sampling_")
  }

  /** The random sampling columns, in column order. */
  function RandomSamplingColumns(cs: seq<String>): (r: seq<String>)
    ensures forall c :: c in r <==> c in cs && IsRandomSamplingColumn(c)
  {
    if cs == [] then []
    else
      var init := RandomSamplingColumns(cs[..|cs| - 1]);
      assert cs == cs[..|cs| - 1] + [cs[|cs| - 1]];
      if IsRandomSamplingColumn(cs[|cs| - 1]) then init + [cs[|cs| - 1]] else init
  }

  /** `smp_col.lower().replace("random_sampling_", "sampling_")`. */
  function SamplingColumnName(c: String): String
  {
    Replace(Lower(c), "random_sampling_", "sampling_")
  }

  /** The recorded column of a random sampling column is named "sampling_" followed by the rest of its name. */
  lemma SamplingColumnNamePrefix(c: String)
    requires IsRandomSamplingColumn(c)
    ensures var l := Lower(c);
      SamplingColumnName(c) == "sampling_" + Replace(l[|"random_sampling_"|..], "random_sampling_", "sampling_")
    ensures StartsWith(SamplingColumnName(c), "sampling_")
  {
  }

  /** The trial's 0/1 column: 1 exactly on the returned IDs. */
  function SamplingColumn(n: nat, ids: seq<nat>): (r: seq<int>)
    ensures |r| == n
  {
    if n == 0 then [] else SamplingColumn(n - 1, ids) + [if n - 1 in ids then 1 else 0]
  }

  lemma {:induction false} SamplingColumnAt(n: nat, ids: seq<nat>, i: nat)
    requires i < n
    ensures SamplingColumn(n, ids)[i] == if i in ids then 1 else 0
  {
    if i < n - 1 {
      SamplingColumnAt(n - 1, ids, i);
    }
  }

  /** Number of 1s in a column. */
  function Ones(col: seq<int>): nat
  {
    if col == [] then 0 else Ones(col[..|col| - 1]) + (if col[|col| - 1] == 1 then 1 else 0)
  }

  /** The IDs below n. */
  ghost function Below(ids: seq<nat>, n: nat): set<nat>
  {
    set x: nat | x in ids && x < n
  }

  lemma BelowStep(ids: seq<nat>, n: nat)
    ensures Below(ids, n + 1) == Below(ids, n) + (if n in ids then {n} else {})
    ensures n !in Below(ids, n)
  {
  }

  lemma {:induction false} OnesBelow(n: nat, ids: seq<nat>)
    ensures Ones(SamplingColumn(n, ids)) == |Below(ids, n)|
  {
    if n > 0 {
      OnesBelow(n - 1, ids);
      var col := SamplingColumn(n, ids);
      assert col[..n - 1] == SamplingColumn(n - 1, ids);
      assert Ones(col) == Ones(col[..n - 1]) + (if col[n - 1] == 1 then 1 else 0);
      BelowStep(ids, n - 1);
    }
  }

  lemma {:induction false} DistinctCard<T>(xs: seq<T>)
    requires Distinct(xs)
    ensures |set x | x in xs| == |xs|
  {
    if xs != [] {
      var init := xs[..|xs| - 1];
      assert Distinct(init);
      DistinctCard(init);
      assert (set x | x in xs) == (set x | x in init) + {xs[|xs| - 1]};
      assert xs[|xs| - 1] !in init;
    }
  }

  /** A column built from distinct IDs of rows holds as many 1s as there are IDs. */
  lemma SamplingColumnOnes(n: nat, ids: seq<nat>)
    requires Distinct(ids) && forall k :: 0 <= k < |ids| ==> ids[k] < n
    ensures Ones(SamplingColumn(n, ids)) == |ids|
  {
    OnesBelow(n, ids);
    DistinctCard(ids);
    var below, all := Below(ids, n), set x: nat | x in ids;
    assert forall x :: x in all ==> x in below;
    assert below == all;
  }

  /** One recorded trial: the 0/1 column's name and its values. */
  datatype Trial = Trial(name: String, column: seq<int>)

  /** The weights of the column named `c`, one per peptide row (`pep_df[c]`). */
  function ColumnWeights(weights: map<String, seq<Option<real>>>, c: String): seq<Option<real>>
  {
    if c in weights then weights[c] else []
  }

  /** The error of the first random sampling column, in order, whose `rand_smp` stops. */
  function TrialsError(peps: seq<Peptide>, plan: seq<Planned>, weights: map<String, seq<Option<real>>>, names: seq<String>): Option<AnalysisError>
  {
    if names == [] then None
    else
      match TrialsError(peps, plan, weights, names[..|names| - 1])
      case Some(e) => Some(e)
      case None => DrawError(peps, ColumnWeights(weights, names[|names| - 1]), plan)
  }

  lemma TrialsErrorStep(peps: seq<Peptide>, plan: seq<Planned>, weights: map<String, seq<Option<real>>>, names: seq<String>, t: nat)
    requires t < |names| && TrialsError(peps, plan, weights, names[..t]).None?
    ensures TrialsError(peps, plan, weights, names[..t + 1]) == DrawError(peps, ColumnWeights(weights, names[t]), plan)
  {
    assert names[..t + 1][..t] == names[..t];
  }

  /** Once the trials of a prefix of the columns stop, the whole loop stops with the same error. */
  lemma {:induction false} TrialsErrorPrefix(peps: seq<Peptide>, plan: seq<Planned>, weights: map<String, seq<Option<real>>>, names: seq<String>, t: nat)
    requires t <= |names| && TrialsError(peps, plan, weights, names[..t]).Some?
    ensures TrialsError(peps, plan, weights, names) == TrialsError(peps, plan, weights, names[..t])
    decreases |names| - t
  {
    if t < |names| {
      assert names[..t + 1][..t] == names[..t];
      TrialsErrorPrefix(peps, plan, weights, names, t + 1);
    } else {
      assert names[..t] == names;
    }
  }

  /** The draw for the column named `c` goes through. */
  predicate TrialOk(peps: seq<Peptide>, plan: seq<Planned>, weights: map<String, seq<Option<real>>>, c: String)
  {
    DrawError(peps, ColumnWeights(weights, c), plan).None?
  }

  /** The sampling loop goes through exactly when the draw of every column goes through, each by its own weights. */
  lemma TrialsErrorNone(peps: seq<Peptide>, plan: seq<Planned>, weights: map<String, seq<Option<real>>>, names: seq<String>)
    ensures TrialsError(peps, plan, weights, names).None? <==> forall t :: 0 <= t < |names| ==> TrialOk(peps, plan, weights, names[t])
  {
    if TrialsError(peps, plan, weights, names).None? {
      forall t | 0 <= t < |names| ensures TrialOk(peps, plan, weights, names[t]) {
        TrialOkAt(peps, plan, weights, names, t);
      }
    } else if forall t :: 0 <= t < |names| ==> TrialOk(peps, plan, weights, names[t]) {
      TrialsOk(peps, plan, weights, names);
    }
  }

  /** When the sampling loop goes through, the draw of column t went through. */
  lemma {:induction false} TrialOkAt(peps: seq<Peptide>, plan: seq<Planned>, weights: map<String, seq<Option<real>>>, names: seq<String>, t: nat)
    requires TrialsError(peps, plan, weights, names).None? && t < |names|
    ensures TrialOk(peps, plan, weights, names[t])
  {
    var init := names[..|names| - 1];
    if t < |names| - 1 {
      TrialOkAt(peps, plan, weights, init, t);
      assert init[t] == names[t];
    }
  }

  lemma {:induction false} TrialsOk(peps: seq<Peptide>, plan: seq<Planned>, weights: map<String, seq<Option<real>>>, names: seq<String>)
    requires forall t :: 0 <= t < |names| ==> TrialOk(peps, plan, weights, names[t])
    ensures TrialsError(peps, plan, weights, names).None?
  {
    if names != [] {
      var init := names[..|names| - 1];
      forall t | 0 <= t < |init| ensures TrialOk(peps, plan, weights, init[t]) {
        assert init[t] == names[t];
      }
      TrialsOk(peps, plan, weights, init);
    }
  }

  /**
   * `main`'s sampling loop: one `rand_smp` per random sampling column, each weighted by that
   * column, recorded as a 0/1 column over all peptides. The first trial that fails stops the run.
   */
  method SampleTrials(peps: seq<Peptide>, plan: seq<Planned>, columns: seq<String>, weights: map<String, seq<Option<real>>>)
    returns (r: Result<seq<Trial>, AnalysisError>, ghost draws: seq<seq<seq<nat>>>)
    requires forall c :: c in columns ==> c in weights
    ensures r.Err? <==> TrialsError(peps, plan, weights, RandomSamplingColumns(columns)).Some?
    ensures r.Err? ==> r.error == TrialsError(peps, plan, weights, RandomSamplingColumns(columns)).value
    ensures r.Ok? ==> Recorded(peps, plan, weights, RandomSamplingColumns(columns), r.value, draws)
  {
    var trials := RandomSamplingColumns(columns);
    var out: seq<Trial> := [];
    draws := [];
    var t := 0;
    while t < |trials|
      invariant 0 <= t <= |trials|
      invariant TrialsError(peps, plan, weights, trials[..t]).None?
      invariant Recorded(peps, plan, weights, trials[..t], out, draws)
    {
      var w := weights[trials[t]];
      TrialsErrorStep(peps, plan, weights, trials, t);
      var ids, picks := RandSmp(peps, w, plan);
      if ids.Err? {
        TrialsErrorPrefix(peps, plan, weights, trials, t + 1);
        return Err(ids.error), draws;
      }
      RecordedStep(peps, plan, weights, trials, t, out, draws, ids.value, picks);
      out := out + [Trial(SamplingColumnName(trials[t]), SamplingColumn(|peps|, ids.value))];
      draws := draws + [picks];
      t := t + 1;
    }
    assert trials[..t] == trials;
    r := Ok(out);
  }

  /** Trial `t` recorded a valid draw, by its own weights, for the `t`-th random sampling column. */
  predicate Recorded(peps: seq<Peptide>, plan: seq<Planned>, weights: map<String, seq<Option<real>>>, names: seq<String>,
                     trials: seq<Trial>, draws: seq<seq<seq<nat>>>)
  {
    |trials| == |names| == |draws| &&
    forall t :: 0 <= t < |names| ==>
      ValidDraw(peps, ColumnWeights(weights, names[t]), plan, draws[t]) &&
      trials[t] == Trial(SamplingColumnName(names[t]), SamplingColumn(|peps|, Flatten(draws[t])))
  }

  lemma RecordedStep(peps: seq<Peptide>, plan: seq<Planned>, weights: map<String, seq<Option<real>>>, names: seq<String>, t: nat,
                     trials: seq<Trial>, draws: seq<seq<seq<nat>>>, ids: seq<nat>, picks: seq<seq<nat>>)
    requires t < |names| && Recorded(peps, plan, weights, names[..t], trials, draws)
    requires ValidDraw(peps, ColumnWeights(weights, names[t]), plan, picks) && ids == Flatten(picks)
    ensures Recorded(peps, plan, weights, names[..t + 1],
                     trials + [Trial(SamplingColumnName(names[t]), SamplingColumn(|peps|, ids))], draws + [picks])
  {
    assert names[..t] + [names[t]] == names[..t + 1];
    RecordedSnoc(peps, plan, weights, names[..t], trials, draws, names[t], ids, picks, names[..t + 1]);
  }

  lemma RecordedSnoc(peps: seq<Peptide>, plan: seq<Planned>, weights: map<String, seq<Option<real>>>, names: seq<String>,
                     trials: seq<Trial>, draws: seq<seq<seq<nat>>>, name: String, ids: seq<nat>, picks: seq<seq<nat>>,
                     longer: seq<String>)
    requires Recorded(peps, plan, weights, names, trials, draws)
    requires ValidDraw(peps, ColumnWeights(weights, name), plan, picks) && ids == Flatten(picks)
    requires longer == names + [name]
    ensures Recorded(peps, plan, weights, longer, trials + [Trial(SamplingColumnName(name), SamplingColumn(|peps|, ids))], draws + [picks])
  {
  }

  /** `pep_used`: the number of trials that drew row `i`. */
  function PepUsed(trials: seq<Trial>, i: nat): int
  {
    if trials == [] then 0
    else
      var col := trials[|trials| - 1].column;
      PepUsed(trials[..|trials| - 1], i) + (if i < |col| then col[i] else 0)
  }

  /** The rows kept after sampling (`pep_used > 0`), in row order. */
  function UsedRows(trials: seq<Trial>, n: nat): (r: seq<nat>)
    ensures forall k :: 0 <= k < |r| ==> r[k] < n
    ensures forall i :: 0 <= i < n ==> (i in r <==> PepUsed(trials, i) > 0)
  {
    if n == 0 then [] else
      var init := UsedRows(trials, n - 1);
      if PepUsed(trials, n - 1) > 0 then init + [n - 1] else init
  }

  /** Over 0/1 columns, `pep_used` is positive exactly when some column has a 1 there. */
  lemma {:induction false} PepUsedPositive(trials: seq<Trial>, i: nat)
    requires forall t :: 0 <= t < |trials| ==> forall j :: 0 <= j < |trials[t].column| ==> trials[t].column[j] in {0, 1}
    ensures PepUsed(trials, i) > 0 <==> exists t :: 0 <= t < |trials| && i < |trials[t].column| && trials[t].column[i] == 1
    ensures PepUsed(trials, i) >= 0
  {
    if trials != [] {
      var init := trials[..|trials| - 1];
      PepUsedPositive(init, i);
      assert forall t :: 0 <= t < |init| ==> init[t] == trials[t];
    }
  }

  /** After sampling, a peptide is kept exactly when some trial drew it. */
  lemma KeptIffDrawn(peps: seq<Peptide>, plan: seq<Planned>, weights: map<String, seq<Option<real>>>, names: seq<String>,
                     trials: seq<Trial>, draws: seq<seq<seq<nat>>>, i: nat)
    requires Recorded(peps, plan, weights, names, trials, draws)
    requires i < |peps|
    ensures i in UsedRows(trials, |peps|) <==> exists t :: 0 <= t < |draws| && i in Flatten(draws[t])
  {
    forall t, j | 0 <= t < |trials| && 0 <= j < |trials[t].column|
      ensures trials[t].column[j] in {0, 1}
    {
      SamplingColumnAt(|peps|, Flatten(draws[t]), j);
    }
    PepUsedPositive(trials, i);
    forall t | 0 <= t < |trials|
      ensures trials[t].column[i] == 1 <==> i in Flatten(draws[t])
    {
      SamplingColumnAt(|peps|, Flatten(draws[t]), i);
    }
  }

  /** A peptide kept after sampling has a positive weight in the column of some trial. */
  lemma KeptWeighted(peps: seq<Peptide>, plan: seq<Planned>, weights: map<String, seq<Option<real>>>, names: seq<String>,
                     trials: seq<Trial>, draws: seq<seq<seq<nat>>>, i: nat)
    requires Recorded(peps, plan, weights, names, trials, draws)
    requires i < |peps| && i in UsedRows(trials, |peps|)
    ensures exists t :: 0 <= t < |names| && PositiveWeight(ColumnWeights(weights, names[t]), i)
  {
    KeptIffDrawn(peps, plan, weights, names, trials, draws, i);
    var t :| 0 <= t < |draws| && i in Flatten(draws[t]);
    DrawnWeighted(peps, ColumnWeights(weights, names[t]), plan, draws[t], i);
  }
}
