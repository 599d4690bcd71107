/**
 * `config_to_numeric_list`: a configuration text such as "[0, 200, 999]" read
 * as its list of numbers, skipping the entries that are no numbers.
 */
module Tools {
  import opened Wrappers
  import opened Strings
  import A = Analysis

  /** The text with every ' ', '[' and ']' removed, split on ','. */
  function ConfigTokens(s: String): (ts: seq<String>)
    ensures |ts| >= 1
    ensures forall i :: 0 <= i < |ts| ==> ' ' !in ts[i] && '[' !in ts[i] && ']' !in ts[i] && ',' !in ts[i]
  {
    var t := RemoveChar(RemoveChar(RemoveChar(s, ' '), '['), ']');
    RemoveCharKeeps(RemoveChar(s, ' '), '[', ' ');
    RemoveCharKeeps(RemoveChar(RemoveChar(s, ' '), '['), ']', ' ');
    RemoveCharKeeps(RemoveChar(RemoveChar(s, ' '), '['), ']', '[');
    SplitKeeps(t, ',');
    Split(t, ',')
  }

  /** Removing one character leaves every other character absent that was absent. */
  lemma {:induction false} RemoveCharKeeps(s: String, c: char, d: char)
    requires d !in s
    ensures d !in RemoveChar(s, c)
  {
    if s != [] {
      RemoveCharKeeps(s[1..], c, d);
    }
  }

  /** The pieces of a split hold only characters of the text. */
  lemma {:induction false} SplitKeeps(s: String, c: char)
    ensures forall i, x :: 0 <= i < |Split(s, c)| && x in Split(s, c)[i] ==> x in s
  {
    if s != [] {
      SplitKeeps(s[1..], c);
      var rest := Split(s[1..], c);
      var r := Split(s, c);
      assert s == [s[0]] + s[1..];
      forall i, x | 0 <= i < |r| && x in r[i] ensures x in s {
        assert forall k, y :: 0 <= k < |rest| && y in rest[k] ==> y in s[1..];
        if s[0] == c {
          assert i >= 1 && r[i] == rest[i - 1];
        } else if i == 0 {
          assert r[0] == [s[0]] + rest[0];
        } else {
          assert r[i] == rest[i];
        }
      }
    }
  }

  /** The values of the tokens that `float()` reads, in token order. */
  function Numeric(ts: seq<String>): (r: seq<real>)
    ensures |r| <= |ts|
  {
    if ts == [] then []
    else Numeric(ts[..|ts| - 1]) + (match ParseReal(ts[|ts| - 1]) case Some(v) => [v] case None => [])
  }

  /** `config_to_numeric_list` as a value. */
  function ConfigNumeric(s: String): seq<real>
  {
    Numeric(ConfigTokens(s))
  }

  /** `config_to_numeric_list`: the replace loop, the split, and the loop that skips what `float()` rejects. */
  method ConfigToNumericList(s: String) returns (r: seq<real>)
    ensures r == ConfigNumeric(s)
  {
    var config := s;
    var invalid := " []";
    var k := 0;
    while k < |invalid|
      invariant 0 <= k <= |invalid|
      invariant config == if k == 0 then s else if k == 1 then RemoveChar(s, ' ')
                          else if k == 2 then RemoveChar(RemoveChar(s, ' '), '[')
                          else RemoveChar(RemoveChar(RemoveChar(s, ' '), '['), ']')
    {
      config := RemoveChar(config, invalid[k]);
      k := k + 1;
    }
    var tokens := Split(config, ',');
    assert tokens == ConfigTokens(s);
    r := [];
    var i := 0;
    while i < |tokens|
      invariant 0 <= i <= |tokens|
      invariant r == Numeric(tokens[..i])
    {
      var v := ParseReal(tokens[i]);
      assert tokens[..i + 1][..i] == tokens[..i];
      if v.Some? {
        r := r + [v.value];
      }
      i := i + 1;
    }
    assert tokens[..i] == tokens;
  }

  /** When every token is a number, the values are those `[float(t) for t in ...]` gives. */
  lemma {:induction false} NumericAll(ts: seq<String>)
    ensures A.ParseReals(ts).Some? <==> |Numeric(ts)| == |ts|
    ensures A.ParseReals(ts).Some? ==> Numeric(ts) == A.ParseReals(ts).value
  {
    if ts != [] {
      var init := ts[..|ts| - 1];
      NumericAll(init);
      ParseRealsSnoc(ts);
    }
  }

  /** `[float(t) for t in ts]` read one token at a time from the end. */
  lemma ParseRealsSnoc(ts: seq<String>)
    requires ts != []
    ensures var n := |ts| - 1;
      A.ParseReals(ts) ==
        match A.ParseReals(ts[..n])
        case None => None
        case Some(a) => (match ParseReal(ts[n]) case None => None case Some(b) => Some(a + [b]))
  {
    var n := |ts| - 1;
    var os := seq(|ts|, i requires 0 <= i < |ts| => ParseReal(ts[i]));
    var ios := seq(n, i requires 0 <= i < n => ParseReal(ts[..n][i]));
    assert os[..n] == ios;
    assert A.ParseReals(ts) == A.AllSome(os);
    assert A.ParseReals(ts[..n]) == A.AllSome(ios);
  }

  /** `x` is what `float()` reads from some token. */
  predicate ValueOf(ts: seq<String>, x: real)
  {
    exists i :: 0 <= i < |ts| && ParseReal(ts[i]) == Some(x)
  }

  /** Every value read is the value of one of the tokens. */
  lemma {:induction false} NumericFrom(ts: seq<String>)
    ensures forall j :: 0 <= j < |Numeric(ts)| ==> ValueOf(ts, Numeric(ts)[j])
  {
    if ts != [] {
      var init := ts[..|ts| - 1];
      NumericFrom(init);
      var r := Numeric(ts);
      forall j | 0 <= j < |r| ensures ValueOf(ts, r[j]) {
        if j < |Numeric(init)| {
          var i :| 0 <= i < |init| && ParseReal(init[i]) == Some(Numeric(init)[j]);
          assert ts[i] == init[i];
        } else {
          assert ParseReal(ts[|ts| - 1]) == Some(r[j]);
        }
      }
    }
  }

  /** The empty configuration (a single empty token) gives no value. */
  lemma EmptyConfig()
    ensures ConfigNumeric("") == []
  {
    assert ConfigTokens("") == [""];
  }

  /** Natural numbers written with `str()` and joined with ',' read back as those numbers. */
  lemma NumbersRoundTrip(ns: seq<nat>)
    requires |ns| >= 1
    ensures ConfigNumeric(Join(seq(|ns|, i requires 0 <= i < |ns| => NatToString(ns[i])), ",")) ==
            seq(|ns|, i requires 0 <= i < |ns| => ns[i] as real)
  {
    var parts := seq(|ns|, i requires 0 <= i < |ns| => NatToString(ns[i]));
    var text := Join(parts, ",");
    DigitsJoined(parts);
    RemoveCharAbsent(text, ' ');
    RemoveCharAbsent(text, '[');
    RemoveCharAbsent(text, ']');
    forall i | 0 <= i < |parts| ensures ',' !in parts[i] {
      assert AllDigits(parts[i]);
    }
    SplitJoin(parts, ',');
    assert ConfigTokens(text) == parts;
    var vals := seq(|ns|, i requires 0 <= i < |ns| => ns[i] as real);
    forall i | 0 <= i < |parts| ensures ParseReal(parts[i]) == Some(vals[i]) {
      ParseRealNatToString(ns[i]);
    }
    ParseRealsEach(parts, vals);
    NumericAll(parts);
  }

  lemma ParseRealsEach(ts: seq<String>, vals: seq<real>)
    requires |ts| == |vals|
    requires forall i :: 0 <= i < |ts| ==> ParseReal(ts[i]) == Some(vals[i])
    ensures A.ParseReals(ts) == Some(vals)
  {
    var os := seq(|ts|, i requires 0 <= i < |ts| => ParseReal(ts[i]));
    assert A.ParseReals(ts) == A.AllSome(os);
    assert forall i :: 0 <= i < |os| ==> os[i] == Some(vals[i]);
    A.AllSomeSome(os);
    var r := A.AllSome(os).value;
    assert |r| == |vals| && forall i :: 0 <= i < |r| ==> r[i] == vals[i];
    assert r == vals;
  }

  /** A join of digit strings with ',' holds only digits and commas. */
  lemma {:induction false} DigitsJoined(parts: seq<String>)
    requires forall i :: 0 <= i < |parts| ==> AllDigits(parts[i])
    ensures ' ' !in Join(parts, ",") && '[' !in Join(parts, ",") && ']' !in Join(parts, ",")
  {
    if |parts| == 1 {
      assert AllDigits(parts[0]);
    } else if |parts| > 1 {
      DigitsJoined(parts[1..]);
      assert AllDigits(parts[0]);
    }
  }
}
