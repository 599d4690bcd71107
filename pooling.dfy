// The pooling stage at the end of the peptide mapper's main: every mapped digest file is reduced to
// the peptides unique within it, tagged with its MC text and enzyme, concatenated, and the pool is
// then reduced to one row per (peptide, enzyme), the one with the lowest MC text.

module PeptidePooling {
  import opened Wrappers
  import opened Strings

  /** The three columns pooling reads from a mapped peptide file. */
  datatype MappedRow = MappedRow(peptide: String, protein: String, location: String)

  /** A pooled row: the mapped columns, then the MC text and the enzyme of its digest. */
  datatype PooledRow = PooledRow(peptide: String, protein: String, location: String, mc: String, enzyme: String)

  /** One mapped digest with the protease and the MC text of its line in the file list. */
  datatype Digest = Digest(rows: seq<MappedRow>, protease: String, mc: String)

  // ---------------------------------------------------------------- the mapped file list

  /** A line of the mapped file list: file name, protease and MC text, tab-separated. */
  function ListLine(file: String, protease: String, mc: String): String
  {
    file + "\t" + protease + "\t" + mc
  }

  /** Reading a list line back with `split('\t')` gives its three fields when none holds a tab. */
  lemma ListLineFields(file: String, protease: String, mc: String)
    requires '\t' !in file && '\t' !in protease && '\t' !in mc
    ensures Split(ListLine(file, protease, mc), '\t') == [file, protease, mc]
  {
    assert ListLine(file, protease, mc) == file + ['\t'] + (protease + ['\t'] + mc);
    SplitFirstPiece(file, protease + ['\t'] + mc, '\t');
    SplitFirstPiece(protease, mc, '\t');
    SplitNoSeparator(mc, '\t');
  }

  // ---------------------------------------------------------------- drop_duplicates(keep=False)

  /** How many rows carry peptide p. */
  function PeptideCount(rows: seq<MappedRow>, p: String): nat
  {
    if rows == [] then 0 else (if rows[0].peptide == p then 1 else 0) + PeptideCount(rows[1..], p)
  }

  /** The rows, in order, whose peptide occurs exactly once in `all`. */
  function UniqueIn(rows: seq<MappedRow>, all: seq<MappedRow>): seq<MappedRow>
  {
    if rows == [] then []
    else (if PeptideCount(all, rows[0].peptide) == 1 then [rows[0]] else []) + UniqueIn(rows[1..], all)
  }

  /** `drop_duplicates(subset="peptide", keep=False)`: every peptide seen twice is dropped entirely. */
  function UniquePeptides(rows: seq<MappedRow>): seq<MappedRow>
  {
    UniqueIn(rows, rows)
  }

  lemma {:induction false} UniqueInCount(rows: seq<MappedRow>, all: seq<MappedRow>, p: String)
    ensures PeptideCount(UniqueIn(rows, all), p) == if PeptideCount(all, p) == 1 then PeptideCount(rows, p) else 0
  {
    if rows != [] {
      UniqueInCount(rows[1..], all, p);
      var head := if PeptideCount(all, rows[0].peptide) == 1 then [rows[0]] else [];
      PeptideCountAppend(head, UniqueIn(rows[1..], all), p);
    }
  }

  lemma {:induction false} PeptideCountAppend(a: seq<MappedRow>, b: seq<MappedRow>, p: String)
    ensures PeptideCount(a + b, p) == PeptideCount(a, p) + PeptideCount(b, p)
  {
    if a != [] {
      assert (a + b)[0] == a[0];
      assert (a + b)[1..] == a[1..] + b;
      PeptideCountAppend(a[1..], b, p);
    } else {
      assert a + b == b;
    }
  }

  lemma {:induction false} UniqueInMembers(rows: seq<MappedRow>, all: seq<MappedRow>, r: MappedRow)
    ensures r in UniqueIn(rows, all) <==> r in rows && PeptideCount(all, r.peptide) == 1
  {
    if rows != [] {
      UniqueInMembers(rows[1..], all, r);
      assert rows == [rows[0]] + rows[1..];
    }
  }

  /**
   * Within one digest, a peptide keeps its single row when it occurs once and disappears when it
   * occurs more than once; rows are kept, never invented.
   */
  lemma UniquePeptidesSpec(rows: seq<MappedRow>, p: String, r: MappedRow)
    ensures PeptideCount(UniquePeptides(rows), p) == if PeptideCount(rows, p) == 1 then 1 else 0
    ensures r in UniquePeptides(rows) <==> r in rows && PeptideCount(rows, r.peptide) == 1
  {
    UniqueInCount(rows, rows, p);
    UniqueInMembers(rows, rows, r);
  }

  // ---------------------------------------------------------------- pooling the digests

  /** The digest's unique rows with its MC text and enzyme columns added. */
  function Tagged(d: Digest): seq<PooledRow>
  {
    var u := UniquePeptides(d.rows);
    seq(|u|, i requires 0 <= i < |u| => PooledRow(u[i].peptide, u[i].protein, u[i].location, d.mc, d.protease))
  }

  /** The unfiltered table: the tagged unique rows of every digest, in file-list order. */
  function Pooled(ds: seq<Digest>): seq<PooledRow>
  {
    if ds == [] then [] else Pooled(ds[..|ds| - 1]) + Tagged(ds[|ds| - 1])
  }

  /** The pooling loop of main, one digest at a time. */
  method PoolDigests(ds: seq<Digest>) returns (complete: seq<PooledRow>)
    ensures complete == Pooled(ds)
  {
    complete := [];
    var i := 0;
    while i < |ds|
      invariant 0 <= i <= |ds|
      invariant complete == Pooled(ds[..i])
    {
      var d := ds[i];
      var reduced := UniquePeptides(d.rows);
      var tagged: seq<PooledRow> := [];
      var j := 0;
      while j < |reduced|
        invariant 0 <= j <= |reduced|
        invariant tagged == Tagged(d)[..j]
      {
        var row := reduced[j];
        tagged := tagged + [PooledRow(row.peptide, row.protein, row.location, d.mc, d.protease)];
        j := j + 1;
      }
      assert ds[..i + 1][..i] == ds[..i];
      assert Tagged(d)[..j] == Tagged(d);
      complete := complete + tagged;
      i := i + 1;
    }
    assert ds[..i] == ds;
  }

  /** Every pooled row comes from a digest whose MC, enzyme and unique rows it carries. */
  lemma {:induction false} PooledRows(ds: seq<Digest>, x: PooledRow)
    ensures x in Pooled(ds) ==> exists n :: (0 <= n < |ds| && x.mc == ds[n].mc && x.enzyme == ds[n].protease &&
      MappedRow(x.peptide, x.protein, x.location) in UniquePeptides(ds[n].rows))
  {
    if ds != [] {
      var n := |ds| - 1;
      PooledRows(ds[..n], x);
      if x in Pooled(ds[..n]) {
        var m :| 0 <= m < n && x.mc == ds[..n][m].mc && x.enzyme == ds[..n][m].protease &&
          MappedRow(x.peptide, x.protein, x.location) in UniquePeptides(ds[..n][m].rows);
        assert ds[..n][m] == ds[m];
      } else if x in Tagged(ds[n]) {
        var u := UniquePeptides(ds[n].rows);
        var i :| 0 <= i < |Tagged(ds[n])| && Tagged(ds[n])[i] == x;
        assert u[i] == MappedRow(x.peptide, x.protein, x.location);
      }
    }
  }

  // ---------------------------------------------------------------- text order of the MC column

  /** Python's `<` on strings: lexicographic by character code. */
  predicate TextLess(a: String, b: String)
  {
    if b == [] then false
    else if a == [] then true
    else if a[0] != b[0] then a[0] < b[0]
    else TextLess(a[1..], b[1..])
  }

  lemma {:induction false} TextLessIrreflexive(a: String)
    ensures !TextLess(a, a)
  {
    if a != [] {
      TextLessIrreflexive(a[1..]);
    }
  }

  lemma {:induction false} TextLessTrans(a: String, b: String, c: String)
    requires TextLess(a, b) && TextLess(b, c)
    ensures TextLess(a, c)
  {
    if a != [] && a[0] == b[0] && b[0] == c[0] {
      TextLessTrans(a[1..], b[1..], c[1..]);
    }
  }

  lemma {:induction false} TextLessTotal(a: String, b: String)
    ensures a == b || TextLess(a, b) || TextLess(b, a)
    ensures !(TextLess(a, b) && TextLess(b, a))
  {
    if a != [] && b != [] && a[0] == b[0] {
      TextLessTotal(a[1..], b[1..]);
      if a[1..] == b[1..] {
        assert a == [a[0]] + a[1..] && b == [b[0]] + b[1..];
      }
    }
  }

  /** "Not below" is transitive, so a descending order can be checked pairwise. */
  lemma TextAtLeastTrans(a: String, b: String, c: String)
    requires !TextLess(a, b) && !TextLess(b, c)
    ensures !TextLess(a, c)
  {
    TextLessTotal(a, b);
    TextLessTotal(b, c);
    TextLessTotal(a, c);
    if TextLess(a, c) {
      if a == b {
      } else if b == c {
      } else {
        TextLessTrans(c, b, a);
        TextLessTotal(a, c);
      }
    }
  }

  /** For single-digit counts the MC text orders as the numbers do. */
  lemma McTextSingleDigits(m1: nat, m2: nat)
    requires m1 < 10 && m2 < 10
    ensures TextLess(IntToString(m1), IntToString(m2)) <==> m1 < m2
  {
  }

  /** From ten missed cleavages on the text order departs from the numeric one. */
  lemma McTextTenBelowNine()
    ensures TextLess(IntToString(10), IntToString(9))
  {
    assert IntToString(10) == "10";
    assert IntToString(9) == "9";
  }

  // ---------------------------------------------------------------- sort_values(by='MC', ascending=False, kind='mergesort')

  predicate SortedDesc(rows: seq<PooledRow>)
  {
    forall i, j :: 0 <= i < j < |rows| ==> !TextLess(rows[i].mc, rows[j].mc)
  }

  /** Insert x after the rows with a strictly greater MC text and before the rest. */
  function Insert(x: PooledRow, s: seq<PooledRow>): seq<PooledRow>
  {
    if s == [] then [x] else if TextLess(x.mc, s[0].mc) then [s[0]] + Insert(x, s[1..]) else [x] + s
  }

  /** The stable descending sort by MC text. */
  function SortByMc(rows: seq<PooledRow>): seq<PooledRow>
  {
    if rows == [] then [] else Insert(rows[0], SortByMc(rows[1..]))
  }

  /** The rows with MC text m, in order. */
  function WithMc(rows: seq<PooledRow>, m: String): seq<PooledRow>
  {
    if rows == [] then [] else (if rows[0].mc == m then [rows[0]] else []) + WithMc(rows[1..], m)
  }

  lemma {:induction false} InsertMultiset(x: PooledRow, s: seq<PooledRow>)
    ensures multiset(Insert(x, s)) == multiset(s) + multiset{x}
  {
    if s != [] && TextLess(x.mc, s[0].mc) {
      InsertMultiset(x, s[1..]);
      assert s == [s[0]] + s[1..];
    }
  }

  lemma {:induction false} InsertSorted(x: PooledRow, s: seq<PooledRow>)
    requires SortedDesc(s)
    ensures SortedDesc(Insert(x, s))
  {
    if s != [] {
      if TextLess(x.mc, s[0].mc) {
        var t := Insert(x, s[1..]);
        InsertSorted(x, s[1..]);
        InsertMultiset(x, s[1..]);
        forall j | 0 <= j < |t| ensures !TextLess(s[0].mc, t[j].mc) {
          assert t[j] in multiset(s[1..]) + multiset{x};
          if t[j] == x {
            TextLessTotal(x.mc, s[0].mc);
          } else {
            assert t[j] in s[1..];
          }
        }
        ConsSorted(s[0], t);
      } else {
        forall j | 0 <= j < |s| ensures !TextLess(x.mc, s[j].mc) {
          if j > 0 {
            TextAtLeastTrans(x.mc, s[0].mc, s[j].mc);
          }
        }
        ConsSorted(x, s);
      }
    }
  }

  /** A row not below any row of a sorted list can head it without breaking the order. */
  lemma ConsSorted(h: PooledRow, t: seq<PooledRow>)
    requires SortedDesc(t)
    requires forall j :: 0 <= j < |t| ==> !TextLess(h.mc, t[j].mc)
    ensures SortedDesc([h] + t)
  {
    var r := [h] + t;
    forall i, j | 0 <= i < j < |r| ensures !TextLess(r[i].mc, r[j].mc) {
      assert r[j] == t[j - 1];
      if i > 0 {
        assert r[i] == t[i - 1];
      }
    }
  }

  /** Inserting never moves x across a row with its own MC text. */
  lemma {:induction false} InsertStable(x: PooledRow, s: seq<PooledRow>, m: String)
    ensures WithMc(Insert(x, s), m) == (if x.mc == m then [x] else []) + WithMc(s, m)
  {
    if s != [] && TextLess(x.mc, s[0].mc) {
      InsertStable(x, s[1..], m);
      TextLessIrreflexive(x.mc);
    }
  }

  /** The sort orders by descending MC text, keeps every row, and keeps rows of equal MC in order. */
  lemma {:induction false} SortByMcSpec(rows: seq<PooledRow>, m: String)
    ensures SortedDesc(SortByMc(rows))
    ensures multiset(SortByMc(rows)) == multiset(rows)
    ensures WithMc(SortByMc(rows), m) == WithMc(rows, m)
  {
    if rows != [] {
      SortByMcSpec(rows[1..], m);
      InsertSorted(rows[0], SortByMc(rows[1..]));
      InsertMultiset(rows[0], SortByMc(rows[1..]));
      InsertStable(rows[0], SortByMc(rows[1..]), m);
      assert rows == [rows[0]] + rows[1..];
    }
  }

  // ---------------------------------------------------------------- drop_duplicates(subset=['peptide', 'Enzyme'], keep='last')

  function Key(r: PooledRow): (String, String)
  {
    (r.peptide, r.enzyme)
  }

  function Keys(rows: seq<PooledRow>): set<(String, String)>
  {
    set r | r in rows :: Key(r)
  }

  function KeyCount(rows: seq<PooledRow>, k: (String, String)): nat
  {
    if rows == [] then 0 else (if Key(rows[0]) == k then 1 else 0) + KeyCount(rows[1..], k)
  }

  /** A row is kept when no later row has its key. */
  function KeepLast(rows: seq<PooledRow>): seq<PooledRow>
  {
    if rows == [] then []
    else if Key(rows[0]) in Keys(rows[1..]) then KeepLast(rows[1..])
    else [rows[0]] + KeepLast(rows[1..])
  }

  lemma KeysCons(rows: seq<PooledRow>)
    requires rows != []
    ensures Keys(rows) == {Key(rows[0])} + Keys(rows[1..])
  {
    assert rows == [rows[0]] + rows[1..];
  }

  lemma {:induction false} KeyCountZero(rows: seq<PooledRow>, k: (String, String))
    ensures KeyCount(rows, k) == 0 <==> k !in Keys(rows)
  {
    if rows != [] {
      KeyCountZero(rows[1..], k);
      KeysCons(rows);
    }
  }

  /** keep='last' keeps exactly the keys of the table. */
  lemma {:induction false} KeepLastKeys(rows: seq<PooledRow>)
    ensures Keys(KeepLast(rows)) == Keys(rows)
  {
    if rows != [] {
      var t := rows[1..];
      KeepLastKeys(t);
      KeysCons(rows);
      if Key(rows[0]) !in Keys(t) {
        KeysCons(KeepLast(rows));
        assert KeepLast(rows)[1..] == KeepLast(t);
      }
    }
  }

  /** keep='last' keeps every key once. */
  lemma {:induction false} KeepLastOnce(rows: seq<PooledRow>, k: (String, String))
    ensures KeyCount(KeepLast(rows), k) <= 1
  {
    if rows != [] {
      var t := rows[1..];
      KeepLastOnce(t, k);
      if Key(rows[0]) !in Keys(t) {
        KeepLastKeys(t);
        assert KeepLast(rows)[1..] == KeepLast(t);
        KeyCountZero(KeepLast(t), k);
      }
    }
  }

  /** keep='last' keeps only rows of the table. */
  lemma {:induction false} KeepLastRows(rows: seq<PooledRow>)
    ensures forall r :: r in KeepLast(rows) ==> r in rows
  {
    if rows != [] {
      KeepLastRows(rows[1..]);
    }
  }

  /** keep='last' keeps every row that no later row shares a key with. */
  lemma {:induction false} KeepLastKeepsLast(rows: seq<PooledRow>, i: nat)
    requires i < |rows| && Key(rows[i]) !in Keys(rows[i + 1..])
    ensures rows[i] in KeepLast(rows)
  {
    var t := rows[1..];
    if i > 0 {
      assert t[i - 1..][1..] == rows[i + 1..];
      assert rows[i] == t[i - 1];
      KeepLastKeepsLast(t, i - 1);
    }
  }

  /**
   * keep='last' keeps exactly the keys of the table, each once, and only rows of the table,
   * the last one of every key among them.
   */
  lemma KeepLastSpec(rows: seq<PooledRow>, k: (String, String))
    ensures Keys(KeepLast(rows)) == Keys(rows)
    ensures KeyCount(KeepLast(rows), k) <= 1
    ensures forall r :: r in KeepLast(rows) ==> r in rows
    ensures forall i :: 0 <= i < |rows| && Key(rows[i]) !in Keys(rows[i + 1..]) ==> rows[i] in KeepLast(rows)
  {
    KeepLastKeys(rows);
    KeepLastOnce(rows, k);
    KeepLastRows(rows);
    forall i | 0 <= i < |rows| && Key(rows[i]) !in Keys(rows[i + 1..]) ensures rows[i] in KeepLast(rows) {
      KeepLastKeepsLast(rows, i);
    }
  }

  /** On rows sorted by descending MC text, the row kept for a key has the lowest MC text of its key. */
  lemma {:induction false} KeepLastLowest(rows: seq<PooledRow>)
    requires SortedDesc(rows)
    ensures forall r, c :: r in KeepLast(rows) && c in rows && Key(c) == Key(r) ==> !TextLess(c.mc, r.mc)
  {
    if rows != [] {
      var t := rows[1..];
      assert SortedDesc(t);
      KeepLastLowest(t);
      KeepLastSpec(t, Key(rows[0]));
      forall r, c | r in KeepLast(rows) && c in rows && Key(c) == Key(r) ensures !TextLess(c.mc, r.mc) {
        if r in KeepLast(t) {
          if c == rows[0] {
            var j :| 0 <= j < |t| && t[j] == r;
            assert rows[j + 1] == r;
          } else {
            assert c in t;
          }
        } else {
          assert r == rows[0];
          TextLessIrreflexive(r.mc);
        }
      }
    }
  }

  /** The filtered table written last by main. */
  function Filtered(complete: seq<PooledRow>): seq<PooledRow>
  {
    KeepLast(SortByMc(complete))
  }

  /** Why pooling stops: `sort_values(by='MC')` finds no MC column in the table an empty file list leaves. */
  datatype PoolError = KeyError

  /**
   * The pooling step of main: the digests pooled into the unfiltered table, then sorted and
   * filtered. With no line in the file list the pool is a `DataFrame()` without columns, and
   * the sort raises KeyError; a list of digests without unique rows still has its columns.
   */
  method PoolAndFilter(ds: seq<Digest>) returns (complete: seq<PooledRow>, filtered: Result<seq<PooledRow>, PoolError>)
    ensures complete == Pooled(ds)
    ensures filtered.Err? <==> ds == []
    ensures filtered.Ok? ==> filtered.value == Filtered(complete)
  {
    complete := PoolDigests(ds);
    if ds == [] {
      return complete, Err(KeyError);
    }
    filtered := Ok(Filtered(complete));
  }

  /**
   * Pooling: the filtered table holds one row for every (peptide, enzyme) of the pool, each a row of
   * the pool, and that row has the lowest MC text the pool has for its key.
   */
  lemma FilteredSpec(complete: seq<PooledRow>, k: (String, String))
    ensures Keys(Filtered(complete)) == Keys(complete)
    ensures KeyCount(Filtered(complete), k) <= 1
    ensures forall r :: r in Filtered(complete) ==> r in complete
    ensures forall r, c :: r in Filtered(complete) && c in complete && Key(c) == Key(r) ==> !TextLess(c.mc, r.mc)
  {
    var s := SortByMc(complete);
    SortByMcSpec(complete, "");
    KeepLastSpec(s, k);
    KeepLastLowest(s);
    assert forall r :: r in s <==> r in complete by {
      forall r ensures r in s <==> r in complete {
        assert r in s <==> r in multiset(s);
      }
    }
  }

  /** With ten missed cleavages next to nine, text order keeps the row tagged "10". */
  lemma FilteredTenOverNine(p: String, protein: String, loc: String, enzyme: String)
    ensures Filtered([PooledRow(p, protein, loc, IntToString(10), enzyme), PooledRow(p, protein, loc, IntToString(9), enzyme)])
      == [PooledRow(p, protein, loc, IntToString(10), enzyme)]
  {
    var r10 := PooledRow(p, protein, loc, IntToString(10), enzyme);
    var r9 := PooledRow(p, protein, loc, IntToString(9), enzyme);
    McTextTenBelowNine();
    TextLessTotal(r9.mc, r10.mc);
    assert [r10, r9][1..] == [r9];
    assert SortByMc([r9]) == [r9];
    assert Insert(r10, []) == [r10];
    assert Insert(r10, [r9]) == [r9, r10];
    assert SortByMc([r10, r9]) == [r9, r10];
    assert [r9, r10][1..] == [r10];
    assert Keys([r10]) == {Key(r10)};
    assert [r10][1..] == [];
    assert KeepLast([r10]) == [r10];
    assert KeepLast([r9, r10]) == [r10];
  }
}
