/** The company list read from a CSV file: headers are stripped of whitespace,
    the `Company` column is selected, missing cells are dropped and, where
    the API serves the list, duplicates are removed keeping first
    occurrences. */
module CompanyTable {
  import opened PyValue
  import opened PyText
  import opened FileStore

  const COMPANY: string := "Company"

  /** `df.columns = df.columns.str.strip()` */
  function StripHeaders(cols: seq<Column>): (r: seq<Column>)
    ensures |r| == |cols|
    ensures forall i :: 0 <= i < |cols| ==> r[i] == Column(Strip(cols[i].name), cols[i].cells)
  {
    seq(|cols|, i requires 0 <= i < |cols| => Column(Strip(cols[i].name), cols[i].cells))
  }

  predicate IsCompanyColumn(c: Column) {
    c.name == COMPANY
  }

  /** Column i is the only column labelled `Company`. */
  predicate SoleCompanyColumn(cols: seq<Column>, i: int) {
    0 <= i < |cols| && IsCompanyColumn(cols[i])
    && forall j :: 0 <= j < |cols| && j != i ==> !IsCompanyColumn(cols[j])
  }

  /** Column i is the only column whose header strips to `Company`. */
  predicate SoleCompanyHeader(cols: seq<Column>, i: int) {
    0 <= i < |cols| && Strip(cols[i].name) == COMPANY
    && forall j :: 0 <= j < |cols| && j != i ==> Strip(cols[j].name) != COMPANY
  }

  /** The columns labelled `Company`, in table order. */
  function Matching(cols: seq<Column>): (r: seq<Column>)
    ensures |r| <= |cols|
    ensures forall c :: c in r <==> c in cols && IsCompanyColumn(c)
  {
    if cols == [] then []
    else
      assert forall c :: c in cols <==> c == cols[0] || c in cols[1..];
      if IsCompanyColumn(cols[0]) then [cols[0]] + Matching(cols[1..])
      else Matching(cols[1..])
  }

  lemma {:induction false} MatchingTwo(cols: seq<Column>, i: nat, j: nat)
    requires i < j < |cols| && IsCompanyColumn(cols[i]) && IsCompanyColumn(cols[j])
    ensures |Matching(cols)| >= 2
  {
    assert cols[1..][j - 1] == cols[j];
    if i == 0 {
      assert cols[j] in Matching(cols[1..]);
    } else {
      assert cols[1..][i - 1] == cols[i];
      MatchingTwo(cols[1..], i - 1, j - 1);
    }
  }

  /** A table whose only `Company` column is column i selects that column
      and nothing else. */
  lemma {:induction false} MatchingSole(cols: seq<Column>, i: nat)
    requires SoleCompanyColumn(cols, i)
    ensures Matching(cols) == [cols[i]]
  {
    var rest := cols[1..];
    if i == 0 {
      forall c | c in rest ensures !IsCompanyColumn(c) {
        var k :| 0 <= k < |rest| && rest[k] == c;
        assert cols[k + 1] == c;
      }
      if Matching(rest) != [] {
        assert Matching(rest)[0] in Matching(rest);
      }
      assert Matching(cols) == [cols[0]] + Matching(rest);
    } else {
      forall j | 0 <= j < |rest| && j != i - 1 ensures !IsCompanyColumn(rest[j]) {
        assert rest[j] == cols[j + 1];
      }
      assert rest[i - 1] == cols[i];
      MatchingSole(rest, i - 1);
    }
  }

  /** A single match is the table's only `Company` column. */
  lemma SingleMatchIsSole(cols: seq<Column>)
    requires |Matching(cols)| == 1
    ensures exists i :: SoleCompanyColumn(cols, i) && cols[i] == Matching(cols)[0]
  {
    var m := Matching(cols);
    assert m[0] in m;
    var i :| 0 <= i < |cols| && cols[i] == m[0];
    forall j | 0 <= j < |cols| && j != i ensures !IsCompanyColumn(cols[j]) {
      if IsCompanyColumn(cols[j]) {
        if i < j { MatchingTwo(cols, i, j); } else { MatchingTwo(cols, j, i); }
      }
    }
    assert SoleCompanyColumn(cols, i);
  }

  /** `df["Company"]` on a frame whose headers are already stripped: the
      cells of the only `Company` column. A missing column raises
      (ValueError in the batch job, HTTP 500 in the API); two headers that
      strip to `Company` make the selection a DataFrame, on which
      `.tolist()` and `.unique()` raise. Both give None. */
  function CompanyColumn(cols: seq<Column>): (r: Option<seq<Option<string>>>)
    ensures forall i :: SoleCompanyColumn(cols, i) ==> r == Some(cols[i].cells)
    ensures r.Some? ==> exists i :: SoleCompanyColumn(cols, i) && r.value == cols[i].cells
  {
    var m := Matching(cols);
    assert forall i :: SoleCompanyColumn(cols, i) ==> m == [cols[i]] by {
      forall i | SoleCompanyColumn(cols, i) ensures m == [cols[i]] {
        MatchingSole(cols, i);
      }
    }
    if |m| == 1 then
      SingleMatchIsSole(cols);
      Some(m[0].cells)
    else None
  }

  /** Stripping the headers makes the only header that strips to `Company`
      the only `Company` column. */
  lemma SoleHeaderStripped(cols: seq<Column>, i: int)
    ensures SoleCompanyHeader(cols, i) <==> SoleCompanyColumn(StripHeaders(cols), i)
  {
    var s := StripHeaders(cols);
    assert forall j :: 0 <= j < |cols| ==> (IsCompanyColumn(s[j]) <==> Strip(cols[j].name) == COMPANY);
  }

  /** `pd.read_csv(path)`, the headers stripped, then `["Company"]`: the
      cells of the only column whose header strips to `Company`, or None
      when the file is not a table or no single such column exists. */
  function CompanyCells(files: map<string, File>, path: string): (r: Option<seq<Option<string>>>)
    ensures ReadCsv(files, path).None? ==> r.None?
    ensures forall i :: ReadCsv(files, path).Some? && SoleCompanyHeader(ReadCsv(files, path).value, i) ==>
      r == Some(ReadCsv(files, path).value[i].cells)
    ensures r.Some? ==> (ReadCsv(files, path).Some?
      && exists i :: SoleCompanyHeader(ReadCsv(files, path).value, i) && r.value == ReadCsv(files, path).value[i].cells)
  {
    match ReadCsv(files, path)
    case None => None
    case Some(cols) =>
      assert forall i :: SoleCompanyHeader(cols, i) <==> SoleCompanyColumn(StripHeaders(cols), i) by {
        forall i { SoleHeaderStripped(cols, i); }
      }
      CompanyColumn(StripHeaders(cols))
  }

  /** `.dropna()`: the present cells, in order. */
  function DropNa(cells: seq<Option<string>>): (r: seq<string>)
    ensures |r| <= |cells|
    ensures forall x :: x in r <==> Some(x) in cells
  {
    if cells == [] then []
    else
      var rest := DropNa(cells[1..]);
      assert forall y :: y in cells <==> y == cells[0] || y in cells[1..];
      match cells[0]
      case Some(x) => [x] + rest
      case None => rest
  }

  /** A present cell is kept, a missing one dropped. */
  lemma DropNaCell(c: Option<string>)
    ensures DropNa([c]) == if c.Some? then [c.value] else []
  {
    assert [c][1..] == [];
  }

  /** `.dropna()` works cell by cell: it keeps the file's order and every
      repeated value. */
  lemma {:induction false} DropNaAppend(a: seq<Option<string>>, b: seq<Option<string>>)
    ensures DropNa(a + b) == DropNa(a) + DropNa(b)
  {
    if a != [] {
      assert (a + b)[0] == a[0];
      assert (a + b)[1..] == a[1..] + b;
      DropNaAppend(a[1..], b);
    } else {
      assert a + b == b;
    }
  }

  /** `.unique()`: each value once, at its first occurrence. */
  function Unique(xs: seq<string>): (r: seq<string>)
    ensures forall x :: x in r <==> x in xs
    ensures forall i, j :: 0 <= i < j < |r| ==> r[i] != r[j]
  {
    if xs == [] then []
    else
      var p := xs[..|xs| - 1];
      var last := xs[|xs| - 1];
      assert xs == p + [last];
      var u := Unique(p);
      if last in u then u else u + [last]
  }

  /** The index of the first occurrence of x. */
  function IndexOf(xs: seq<string>, x: string): (k: nat)
    requires x in xs
    ensures k < |xs| && xs[k] == x && x !in xs[..k]
  {
    if xs[0] == x then 0
    else
      assert x in xs[1..];
      var k := IndexOf(xs[1..], x);
      assert xs[..k + 1] == [xs[0]] + xs[1..][..k];
      k + 1
  }

  lemma IndexOfExtend(p: seq<string>, y: string, x: string)
    requires x in p
    ensures IndexOf(p + [y], x) == IndexOf(p, x)
  {
    var k := IndexOf(p, x);
    var q := p + [y];
    assert q[k] == x && q[..k] == p[..k];
  }

  /** `.unique()` lists values in the order of their first occurrence. */
  lemma {:induction false} UniqueFirstOccurrenceOrder(xs: seq<string>)
    ensures forall i, j :: 0 <= i < j < |Unique(xs)| ==>
      IndexOf(xs, Unique(xs)[i]) < IndexOf(xs, Unique(xs)[j])
  {
    if xs != [] {
      var p := xs[..|xs| - 1];
      var last := xs[|xs| - 1];
      assert xs == p + [last];
      var u := Unique(p);
      UniqueFirstOccurrenceOrder(p);
      forall x | x in u ensures IndexOf(xs, x) == IndexOf(p, x) && IndexOf(p, x) < |p| {
        IndexOfExtend(p, last, x);
      }
      if last !in u {
        assert last !in p;
        assert IndexOf(xs, last) == |p| by {
          assert xs[..|p|] == p;
        }
        var r := u + [last];
        forall i, j | 0 <= i < j < |r| ensures IndexOf(xs, r[i]) < IndexOf(xs, r[j]) {
          assert r[i] in u;
          if j < |u| { assert r[j] in u; }
        }
      }
    }
  }
}
