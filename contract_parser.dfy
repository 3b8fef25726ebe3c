/** Contract spreadsheet extraction and validation
    (`src/lib/contract-parser.ts`).

    A decoded worksheet is a function from (row, column) to the text of the
    cell there, or `None` where there is no cell. The first 100 rows and 20
    columns are copied into a grid, and fourteen fields are read from fixed
    cells of that grid and normalised by `CleanValue`. */
module ContractParser {
  import opened Common

  // ---------------------------------------------------------------------------
  // The extracted record

  /** `ContractData`. Every field is optional: the preview table can clear
      any of them, the required ones included. */
  datatype ContractData = ContractData(
    customerName: Option<string>,
    customerAddress1: Option<string>,
    customerAddress2: Option<string>,
    billingAddress1: Option<string>,
    billingAddress2: Option<string>,
    contactEmail: Option<string>,
    contactMobile: Option<string>,
    contactPhone: Option<string>,
    siteName: Option<string>,
    siteAddress1: Option<string>,
    siteAddress2: Option<string>,
    siteContact: Option<string>,
    effectiveDate: Option<string>,
    serviceType: Option<string>)

  /** The keys of `ContractData`. */
  datatype Field =
    | CustomerName | CustomerAddress1 | CustomerAddress2
    | BillingAddress1 | BillingAddress2
    | ContactEmail | ContactMobile | ContactPhone
    | SiteName | SiteAddress1 | SiteAddress2 | SiteContact
    | EffectiveDate | ServiceType

  /** `contract[field]`. */
  function Get(c: ContractData, f: Field): Option<string> {
    match f
    case CustomerName => c.customerName
    case CustomerAddress1 => c.customerAddress1
    case CustomerAddress2 => c.customerAddress2
    case BillingAddress1 => c.billingAddress1
    case BillingAddress2 => c.billingAddress2
    case ContactEmail => c.contactEmail
    case ContactMobile => c.contactMobile
    case ContactPhone => c.contactPhone
    case SiteName => c.siteName
    case SiteAddress1 => c.siteAddress1
    case SiteAddress2 => c.siteAddress2
    case SiteContact => c.siteContact
    case EffectiveDate => c.effectiveDate
    case ServiceType => c.serviceType
  }

  /** `{ ...contract, [field]: v }`: that key is replaced and every other key
      keeps its value. */
  function Set(c: ContractData, f: Field, v: Option<string>): (r: ContractData)
    ensures Get(r, f) == v
    ensures forall g :: g != f ==> Get(r, g) == Get(c, g)
  {
    match f
    case CustomerName => c.(customerName := v)
    case CustomerAddress1 => c.(customerAddress1 := v)
    case CustomerAddress2 => c.(customerAddress2 := v)
    case BillingAddress1 => c.(billingAddress1 := v)
    case BillingAddress2 => c.(billingAddress2 := v)
    case ContactEmail => c.(contactEmail := v)
    case ContactMobile => c.(contactMobile := v)
    case ContactPhone => c.(contactPhone := v)
    case SiteName => c.(siteName := v)
    case SiteAddress1 => c.(siteAddress1 := v)
    case SiteAddress2 => c.(siteAddress2 := v)
    case SiteContact => c.(siteContact := v)
    case EffectiveDate => c.(effectiveDate := v)
    case ServiceType => c.(serviceType := v)
  }

  // ---------------------------------------------------------------------------
  // Cell normalisation

  /** Drops leading white space. */
  function TrimStart(s: string): (r: string)
    ensures |r| <= |s| && r == s[|s| - |r|..]
    ensures r != [] ==> !IsSpace(r[0])
    ensures forall i :: 0 <= i < |s| - |r| ==> IsSpace(s[i])
  {
    if s != [] && IsSpace(s[0]) then TrimStart(s[1..]) else s
  }

  /** Drops trailing white space. */
  function TrimEnd(s: string): (r: string)
    ensures |r| <= |s| && r == s[..|r|]
    ensures r != [] ==> !IsSpace(r[|r| - 1])
    ensures forall i :: |r| <= i < |s| ==> IsSpace(s[i])
  {
    if s != [] && IsSpace(s[|s| - 1]) then TrimEnd(s[..|s| - 1]) else s
  }

  /** `trim()`: the longest slice with no white space at either end. */
  function Trim(s: string): (r: string)
    ensures r != [] ==> !IsSpace(r[0]) && !IsSpace(r[|r| - 1])
    ensures |s| - |TrimStart(s)| + |r| <= |s|
    ensures r == s[|s| - |TrimStart(s)|..|s| - |TrimStart(s)| + |r|]
  {
    TrimEnd(TrimStart(s))
  }

  /** What `Trim` drops, before and after the slice it keeps, is white
      space only. */
  lemma TrimDropsOnlySpace(s: string)
    ensures forall i :: 0 <= i < |s| - |TrimStart(s)| ==> IsSpace(s[i])
    ensures forall i :: |s| - |TrimStart(s)| + |Trim(s)| <= i < |s| ==> IsSpace(s[i])
  {
    var t := TrimStart(s);
    var k := |s| - |t|;
    forall i | k + |TrimEnd(t)| <= i < |s|
      ensures IsSpace(s[i])
    {
      assert s[i] == t[i - k];
    }
  }

  /** Every white-space character is a plain space and no two are adjacent. */
  predicate SingleSpaced(s: string) {
    && (forall i :: 0 <= i < |s| && IsSpace(s[i]) ==> s[i] == ' ')
    && (forall i :: 0 <= i < |s| - 1 ==> !(IsSpace(s[i]) && IsSpace(s[i + 1])))
  }

  /** `replace(/\s+/g, ' ')`: each maximal run of white space becomes one space. */
  function CollapseSpaces(s: string): (r: string)
    ensures SingleSpaced(r)
    ensures r != [] <==> s != []
    ensures r != [] ==> (IsSpace(r[0]) <==> IsSpace(s[0]))
    decreases |s|
  {
    if s == [] then []
    else if IsSpace(s[0]) then [' '] + CollapseSpaces(TrimStart(s[1..]))
    else [s[0]] + CollapseSpaces(s[1..])
  }

  /** Surrounded by a matching pair of double or single quotes. */
  predicate Quoted(s: string) {
    s != [] && ((s[0] == '"' && s[|s| - 1] == '"') || (s[0] == '\'' && s[|s| - 1] == '\''))
  }

  /** `slice(1, -1)` applied when `Quoted`; a lone quote becomes empty. */
  function StripQuotes(s: string): (r: string)
    ensures !Quoted(s) ==> r == s
    ensures Quoted(s) && |s| >= 2 ==> r == s[1..|s| - 1]
    ensures Quoted(s) && |s| < 2 ==> r == ""
  {
    if Quoted(s) then (if |s| >= 2 then s[1..|s| - 1] else "") else s
  }

  /** `cleanValue`. */
  function CleanValue(v: Option<string>): (r: string)
    ensures !Truthy(v) ==> r == ""
    ensures r != [] ==> !IsSpace(r[0]) && !IsSpace(r[|r| - 1])
    ensures SingleSpaced(r)
  {
    if !Truthy(v) then ""
    else
      var c := CollapseSpaces(StripQuotes(Trim(v.value)));
      SliceSingleSpaced(c, |c| - |TrimStart(c)|, |c| - |TrimStart(c)| + |Trim(c)|);
      Trim(c)
  }

  lemma SliceSingleSpaced(s: string, i: int, j: int)
    requires 0 <= i <= j <= |s|
    requires SingleSpaced(s)
    ensures SingleSpaced(s[i..j])
  {
    var r := s[i..j];
    assert forall k :: 0 <= k < |r| ==> r[k] == s[i + k];
  }

  /** White space already collapsed is left as it is. */
  lemma {:induction false} CollapseSingleSpaced(s: string)
    requires SingleSpaced(s)
    ensures CollapseSpaces(s) == s
    decreases |s|
  {
    if s != [] {
      SliceSingleSpaced(s, 1, |s|);
      CollapseSingleSpaced(s[1..]);
      if IsSpace(s[0]) && |s| > 1 {
        assert !IsSpace(s[1..][0]);
      }
    }
  }

  lemma {:induction false} TrimStartNoop(s: string)
    requires s != [] ==> !IsSpace(s[0])
    ensures TrimStart(s) == s
  {
  }

  lemma {:induction false} TrimEndNoop(s: string)
    requires s != [] ==> !IsSpace(s[|s| - 1])
    ensures TrimEnd(s) == s
  {
  }

  /** `cleanValue` is a fixpoint on text it could have produced, unless that
      text is itself wrapped in quotes. */
  lemma CleanFixpoint(s: string)
    requires s != [] ==> !IsSpace(s[0]) && !IsSpace(s[|s| - 1])
    requires SingleSpaced(s)
    requires !Quoted(s)
    ensures CleanValue(Some(s)) == s
  {
    TrimStartNoop(s);
    TrimEndNoop(s);
    assert Trim(s) == s;
    CollapseSingleSpaced(s);
  }

  /** Cleaning twice is cleaning once, except when the first result is quoted. */
  lemma CleanIdempotentUnlessQuoted(v: Option<string>)
    requires !Quoted(CleanValue(v))
    ensures CleanValue(Some(CleanValue(v))) == CleanValue(v)
  {
    CleanFixpoint(CleanValue(v));
  }

  /** Quoted text whose inside is already clean loses exactly its quotes. */
  lemma CleanQuoted(s: string)
    requires |s| >= 2 && Quoted(s)
    requires !IsSpace(s[0]) && !IsSpace(s[|s| - 1]) && SingleSpaced(s)
    requires var t := s[1..|s| - 1]; (t != [] ==> !IsSpace(t[0]) && !IsSpace(t[|t| - 1])) && SingleSpaced(t)
    ensures CleanValue(Some(s)) == s[1..|s| - 1]
  {
    var t := s[1..|s| - 1];
    TrimStartNoop(s);
    TrimEndNoop(s);
    assert Trim(s) == s;
    assert StripQuotes(s) == t;
    CollapseSingleSpaced(t);
    TrimStartNoop(t);
    TrimEndNoop(t);
  }

  /** A quoted word without white space cleans to the word. */
  lemma CleanQuotedWord(t: string, q: char)
    requires q == '"' || q == '\''
    requires forall i :: 0 <= i < |t| ==> !IsSpace(t[i])
    ensures CleanValue(Some([q] + t + [q])) == t
  {
    var s := [q] + t + [q];
    assert s[1..|s| - 1] == t;
    assert forall i :: 0 <= i < |s| ==> !IsSpace(s[i]) by {
      forall i | 0 <= i < |s| ensures !IsSpace(s[i]) {
        if 0 < i < |s| - 1 {
          assert s[i] == t[i - 1];
        }
      }
    }
    CleanQuoted(s);
  }

  /** Only one pair of quotes is stripped per call, so cleaning is not
      idempotent on doubly quoted text: `""a""` cleans to `"a"`, which
      cleans to `a`. */
  lemma CleanStripsOnePair(w: string, q: char)
    requires q == '"' || q == '\''
    requires forall i :: 0 <= i < |w| ==> !IsSpace(w[i])
    ensures CleanValue(Some([q] + ([q] + w + [q]) + [q])) == [q] + w + [q]
    ensures CleanValue(Some([q] + w + [q])) == w
  {
    var t := [q] + w + [q];
    forall i | 0 <= i < |t|
      ensures !IsSpace(t[i])
    {
      if 0 < i < |t| - 1 {
        assert t[i] == w[i - 1];
      }
    }
    CleanQuotedWord(t, q);
    CleanQuotedWord(w, q);
  }

  // ---------------------------------------------------------------------------
  // What normalisation keeps

  /** The characters of a string that are not white space, in order. */
  function NonSpace(s: string): (r: string)
    ensures |r| <= |s|
    decreases |s|
  {
    if s == [] then []
    else (if IsSpace(s[0]) then [] else [s[0]]) + NonSpace(s[1..])
  }

  lemma {:induction false} NonSpaceAppend(a: string, b: string)
    ensures NonSpace(a + b) == NonSpace(a) + NonSpace(b)
    decreases |a|
  {
    if a == [] {
      assert a + b == b;
    } else {
      assert (a + b)[0] == a[0];
      assert (a + b)[1..] == a[1..] + b;
      NonSpaceAppend(a[1..], b);
    }
  }

  lemma {:induction false} NonSpaceOfSpaces(s: string)
    requires forall i :: 0 <= i < |s| ==> IsSpace(s[i])
    ensures NonSpace(s) == []
    decreases |s|
  {
    if s != [] {
      NonSpaceOfSpaces(s[1..]);
    }
  }

  lemma NonSpaceCons(c: char, s: string)
    ensures NonSpace([c] + s) == (if IsSpace(c) then [] else [c]) + NonSpace(s)
  {
    assert ([c] + s)[0] == c;
    assert ([c] + s)[1..] == s;
  }

  lemma {:induction false} NonSpaceTrimStart(s: string)
    ensures NonSpace(TrimStart(s)) == NonSpace(s)
    decreases |s|
  {
    if s != [] && IsSpace(s[0]) {
      NonSpaceTrimStart(s[1..]);
    }
  }

  lemma {:induction false} NonSpaceTrimEnd(s: string)
    ensures NonSpace(TrimEnd(s)) == NonSpace(s)
    decreases |s|
  {
    if s != [] && IsSpace(s[|s| - 1]) {
      var init := s[..|s| - 1];
      NonSpaceTrimEnd(init);
      assert s == init + [s[|s| - 1]];
      NonSpaceAppend(init, [s[|s| - 1]]);
      NonSpaceCons(s[|s| - 1], []);
      assert [s[|s| - 1]] + [] == [s[|s| - 1]];
    }
  }

  /** Trimming removes white space only: the text is kept. */
  lemma TrimKeepsText(s: string)
    ensures NonSpace(Trim(s)) == NonSpace(s)
  {
    NonSpaceTrimStart(s);
    NonSpaceTrimEnd(TrimStart(s));
  }

  /** Collapsing rewrites white space only: the text is kept. */
  lemma {:induction false} CollapseKeepsText(s: string)
    ensures NonSpace(CollapseSpaces(s)) == NonSpace(s)
    decreases |s|
  {
    if s != [] {
      if IsSpace(s[0]) {
        var t := TrimStart(s[1..]);
        CollapseKeepsText(t);
        NonSpaceCons(' ', CollapseSpaces(t));
        NonSpaceTrimStart(s[1..]);
      } else {
        CollapseKeepsText(s[1..]);
        NonSpaceCons(s[0], CollapseSpaces(s[1..]));
      }
    }
  }

  /** Dropping leading white space from `a + b` goes on into `b` when `a`
      is all white space ... */
  lemma {:induction false} TrimStartPastSpaces(a: string, b: string)
    requires forall i :: 0 <= i < |a| ==> IsSpace(a[i])
    ensures TrimStart(a + b) == TrimStart(b)
    decreases |a|
  {
    if a == [] {
      assert a + b == b;
    } else {
      assert (a + b)[0] == a[0];
      assert (a + b)[1..] == a[1..] + b;
      assert forall i :: 0 <= i < |a| - 1 ==> a[1..][i] == a[i + 1];
      TrimStartPastSpaces(a[1..], b);
    }
  }

  /** ... and stops inside `a` when `a` has any other character. */
  lemma {:induction false} TrimStartStops(a: string, b: string, k: nat)
    requires k < |a| && !IsSpace(a[k])
    ensures TrimStart(a + b) == TrimStart(a) + b
    decreases |a|
  {
    assert (a + b)[0] == a[0];
    if IsSpace(a[0]) {
      assert (a + b)[1..] == a[1..] + b;
      assert a[1..][k - 1] == a[k];
      TrimStartStops(a[1..], b, k - 1);
    }
  }

  /** A run of white space collapses to one space. */
  lemma CollapseRun(s: string)
    requires s != [] && forall i :: 0 <= i < |s| ==> IsSpace(s[i])
    ensures CollapseSpaces(s) == " "
  {
    assert forall i :: 0 <= i < |s| - 1 ==> s[1..][i] == s[i + 1];
    TrimStartPastSpaces(s[1..], []);
    assert s[1..] + [] == s[1..];
  }

  /** Collapsing works piece by piece, wherever the cut does not split a run
      of white space: together with `CollapseRun` and a single
      non-white-space character collapsing to itself, this determines
      `CollapseSpaces` on every string. */
  lemma {:induction false} CollapseAppend(a: string, b: string)
    requires a == [] || b == [] || !IsSpace(a[|a| - 1]) || !IsSpace(b[0])
    ensures CollapseSpaces(a + b) == CollapseSpaces(a) + CollapseSpaces(b)
    decreases |a|, 1
  {
    if a == [] {
      assert a + b == b;
    } else if b == [] {
      assert a + b == a;
    } else if !IsSpace(a[0]) {
      if |a| > 1 {
        assert a[1..][|a| - 2] == a[|a| - 1];
      }
      CollapseAppendChar(a, b);
    } else if forall i :: 0 <= i < |a| - 1 ==> IsSpace(a[1..][i]) {
      if |a| > 1 {
        assert a[1..][|a| - 2] == a[|a| - 1];
      }
      CollapseAppendRun(a, b);
    } else {
      var k :| 0 <= k < |a| - 1 && !IsSpace(a[1..][k]);
      CollapseAppendSpace(a, b, k);
    }
  }

  /** `a` opens with a character that is kept. */
  lemma {:induction false} CollapseAppendChar(a: string, b: string)
    requires a != [] && b != [] && !IsSpace(a[0])
    requires a[1..] == [] || !IsSpace(a[1..][|a| - 2]) || !IsSpace(b[0])
    ensures CollapseSpaces(a + b) == CollapseSpaces(a) + CollapseSpaces(b)
    decreases |a|, 0
  {
    assert (a + b)[0] == a[0];
    assert (a + b)[1..] == a[1..] + b;
    calc {
      CollapseSpaces(a + b);
      [a[0]] + CollapseSpaces(a[1..] + b);
      { CollapseAppend(a[1..], b); }
      [a[0]] + (CollapseSpaces(a[1..]) + CollapseSpaces(b));
      ([a[0]] + CollapseSpaces(a[1..])) + CollapseSpaces(b);
      CollapseSpaces(a) + CollapseSpaces(b);
    }
  }

  /** `a` is one run of white space, so `b` opens with a kept character. */
  lemma CollapseAppendRun(a: string, b: string)
    requires a != [] && b != [] && IsSpace(a[0])
    requires forall i :: 0 <= i < |a| - 1 ==> IsSpace(a[1..][i])
    requires !IsSpace(b[0])
    ensures CollapseSpaces(a + b) == CollapseSpaces(a) + CollapseSpaces(b)
  {
    assert (a + b)[0] == a[0];
    assert (a + b)[1..] == a[1..] + b;
    assert TrimStart(b) == b;
    calc {
      CollapseSpaces(a + b);
      [' '] + CollapseSpaces(TrimStart(a[1..] + b));
      { TrimStartPastSpaces(a[1..], b); }
      [' '] + CollapseSpaces(b);
    }
    calc {
      CollapseSpaces(a);
      [' '] + CollapseSpaces(TrimStart(a[1..]));
      { assert a[1..] + [] == a[1..];
        TrimStartPastSpaces(a[1..], []); }
      [' '] + CollapseSpaces(TrimStart([]));
      [' '];
    }
  }

  /** `a` opens with white space followed, at `k + 1`, by a kept character. */
  lemma {:induction false} CollapseAppendSpace(a: string, b: string, k: nat)
    requires b != [] && k < |a| - 1 && IsSpace(a[0]) && !IsSpace(a[1..][k])
    requires !IsSpace(a[|a| - 1]) || !IsSpace(b[0])
    ensures CollapseSpaces(a + b) == CollapseSpaces(a) + CollapseSpaces(b)
    decreases |a|, 0
  {
    assert (a + b)[0] == a[0];
    assert (a + b)[1..] == a[1..] + b;
    var t := TrimStart(a[1..]);
    assert t != [] by {
      assert !IsSpace(a[1..][k]);
    }
    assert t[|t| - 1] == a[|a| - 1];
    calc {
      CollapseSpaces(a + b);
      [' '] + CollapseSpaces(TrimStart(a[1..] + b));
      { TrimStartStops(a[1..], b, k); }
      [' '] + CollapseSpaces(t + b);
      { CollapseAppend(t, b); }
      [' '] + (CollapseSpaces(t) + CollapseSpaces(b));
      ([' '] + CollapseSpaces(t)) + CollapseSpaces(b);
      CollapseSpaces(a) + CollapseSpaces(b);
    }
  }

  /** Cleaning a cell keeps its text: what is left once the quotes are
      stripped, without its white space. */
  lemma CleanKeepsText(v: Option<string>)
    requires Truthy(v)
    ensures NonSpace(CleanValue(v)) == NonSpace(StripQuotes(Trim(v.value)))
  {
    var c := CollapseSpaces(StripQuotes(Trim(v.value)));
    TrimKeepsText(c);
    CollapseKeepsText(StripQuotes(Trim(v.value)));
  }

  // ---------------------------------------------------------------------------
  // Worksheet, grid and the cell table

  /** A decoded worksheet: the text of the cell at (row, column), if any.
      A cell whose value is falsy reads as `Some("")`. */
  type Sheet = (nat, nat) -> Option<string>

  const Rows: nat := 100
  const Cols: nat := 20

  /** `cell ? String(cell.v || '') : ''`. */
  function CellText(sheet: Sheet, i: nat, j: nat): string {
    Text(sheet(i, j))
  }

  /** The 100 x 20 grid of cell texts. */
  function Grid(sheet: Sheet): (g: seq<seq<string>>)
    ensures |g| == Rows && forall i :: 0 <= i < Rows ==> |g[i]| == Cols
  {
    seq(Rows, i requires 0 <= i < Rows => seq(Cols, j requires 0 <= j < Cols => CellText(sheet, i, j)))
  }

  predicate IsGrid(g: seq<seq<string>>) {
    |g| == Rows && forall i :: 0 <= i < |g| ==> |g[i]| == Cols
  }

  /** The nested loops that fill `arrayRows`. */
  method BuildGrid(sheet: Sheet) returns (rows: seq<seq<string>>)
    ensures rows == Grid(sheet)
    ensures IsGrid(rows)
    ensures forall i, j :: 0 <= i < Rows && 0 <= j < Cols ==> rows[i][j] == CellText(sheet, i, j)
  {
    var g := Grid(sheet);
    rows := [];
    for i := 0 to Rows
      invariant rows == g[..i]
    {
      var row: seq<string> := [];
      for j := 0 to Cols
        invariant row == g[i][..j]
      {
        row := row + [CellText(sheet, i, j)];
      }
      assert row == g[i];
      rows := rows + [row];
    }
    assert rows == g;
  }

  /** The cleaned text of one cell of the sheet. */
  function CleanCell(sheet: Sheet, i: nat, j: nat): string {
    CleanValue(Some(CellText(sheet, i, j)))
  }

  /** Where each field is read in the contract template. The effective date
      has a second candidate cell, (29, 10), used when this one cleans to
      the empty string. */
  function CellOf(f: Field): (rc: (nat, nat))
    ensures rc.0 < Rows && rc.1 < Cols
  {
    match f
    case CustomerName => (22, 1)
    case CustomerAddress1 => (23, 1)
    case CustomerAddress2 => (24, 1)
    case BillingAddress1 => (23, 5)
    case BillingAddress2 => (24, 5)
    case ContactEmail => (23, 9)
    case ContactMobile => (24, 9)
    case ContactPhone => (25, 9)
    case SiteName => (39, 3)
    case SiteAddress1 => (40, 3)
    case SiteAddress2 => (41, 3)
    case SiteContact => (42, 3)
    case EffectiveDate => (29, 9)
    case ServiceType => (32, 1)
  }

  /** The object literal in `parseContractXLSX`. */
  function Extract(g: seq<seq<string>>): ContractData
    requires IsGrid(g)
  {
    ContractData(
      customerName := Some(CleanValue(Some(g[22][1]))),
      customerAddress1 := Some(CleanValue(Some(g[23][1]))),
      customerAddress2 := Some(CleanValue(Some(g[24][1]))),
      billingAddress1 := Some(CleanValue(Some(g[23][5]))),
      billingAddress2 := Some(CleanValue(Some(g[24][5]))),
      contactEmail := Some(CleanValue(Some(g[23][9]))),
      contactMobile := Some(CleanValue(Some(g[24][9]))),
      contactPhone := Some(CleanValue(Some(g[25][9]))),
      siteName := Some(CleanValue(Some(g[39][3]))),
      siteAddress1 := Some(CleanValue(Some(g[40][3]))),
      siteAddress2 := Some(CleanValue(Some(g[41][3]))),
      siteContact := Some(CleanValue(Some(g[42][3]))),
      effectiveDate := Some(
        var first := CleanValue(Some(g[29][9]));
        if first != "" then first else CleanValue(Some(g[29][10]))),
      serviceType := Some(CleanValue(Some(g[32][1]))))
  }

  // ---------------------------------------------------------------------------
  // Parsing a file

  /** What reading and decoding a file gives: the file reader's error, the
      spreadsheet library's error, or the first worksheet. */
  datatype FileContent = Unreadable(readError: string) | Undecodable(decodeError: string) | Decoded(sheet: Sheet)

  datatype File = File(name: string, content: FileContent)

  /** The record as the cell table describes it: every field is the
      cleaned text of its cell of the sheet; the effective date falls back
      to the cell to its right when its own cell cleans to `""`. */
  function FromTable(sheet: Sheet): ContractData {
    ContractData(
      customerName := Some(CleanCell(sheet, CellOf(CustomerName).0, CellOf(CustomerName).1)),
      customerAddress1 := Some(CleanCell(sheet, CellOf(CustomerAddress1).0, CellOf(CustomerAddress1).1)),
      customerAddress2 := Some(CleanCell(sheet, CellOf(CustomerAddress2).0, CellOf(CustomerAddress2).1)),
      billingAddress1 := Some(CleanCell(sheet, CellOf(BillingAddress1).0, CellOf(BillingAddress1).1)),
      billingAddress2 := Some(CleanCell(sheet, CellOf(BillingAddress2).0, CellOf(BillingAddress2).1)),
      contactEmail := Some(CleanCell(sheet, CellOf(ContactEmail).0, CellOf(ContactEmail).1)),
      contactMobile := Some(CleanCell(sheet, CellOf(ContactMobile).0, CellOf(ContactMobile).1)),
      contactPhone := Some(CleanCell(sheet, CellOf(ContactPhone).0, CellOf(ContactPhone).1)),
      siteName := Some(CleanCell(sheet, CellOf(SiteName).0, CellOf(SiteName).1)),
      siteAddress1 := Some(CleanCell(sheet, CellOf(SiteAddress1).0, CellOf(SiteAddress1).1)),
      siteAddress2 := Some(CleanCell(sheet, CellOf(SiteAddress2).0, CellOf(SiteAddress2).1)),
      siteContact := Some(CleanCell(sheet, CellOf(SiteContact).0, CellOf(SiteContact).1)),
      effectiveDate := Some(
        var first := CleanCell(sheet, CellOf(EffectiveDate).0, CellOf(EffectiveDate).1);
        if first != "" then first else CleanCell(sheet, CellOf(EffectiveDate).0, CellOf(EffectiveDate).1 + 1)),
      serviceType := Some(CleanCell(sheet, CellOf(ServiceType).0, CellOf(ServiceType).1)))
  }

  /** The table's cells, one field at a time. */
  lemma TableCells(sheet: Sheet)
    ensures CellOf(CustomerName) == (22, 1)
    ensures CellOf(CustomerAddress1) == (23, 1)
    ensures CellOf(CustomerAddress2) == (24, 1)
    ensures CellOf(BillingAddress1) == (23, 5)
    ensures CellOf(BillingAddress2) == (24, 5)
    ensures CellOf(ContactEmail) == (23, 9)
    ensures CellOf(ContactMobile) == (24, 9)
    ensures CellOf(ContactPhone) == (25, 9)
    ensures CellOf(SiteName) == (39, 3)
    ensures CellOf(SiteAddress1) == (40, 3)
    ensures CellOf(SiteAddress2) == (41, 3)
    ensures CellOf(SiteContact) == (42, 3)
    ensures CellOf(EffectiveDate) == (29, 9)
    ensures CellOf(ServiceType) == (32, 1)
  {
  }

  /** The hard-coded reads of `parseContractXLSX`, applied to the grid built
      from a sheet, agree with the cell table; so every cell read lies inside
      the grid and a missing cell reads as `""`. */
  lemma ExtractFollowsTable(sheet: Sheet, rows: seq<seq<string>>)
    requires rows == Grid(sheet)
    ensures Extract(rows) == FromTable(sheet)
  {
    assert rows[22][1] == CellText(sheet, 22, 1);
    assert rows[23][1] == CellText(sheet, 23, 1);
    assert rows[24][1] == CellText(sheet, 24, 1);
    assert rows[23][5] == CellText(sheet, 23, 5);
    assert rows[24][5] == CellText(sheet, 24, 5);
    assert rows[23][9] == CellText(sheet, 23, 9);
    assert rows[24][9] == CellText(sheet, 24, 9);
    assert rows[25][9] == CellText(sheet, 25, 9);
    assert rows[39][3] == CellText(sheet, 39, 3);
    assert rows[40][3] == CellText(sheet, 40, 3);
    assert rows[41][3] == CellText(sheet, 41, 3);
    assert rows[42][3] == CellText(sheet, 42, 3);
    assert rows[29][9] == CellText(sheet, 29, 9);
    assert rows[29][10] == CellText(sheet, 29, 10);
    TableCells(sheet);
    assert rows[32][1] == CellText(sheet, 32, 1);
  }

  /** `parseContractXLSX` on a buffer the reader produced: only a buffer the
      spreadsheet library cannot decode is an error. */
  function ParseContract(content: FileContent): (r: Result<ContractData, string>)
    requires !content.Unreadable?
    ensures r.Failure? <==> content.Undecodable?
    ensures r.Failure? ==> r.error == "Failed to parse contract file: " + content.decodeError
  {
    match content
    case Undecodable(e) => Failure("Failed to parse contract file: " + e)
    case Decoded(sheet) => Success(FromTable(sheet))
  }

  /** A missing cell is never an error: each field of a decoded sheet is the
      cleaned text of its cell, `""` where there is none. */
  lemma ParseReadsCells(sheet: Sheet, f: Field)
    requires f != EffectiveDate
    ensures ParseContract(Decoded(sheet)).Success?
    ensures Get(ParseContract(Decoded(sheet)).value, f) == Some(CleanCell(sheet, CellOf(f).0, CellOf(f).1))
    ensures sheet(CellOf(f).0, CellOf(f).1).None? ==> Get(ParseContract(Decoded(sheet)).value, f) == Some("")
  {
    match f
    case CustomerName =>
    case CustomerAddress1 =>
    case CustomerAddress2 =>
    case BillingAddress1 =>
    case BillingAddress2 =>
    case ContactEmail =>
    case ContactMobile =>
    case ContactPhone =>
    case SiteName =>
    case SiteAddress1 =>
    case SiteAddress2 =>
    case SiteContact =>
    case ServiceType =>
  }

  /** The effective date is the first candidate cell that cleans to a
      non-empty string, else `""`. */
  lemma ParseEffectiveDate(sheet: Sheet)
    ensures var d := ParseContract(Decoded(sheet)).value.effectiveDate;
      && (CleanCell(sheet, 29, 9) != "" ==> d == Some(CleanCell(sheet, 29, 9)))
      && (CleanCell(sheet, 29, 9) == "" ==> d == Some(CleanCell(sheet, 29, 10)))
  {
    TableCells(sheet);
  }

  /** The same, with the grid built by `BuildGrid`'s loops and read at the
      offsets hard-coded in the source. */
  method ParseContractXLSX(content: FileContent) returns (r: Result<ContractData, string>)
    requires !content.Unreadable?
    ensures r == ParseContract(content)
  {
    match content
    case Undecodable(e) =>
      r := Failure("Failed to parse contract file: " + e);
    case Decoded(sheet) =>
      var rows := BuildGrid(sheet);
      ExtractFollowsTable(sheet, rows);
      r := Success(Extract(rows));
  }

  /** The outcome of reading and parsing one file of a batch, with the
      message `parseMultipleContractXLSX` wraps a failure in. */
  function ParseFile(file: File): (r: Result<ContractData, string>)
    ensures r.Failure? <==> !file.content.Decoded?
    ensures r.Failure? ==> IsPrefix("Failed to parse " + file.name + ": ", r.error)
  {
    match file.content
    case Unreadable(e) => Failure("Failed to parse " + file.name + ": " + e)
    case Undecodable(_) =>
      Failure("Failed to parse " + file.name + ": " + ParseContract(file.content).error)
    case Decoded(_) => ParseContract(file.content)
  }

  /** File `k` is the first of the batch that fails. */
  predicate FirstFailure(files: seq<File>, k: int)
    requires 0 <= k < |files|
  {
    ParseFile(files[k]).Failure? && forall j :: 0 <= j < k ==> ParseFile(files[j]).Success?
  }

  /** The values of a run of results in order, or the error of the first
      failing one. */
  function Collect<T>(rs: seq<Result<T, string>>): (r: Result<seq<T>, string>)
    decreases |rs|
  {
    if rs == [] then Success([])
    else
      match Collect(rs[..|rs| - 1])
      case Failure(e) => Failure(e)
      case Success(vs) =>
        match rs[|rs| - 1]
        case Failure(e) => Failure(e)
        case Success(v) => Success(vs + [v])
  }

  predicate FirstFailed<T>(rs: seq<Result<T, string>>, k: int) {
    0 <= k < |rs| && rs[k].Failure? && forall j :: 0 <= j < k ==> rs[j].Success?
  }

  lemma {:induction false} CollectSpec<T>(rs: seq<Result<T, string>>)
    ensures Collect(rs).Success? <==> forall i :: 0 <= i < |rs| ==> rs[i].Success?
    ensures Collect(rs).Success? ==> |Collect(rs).value| == |rs|
    ensures Collect(rs).Success? ==> forall i :: 0 <= i < |rs| ==> Collect(rs).value[i] == rs[i].value
    ensures Collect(rs).Failure? ==> exists k :: FirstFailed(rs, k) && Collect(rs).error == rs[k].error
    decreases |rs|
  {
    if rs != [] {
      var n := |rs| - 1;
      var init := rs[..n];
      CollectSpec(init);
      assert forall i :: 0 <= i < n ==> init[i] == rs[i];
      if Collect(init).Failure? {
        var k :| FirstFailed(init, k) && Collect(init).error == init[k].error;
        assert FirstFailed(rs, k);
      } else if rs[n].Failure? {
        assert FirstFailed(rs, n);
      }
    }
  }

  /** Once a prefix fails, the whole run fails the same way. */
  lemma {:induction false} CollectFailureSticks<T>(rs: seq<Result<T, string>>, n: nat)
    requires n <= |rs| && Collect(rs[..n]).Failure?
    ensures Collect(rs) == Collect(rs[..n])
    decreases |rs| - n
  {
    if n == |rs| {
      assert rs[..n] == rs;
    } else {
      assert rs[..n + 1][..n] == rs[..n];
      CollectFailureSticks(rs, n + 1);
    }
  }

  /** Each file's own outcome, in order. */
  function ParseEach(files: seq<File>): (r: seq<Result<ContractData, string>>)
    ensures |r| == |files|
    ensures forall i :: 0 <= i < |files| ==> r[i] == ParseFile(files[i])
  {
    seq(|files|, i requires 0 <= i < |files| => ParseFile(files[i]))
  }

  /** `parseMultipleContractXLSX`: the files in order, stopping at the first
      that fails. */
  method ParseMultipleContractXLSX(files: seq<File>) returns (r: Result<seq<ContractData>, string>)
    ensures r == Collect(ParseEach(files))
  {
    ghost var rs := ParseEach(files);
    var contracts: seq<ContractData> := [];
    for i := 0 to |files|
      invariant Collect(rs[..i]) == Success(contracts)
    {
      var file := files[i];
      assert rs[..i + 1][..i] == rs[..i];
      match file.content {
        case Unreadable(e) =>
          r := Failure("Failed to parse " + file.name + ": " + e);
          assert Collect(rs[..i + 1]) == r;
          CollectFailureSticks(rs, i + 1);
          return;
        case Undecodable(_) =>
          var parsed := ParseContractXLSX(file.content);
          r := Failure("Failed to parse " + file.name + ": " + parsed.error);
          assert Collect(rs[..i + 1]) == r;
          CollectFailureSticks(rs, i + 1);
          return;
        case Decoded(_) =>
          var parsed := ParseContractXLSX(file.content);
          contracts := contracts + [parsed.value];
      }
    }
    assert rs[..|files|] == rs;
    r := Success(contracts);
  }

  /** A batch parses exactly when every file parses, and then yields the
      files' contracts in order; otherwise it reports the error of the first
      file that fails. */
  lemma ParseMultipleSpec(files: seq<File>)
    ensures Collect(ParseEach(files)).Success? <==> forall i :: 0 <= i < |files| ==> ParseFile(files[i]).Success?
    ensures Collect(ParseEach(files)).Success? ==> |Collect(ParseEach(files)).value| == |files|
    ensures Collect(ParseEach(files)).Success? ==>
              forall i :: 0 <= i < |files| ==> Collect(ParseEach(files)).value[i] == ParseFile(files[i]).value
    ensures Collect(ParseEach(files)).Failure? ==>
              exists k :: 0 <= k < |files| && FirstFailure(files, k) && Collect(ParseEach(files)).error == ParseFile(files[k]).error
  {
    var rs := ParseEach(files);
    CollectSpec(rs);
    if Collect(rs).Failure? {
      var k :| FirstFailed(rs, k) && Collect(rs).error == rs[k].error;
      assert FirstFailure(files, k);
    }
  }

  // ---------------------------------------------------------------------------
  // Validation

  const NameRequired := "Customer name is required"
  const AddressRequired := "At least one address is required"

  /** Some customer, billing or site address line is set. */
  predicate HasAnyAddress(c: ContractData) {
    Truthy(c.customerAddress1) || Truthy(c.customerAddress2)
    || Truthy(c.billingAddress1) || Truthy(c.billingAddress2)
    || Truthy(c.siteAddress1) || Truthy(c.siteAddress2)
  }

  datatype Validation = Validation(valid: bool, errors: seq<string>)

  /** `validateContractData`. */
  function ValidateContractData(c: ContractData): (r: Validation)
    ensures r.valid <==> r.errors == []
    ensures NameRequired in r.errors <==> !Truthy(c.customerName)
    ensures AddressRequired in r.errors <==> !HasAnyAddress(c)
    ensures forall e :: e in r.errors ==> e == NameRequired || e == AddressRequired
    ensures |r.errors| <= 2
    ensures |r.errors| == 2 ==> r.errors == [NameRequired, AddressRequired]
  {
    var errors :=
      (if !Truthy(c.customerName) then [NameRequired] else [])
      + (if !HasAnyAddress(c) then [AddressRequired] else []);
    Validation(errors == [], errors)
  }

  /** Validity is exactly: a customer name and some address line. */
  lemma ValidIff(c: ContractData)
    ensures ValidateContractData(c).valid <==> Truthy(c.customerName) && HasAnyAddress(c)
  {
  }
}
