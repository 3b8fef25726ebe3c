/** CSV export of leads (`src/lib/csv-export.ts`).

    Values that hold a comma, a line feed or a double quote are written as
    quoted fields with inner quotes doubled, as section 2 (rules 6 and 7) of
    RFC 4180 describes. Records are separated by a line feed. The reading
    side here is an RFC 4180 field parser (with a line feed as the record
    separator), used to show that the export can be read back. */
module CsvExport {
  import opened Common
  import opened Leads

  // ---------------------------------------------------------------------------
  // Escaping a value

  /** The characters that force quoting. A carriage return does not. */
  predicate Special(c: char) {
    c == ',' || c == '\n' || c == '"'
  }

  /** `value.includes(',') || value.includes('\n') || value.includes('"')`. */
  predicate NeedsQuotes(v: string)
    decreases |v|
  {
    v != [] && (Special(v[0]) || NeedsQuotes(v[1..]))
  }

  /** A value needs quotes exactly when one of its characters is special. */
  lemma {:induction false} NeedsQuotesIff(v: string)
    ensures NeedsQuotes(v) <==> exists i :: 0 <= i < |v| && Special(v[i])
    decreases |v|
  {
    if v != [] {
      NeedsQuotesIff(v[1..]);
      if exists i :: 0 <= i < |v| && Special(v[i]) {
        var i :| 0 <= i < |v| && Special(v[i]);
        if i > 0 {
          assert v[1..][i - 1] == v[i];
        }
      }
      if exists i :: 0 <= i < |v[1..]| && Special(v[1..][i]) {
        var i :| 0 <= i < |v[1..]| && Special(v[1..][i]);
        assert v[i + 1] == v[1..][i];
      }
    }
  }

  /** `value.replace(/"/g, '""')`. */
  function DoubleQuotes(v: string): (r: string)
    ensures '"' !in v ==> r == v
    decreases |v|
  {
    if v == [] then []
    else (if v[0] == '"' then "\"\"" else [v[0]]) + DoubleQuotes(v[1..])
  }

  /** `escapeCSVValue`. */
  function EscapeCSVValue(v: string): (r: string)
    ensures v == "" ==> r == ""
    ensures !NeedsQuotes(v) ==> r == v
    ensures NeedsQuotes(v) ==> r == "\"" + DoubleQuotes(v) + "\""
  {
    if v == "" then ""
    else if NeedsQuotes(v) then "\"" + DoubleQuotes(v) + "\""
    else v
  }

  // ---------------------------------------------------------------------------
  // Reading fields back (RFC 4180, section 2)

  datatype Parsed<T> = Parsed(value: T, rest: string)

  /** The inside of a quoted field, after its opening quote: `""` stands for
      one quote, a lone `"` closes the field. An unterminated field runs to
      the end of the text. */
  function QuotedBody(s: string): (r: Parsed<string>)
    ensures |r.rest| <= |s|
    decreases |s|
  {
    if s == [] then Parsed("", [])
    else if s[0] == '"' then
      if |s| > 1 && s[1] == '"' then
        var p := QuotedBody(s[2..]);
        Parsed("\"" + p.value, p.rest)
      else Parsed("", s[1..])
    else
      var p := QuotedBody(s[1..]);
      Parsed([s[0]] + p.value, p.rest)
  }

  /** An unquoted field: everything up to the next comma or line feed. */
  function Unquoted(s: string): (r: Parsed<string>)
    ensures |r.rest| <= |s|
    ensures r.rest == [] || r.rest[0] == ',' || r.rest[0] == '\n'
    decreases |s|
  {
    if s == [] || s[0] == ',' || s[0] == '\n' then Parsed("", s)
    else
      var p := Unquoted(s[1..]);
      Parsed([s[0]] + p.value, p.rest)
  }

  function ParseField(s: string): (r: Parsed<string>)
    ensures |r.rest| <= |s|
  {
    if s != [] && s[0] == '"' then QuotedBody(s[1..]) else Unquoted(s)
  }

  /** The fields of one record, and the text after its line feed. */
  function ParseRecord(s: string): (r: Parsed<seq<string>>)
    ensures |r.value| >= 1
    ensures s != [] ==> |r.rest| < |s|
    ensures |r.rest| <= |s|
    decreases |s|
  {
    var f := ParseField(s);
    if f.rest != [] && f.rest[0] == ',' then
      var more := ParseRecord(f.rest[1..]);
      Parsed([f.value] + more.value, more.rest)
    else if f.rest != [] then Parsed([f.value], f.rest[1..])
    else Parsed([f.value], [])
  }

  function ParseCSV(s: string): (r: seq<seq<string>>)
    decreases |s|
  {
    if s == [] then []
    else
      var rec := ParseRecord(s);
      [rec.value] + ParseCSV(rec.rest)
  }

  // ---------------------------------------------------------------------------
  // Round trips

  /** What may follow a field: nothing, or a separator. */
  predicate Boundary(rest: string) {
    rest == [] || rest[0] == ',' || rest[0] == '\n'
  }

  lemma QuotedBodyPair(t: string)
    ensures QuotedBody("\"\"" + t) == Parsed("\"" + QuotedBody(t).value, QuotedBody(t).rest)
  {
    assert ("\"\"" + t)[2..] == t;
  }

  lemma QuotedBodyChar(c: char, t: string)
    requires c != '"'
    ensures QuotedBody([c] + t) == Parsed([c] + QuotedBody(t).value, QuotedBody(t).rest)
  {
    assert ([c] + t)[1..] == t;
  }

  lemma Regroup(a: string, b: string, c: string, d: string)
    ensures a + b + c + d == a + (b + c + d)
  {
  }

  /** One step of the round trip: the first character of the value, then
      the rest of it. */
  lemma QuotedBodyStep(v: string, rest: string)
    requires v != []
    requires QuotedBody(DoubleQuotes(v[1..]) + "\"" + rest) == Parsed(v[1..], rest)
    ensures QuotedBody(DoubleQuotes(v) + "\"" + rest) == Parsed(v, rest)
  {
    var d := DoubleQuotes(v[1..]);
    var t := d + "\"" + rest;
    var head := if v[0] == '"' then "\"\"" else [v[0]];
    assert DoubleQuotes(v) == head + d;
    Regroup(head, d, "\"", rest);
    if v[0] == '"' {
      QuotedBodyPair(t);
    } else {
      QuotedBodyChar(v[0], t);
    }
    assert [v[0]] + v[1..] == v;
  }

  /** The inside of a written quoted field reads back as the value, and the
      text after the closing quote is left over. */
  lemma {:induction false} QuotedBodyRoundTrip(v: string, rest: string)
    requires rest == [] || rest[0] != '"'
    ensures QuotedBody(DoubleQuotes(v) + "\"" + rest) == Parsed(v, rest)
    decreases |v|
  {
    if v == [] {
      var s := DoubleQuotes(v) + "\"" + rest;
      assert s == "\"" + rest;
      assert s[1..] == rest;
    } else {
      QuotedBodyRoundTrip(v[1..], rest);
      QuotedBodyStep(v, rest);
    }
  }

  lemma {:induction false} UnquotedRoundTrip(v: string, rest: string)
    requires !NeedsQuotes(v)
    requires Boundary(rest)
    ensures Unquoted(v + rest) == Parsed(v, rest)
    decreases |v|
  {
    if v == [] {
      assert v + rest == rest;
    } else {
      assert (v + rest)[0] == v[0];
      assert (v + rest)[1..] == v[1..] + rest;
      UnquotedRoundTrip(v[1..], rest);
      assert [v[0]] + v[1..] == v;
    }
  }

  lemma QuotedFieldRoundTrip(v: string, rest: string)
    requires Boundary(rest)
    ensures ParseField("\"" + DoubleQuotes(v) + "\"" + rest) == Parsed(v, rest)
  {
    var d := DoubleQuotes(v);
    var tail := d + "\"" + rest;
    var s := "\"" + d + "\"" + rest;
    assert s == ['"'] + tail;
    assert s[0] == '"' && s[1..] == tail;
    QuotedBodyRoundTrip(v, rest);
  }

  /** Reading an escaped value back yields the value, whatever separator
      follows it. */
  lemma FieldRoundTrip(v: string, rest: string)
    requires Boundary(rest)
    ensures ParseField(EscapeCSVValue(v) + rest) == Parsed(v, rest)
  {
    if v == "" {
      assert EscapeCSVValue(v) + rest == rest;
      UnquotedRoundTrip(v, rest);
    } else if NeedsQuotes(v) {
      QuotedFieldRoundTrip(v, rest);
    } else {
      UnquotedRoundTrip(v, rest);
    }
  }

  /** Unescaping a single field: strip the quotes and undouble, or keep the
      text as it is. */
  function UnescapeCSVValue(field: string): string {
    ParseField(field).value
  }

  lemma UnescapeEscape(v: string)
    ensures UnescapeCSVValue(EscapeCSVValue(v)) == v
  {
    FieldRoundTrip(v, []);
    assert EscapeCSVValue(v) + [] == EscapeCSVValue(v);
  }

  /** `values.join(sep)`. */
  function Join(values: seq<string>, sep: char): (r: string)
    decreases |values|
  {
    if values == [] then ""
    else if |values| == 1 then values[0]
    else values[0] + [sep] + Join(values[1..], sep)
  }

  function EscapeAll(values: seq<string>): (r: seq<string>)
    ensures |r| == |values|
    ensures forall i :: 0 <= i < |values| ==> r[i] == EscapeCSVValue(values[i])
  {
    seq(|values|, i requires 0 <= i < |values| => EscapeCSVValue(values[i]))
  }

  lemma {:induction false} RecordRoundTrip(values: seq<string>, rest: string)
    requires values != []
    requires rest == [] || rest[0] == '\n'
    ensures ParseRecord(Join(EscapeAll(values), ',') + rest)
            == Parsed(values, if rest == [] then [] else rest[1..])
    decreases |values|
  {
    var e := EscapeAll(values);
    if |values| == 1 {
      assert Join(e, ',') == e[0];
      FieldRoundTrip(values[0], rest);
      assert [values[0]] == values;
    } else {
      var j1 := Join(e[1..], ',');
      assert EscapeAll(values[1..]) == e[1..];
      assert Join(e, ',') == e[0] + [','] + j1;
      Regroup(e[0], [','], j1, rest);
      var after := [','] + j1 + rest;
      assert after[0] == ',' && after[1..] == j1 + rest;
      FieldRoundTrip(values[0], after);
      RecordRoundTrip(values[1..], rest);
      assert [values[0]] + values[1..] == values;
    }
  }

  /** The lines of a CSV text: each record's escaped values joined by commas. */
  function Lines(records: seq<seq<string>>): (r: seq<string>)
    ensures |r| == |records|
    ensures forall i :: 0 <= i < |records| ==> r[i] == Join(EscapeAll(records[i]), ',')
  {
    seq(|records|, i requires 0 <= i < |records| => Join(EscapeAll(records[i]), ','))
  }

  /** A written record of two or more values holds a comma, so it is never
      empty text. */
  lemma WrittenRecordNonEmpty(values: seq<string>)
    requires |values| >= 2
    ensures Join(EscapeAll(values), ',') != []
  {
    var e := EscapeAll(values);
    assert Join(e, ',') == e[0] + [','] + Join(e[1..], ',');
  }

  /** Records of two or more values, written out and read back, are the same
      records. */
  lemma {:induction false} CSVRoundTrip(records: seq<seq<string>>)
    requires forall i :: 0 <= i < |records| ==> |records[i]| >= 2
    ensures ParseCSV(Join(Lines(records), '\n')) == records
    decreases |records|
  {
    if records != [] {
      var ls := Lines(records);
      var s := Join(ls, '\n');
      WrittenRecordNonEmpty(records[0]);
      if |records| == 1 {
        assert s == ls[0] + [];
        RecordRoundTrip(records[0], []);
        assert ParseCSV([]) == [];
      } else {
        var tail := Join(Lines(records[1..]), '\n');
        assert Lines(records[1..]) == ls[1..];
        assert s == ls[0] + ("\n" + tail);
        RecordRoundTrip(records[0], "\n" + tail);
        assert ("\n" + tail)[1..] == tail;
        CSVRoundTrip(records[1..]);
        assert [records[0]] + records[1..] == records;
      }
    }
  }

  // ---------------------------------------------------------------------------
  // Generating the export

  const Headers: seq<string> := [
    "Name", "Address", "Type", "Contact Person", "Phone", "Email", "Website",
    "Rating", "Distance (mi)", "Contacted", "Contact Date", "Contact Notes", "Notes"]

  /** The text forms the browser gives: `toString` of a number and
      `toLocaleDateString` of a date string. */
  datatype Formats = Formats(number: real -> string, localDate: string -> string)

  function NumberText(x: Option<real>, f: Formats): string {
    if x.Some? then f.number(x.value) else ""
  }

  /** The values of one lead's row, before escaping. */
  function RowValues(lead: Lead, f: Formats): (r: seq<string>)
    ensures |r| == |Headers|
    ensures r[9] == "Yes" <==> lead.contacted == Some(true)
    ensures r[9] == "No" <==> lead.contacted != Some(true)
  {
    [lead.name,
     lead.address,
     TypeName(lead.leadType),
     Text(lead.contactPerson),
     Text(lead.phone),
     Text(lead.email),
     Text(lead.website),
     NumberText(lead.rating, f),
     NumberText(lead.distance, f),
     if lead.contacted == Some(true) then "Yes" else "No",
     if Truthy(lead.contactedDate) then f.localDate(lead.contactedDate.value) else "",
     Text(lead.contactNotes),
     Text(lead.notes)]
  }

  /** The columns written as they are, without escaping: type, rating,
      distance, contacted and contact date. */
  predicate Raw(i: int) {
    i == 2 || i == 7 || i == 8 || i == 9 || i == 10
  }

  /** One row as written: the raw columns go out as they are; the others
      are escaped. */
  function Row(lead: Lead, f: Formats): (r: string)
  {
    var v := RowValues(lead, f);
    Join(seq(|v|, i requires 0 <= i < |v| => if Raw(i) then v[i] else EscapeCSVValue(v[i])), ',')
  }

  /** `generateCSV`: the header line, then one row per lead in order. */
  function GenerateCSV(leads: seq<Lead>, f: Formats): (r: string)
  {
    Join([Join(Headers, ',')] + seq(|leads|, i requires 0 <= i < |leads| => Row(leads[i], f)), '\n')
  }

  /** No lead, no row: the export is the header line alone, and it reads
      back as the header. */
  lemma GenerateEmpty(f: Formats)
    ensures GenerateCSV([], f) == Join(Headers, ',')
    ensures ParseCSV(GenerateCSV([], f)) == [Headers]
  {
    HeadersPlain();
    HeaderOnly(Headers);
  }

  lemma HeaderOnly(hs: seq<string>)
    requires |hs| >= 2 && EscapeAll(hs) == hs
    ensures Join([Join(hs, ',')], '\n') == Join(hs, ',')
    ensures ParseCSV(Join([Join(hs, ',')], '\n')) == [hs]
  {
    assert [Join(hs, ',')] == Lines([hs]);
    CSVRoundTrip([hs]);
  }

  lemma PlainChars(h: string)
    requires forall j :: 0 <= j < |h| ==> !Special(h[j])
    ensures !NeedsQuotes(h)
  {
    NeedsQuotesIff(h);
  }

  lemma HeaderChars(i: nat)
    requires i < |Headers|
    ensures forall j :: 0 <= j < |Headers[i]| ==> !Special(Headers[i][j])
  {
  }

  /** The header line needs no escaping. */
  lemma HeadersPlain()
    ensures EscapeAll(Headers) == Headers
  {
    forall i | 0 <= i < |Headers|
      ensures EscapeAll(Headers)[i] == Headers[i]
    {
      HeaderChars(i);
      PlainChars(Headers[i]);
    }
  }

  /** The raw number and date columns hold no separator or quote. */
  predicate PlainFormats(leads: seq<Lead>, f: Formats) {
    forall i :: 0 <= i < |leads| ==>
      var v := RowValues(leads[i], f);
      !NeedsQuotes(v[7]) && !NeedsQuotes(v[8]) && !NeedsQuotes(v[10])
  }

  lemma RowIsEscaped(lead: Lead, f: Formats)
    requires var v := RowValues(lead, f); !NeedsQuotes(v[7]) && !NeedsQuotes(v[8]) && !NeedsQuotes(v[10])
    ensures Row(lead, f) == Join(EscapeAll(RowValues(lead, f)), ',')
  {
    var v := RowValues(lead, f);
    assert !NeedsQuotes(v[2]) by {
      assert forall j :: 0 <= j < |v[2]| ==> !Special(v[2][j]);
      NeedsQuotesIff(v[2]);
    }
    assert !NeedsQuotes(v[9]) by {
      assert forall j :: 0 <= j < |v[9]| ==> !Special(v[9][j]);
      NeedsQuotesIff(v[9]);
    }
    var cells := seq(|v|, i requires 0 <= i < |v| => if Raw(i) then v[i] else EscapeCSVValue(v[i]));
    forall i | 0 <= i < |v| ensures cells[i] == EscapeAll(v)[i] {
    }
    assert cells == EscapeAll(v);
  }

  /** Reading the export back gives the header and then, for each lead in
      order, its thirteen values, provided the number and date texts hold no
      separator or quote. */
  lemma GenerateRoundTrip(leads: seq<Lead>, f: Formats)
    requires PlainFormats(leads, f)
    ensures ParseCSV(GenerateCSV(leads, f))
            == [Headers] + seq(|leads|, i requires 0 <= i < |leads| => RowValues(leads[i], f))
  {
    var rows := seq(|leads|, i requires 0 <= i < |leads| => RowValues(leads[i], f));
    forall i | 0 <= i < |leads| ensures Row(leads[i], f) == Lines(rows)[i] {
      RowIsEscaped(leads[i], f);
    }
    assert seq(|leads|, i requires 0 <= i < |leads| => Row(leads[i], f)) == Lines(rows);
    HeadersPlain();
    TableRoundTrip(Headers, rows);
  }

  /** A header line that needs no escaping, then escaped rows of two or
      more values, read back as the header and the rows. */
  lemma TableRoundTrip(hs: seq<string>, rows: seq<seq<string>>)
    requires |hs| >= 2 && EscapeAll(hs) == hs
    requires forall i :: 0 <= i < |rows| ==> |rows[i]| >= 2
    ensures ParseCSV(Join([Join(hs, ',')] + Lines(rows), '\n')) == [hs] + rows
  {
    var line := Join(hs, ',');
    var ls := [line] + Lines(rows);
    WrittenRecordNonEmpty(hs);
    if rows == [] {
      assert Join(ls, '\n') == line + [];
      RecordRoundTrip(hs, []);
    } else {
      var tail := Join(Lines(rows), '\n');
      assert ls[1..] == Lines(rows);
      assert Join(ls, '\n') == line + ("\n" + tail);
      RecordRoundTrip(hs, "\n" + tail);
      assert ("\n" + tail)[1..] == tail;
      CSVRoundTrip(rows);
    }
  }


}
