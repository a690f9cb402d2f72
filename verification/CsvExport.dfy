/** The CSV export of the registrations, and the reader that undoes it. */
module CsvExport {
  import opened Common
  import opened Records

  /** `escapeCsv` removes these characters. */
  predicate Dropped(c: char) {
    c == '\n' || c == '\t' || c == '\r'
  }

  /** What the export keeps of a field: control characters gone, double quotes turned into single ones. */
  function Kept(field: string): (r: string)
    ensures |r| <= |field|
    ensures forall k :: 0 <= k < |r| ==> !Dropped(r[k]) && r[k] != '"'
  {
    if field == "" then ""
    else if Dropped(field[0]) then Kept(field[1..])
    else [if field[0] == '"' then '\'' else field[0]] + Kept(field[1..])
  }

  predicate Plain(field: string) {
    forall k :: 0 <= k < |field| ==> field[k] != '\n' && field[k] != '\r' && field[k] != '\t' && field[k] != '"'
  }

  /** Kept character by character: which are removed, which is replaced, and that all others stay. */
  lemma {:induction false} KeptPerCharacter(field: string, c: char, rest: string)
    ensures Kept(field + [c] + rest)
      == Kept(field) + (if c == '\n' || c == '\r' || c == '\t' then "" else if c == '"' then "'" else [c]) + Kept(rest)
  {
    if field == "" {
      assert field + [c] + rest == [c] + rest;
      assert ([c] + rest)[1..] == rest;
    } else {
      assert (field + [c] + rest)[1..] == field[1..] + [c] + rest;
      KeptPerCharacter(field[1..], c, rest);
    }
  }

  /** A field survives the export unchanged exactly when it has no such character. */
  lemma {:induction false} KeptIsLossless(field: string)
    ensures Kept(field) == field <==> Plain(field)
  {
    if field != "" {
      KeptIsLossless(field[1..]);
      assert field == [field[0]] + field[1..];
      if Dropped(field[0]) {
        assert |Kept(field)| < |field|;
      } else {
        assert Kept(field)[0] != '"' && Kept(field)[1..] == Kept(field[1..]);
      }
    }
  }

  function Dropless(value: string): string {
    if value == "" then "" else (if Dropped(value[0]) then "" else [value[0]]) + Dropless(value[1..])
  }

  lemma {:induction false} DroplessSnoc(value: string, c: char)
    ensures Dropless(value + [c]) == Dropless(value) + if Dropped(c) then "" else [c]
  {
    if value == "" {
      assert value + [c] == [c];
    } else {
      assert (value + [c])[1..] == value[1..] + [c];
      DroplessSnoc(value[1..], c);
    }
  }

  function Requoted(value: string): (r: string)
    ensures |r| == |value|
    ensures forall k :: 0 <= k < |r| ==> r[k] == if value[k] == '"' then '\'' else value[k]
  {
    seq(|value|, k requires 0 <= k < |value| => if value[k] == '"' then '\'' else value[k])
  }

  lemma {:induction false} KeptIsRequotedDropless(field: string)
    ensures Requoted(Dropless(field)) == Kept(field)
  {
    if field != "" {
      KeptIsRequotedDropless(field[1..]);
      if !Dropped(field[0]) {
        assert Dropless(field) == [field[0]] + Dropless(field[1..]);
        assert Requoted(Dropless(field)) == [if field[0] == '"' then '\'' else field[0]] + Requoted(Dropless(field[1..]));
      } else {
        assert Dropless(field) == Dropless(field[1..]);
      }
    }
  }

  /** In place: erase the control characters, replace the quotes, then quote the whole. */
  method EscapeCsv(field: string) returns (r: string)
    ensures r == "\"" + Kept(field) + "\""
  {
    var value := "";
    for i := 0 to |field|
      invariant value == Dropless(field[..i])
    {
      DroplessSnoc(field[..i], field[i]);
      assert field[..i + 1] == field[..i] + [field[i]];
      if !Dropped(field[i]) {
        value := value + [field[i]];
      }
    }
    assert field[..|field|] == field;
    for i := 0 to |value|
      invariant |value| == |Dropless(field)|
      invariant forall k :: 0 <= k < i ==> value[k] == if Dropless(field)[k] == '"' then '\'' else Dropless(field)[k]
      invariant forall k :: i <= k < |value| ==> value[k] == Dropless(field)[k]
    {
      if value[i] == '"' {
        value := value[i := '\''];
      }
    }
    assert value == Requoted(Dropless(field));
    KeptIsRequotedDropless(field);
    r := "\"" + value + "\"";
  }

  // ---------------------------------------------------------------- the text

  /** The five exported fields of a row, in column order. */
  function Fields(row: Row): seq<string> {
    [row.name, row.company, row.companyPosition, row.phrase, row.telegramNickname]
  }

  function AllFields(rows: seq<Row>): (r: seq<seq<string>>)
    ensures |r| == |rows| && forall k :: 0 <= k < |r| ==> r[k] == Fields(rows[k])
  {
    seq(|rows|, k requires 0 <= k < |rows| => Fields(rows[k]))
  }

  function KeptFields(fields: seq<string>): (r: seq<string>)
    ensures |r| == |fields| && forall k :: 0 <= k < |r| ==> r[k] == Kept(fields[k])
  {
    seq(|fields|, k requires 0 <= k < |fields| => Kept(fields[k]))
  }

  const HEADER: seq<string> := ["Name", "Company", "Company Position", "Phrase", "Telegram Nickname"]

  /** Unquoted names separated by commas, ended by a line feed. */
  function Bare(names: seq<string>): string
    requires names != []
  {
    if |names| == 1 then names[0] + "\n" else names[0] + "," + Bare(names[1..])
  }

  function Enquoted(field: string): string {
    "\"" + Kept(field) + "\""
  }

  /** Quoted fields separated by commas, ended by a line feed. */
  function Line(fields: seq<string>): string
    requires fields != []
  {
    if |fields| == 1 then Enquoted(fields[0]) + "\n" else Enquoted(fields[0]) + "," + Line(fields[1..])
  }

  predicate NonEmpty(records: seq<seq<string>>) {
    forall k :: 0 <= k < |records| ==> records[k] != []
  }

  function Body(records: seq<seq<string>>): string
    requires NonEmpty(records)
  {
    if records == [] then "" else Body(records[..|records| - 1]) + Line(records[|records| - 1])
  }

  lemma BodySnoc(head: string, records: seq<seq<string>>, fields: seq<string>)
    requires NonEmpty(records) && fields != []
    ensures head + Body(records + [fields]) == head + Body(records) + Line(fields)
  {
    assert (records + [fields])[..|records|] == records;
    assert head + (Body(records) + Line(fields)) == head + Body(records) + Line(fields);
  }

  lemma LineCons(field: string, fields: seq<string>)
    ensures Line([field]) == Enquoted(field) + "\n"
    ensures fields != [] ==> Line([field] + fields) == Enquoted(field) + "," + Line(fields)
  {
    assert ([field] + fields)[1..] == fields;
  }

  lemma LineOf5(a: string, b: string, c: string, d: string, e: string)
    ensures Line([a, b, c, d, e])
      == Enquoted(a) + "," + (Enquoted(b) + "," + (Enquoted(c) + "," + (Enquoted(d) + "," + (Enquoted(e) + "\n"))))
  {
    assert [a, b, c, d, e] == [a] + [b, c, d, e];
    assert [b, c, d, e] == [b] + [c, d, e];
    assert [c, d, e] == [c] + [d, e];
    assert [d, e] == [d] + [e];
    LineCons(a, [b, c, d, e]);
    LineCons(b, [c, d, e]);
    LineCons(c, [d, e]);
    LineCons(d, [e]);
    LineCons(e, []);
  }

  lemma BareCons(name: string, names: seq<string>)
    ensures Bare([name]) == name + "\n"
    ensures names != [] ==> Bare([name] + names) == name + "," + Bare(names)
  {
    assert ([name] + names)[1..] == names;
  }

  lemma BareOf5(a: string, b: string, c: string, d: string, e: string)
    ensures Bare([a, b, c, d, e]) == a + "," + (b + "," + (c + "," + (d + "," + (e + "\n"))))
  {
    assert [a, b, c, d, e] == [a] + [b, c, d, e];
    assert [b, c, d, e] == [b] + [c, d, e];
    assert [c, d, e] == [c] + [d, e];
    assert [d, e] == [d] + [e];
    BareCons(a, [b, c, d, e]);
    BareCons(b, [c, d, e]);
    BareCons(c, [d, e]);
    BareCons(d, [e]);
    BareCons(e, []);
  }

  lemma Chained(csv: string, a: string, b: string, c: string, d: string, e: string, comma: string, end: string)
    ensures csv + a + comma + b + comma + c + comma + d + comma + e + end
      == csv + (a + comma + (b + comma + (c + comma + (d + comma + (e + end)))))
  {
  }

  method AppendRow(csv: string, row: Row) returns (r: string)
    ensures r == csv + Line(Fields(row))
  {
    var a := EscapeCsv(row.name);
    var b := EscapeCsv(row.company);
    var c := EscapeCsv(row.companyPosition);
    var d := EscapeCsv(row.phrase);
    var e := EscapeCsv(row.telegramNickname);
    r := csv + a + "," + b + "," + c + "," + d + "," + e + "\n";
    Chained(csv, a, b, c, d, e, ",", "\n");
    LineOf5(row.name, row.company, row.companyPosition, row.phrase, row.telegramNickname);
  }

  method HeaderLine() returns (r: string)
    ensures r == Bare(HEADER)
  {
    r := "" + HEADER[0] + "," + HEADER[1] + "," + HEADER[2] + "," + HEADER[3] + "," + HEADER[4] + "\n";
    Chained("", HEADER[0], HEADER[1], HEADER[2], HEADER[3], HEADER[4], ",", "\n");
    BareOf5(HEADER[0], HEADER[1], HEADER[2], HEADER[3], HEADER[4]);
    assert HEADER == [HEADER[0], HEADER[1], HEADER[2], HEADER[3], HEADER[4]];
  }

  /** `found` is what the table's query gives, or nothing when it fails: then the header is all there is. */
  method GenerateCsv(found: Option<seq<Row>>) returns (csv: string)
    ensures csv == Bare(HEADER) + Body(AllFields(if found.Some? then found.value else []))
    ensures found.Some? ==> forall k :: 0 <= k < |found.value| ==> UnderItsHeadings(csv, k, found.value[k])
  {
    csv := HeaderLine();
    if found.None? {
      assert Bare(HEADER) + Body([]) == Bare(HEADER);
      return;
    }
    var rows := found.value;
    for i := 0 to |rows|
      invariant csv == Bare(HEADER) + Body(AllFields(rows[..i]))
    {
      csv := AppendRow(csv, rows[i]);
      BodySnoc(Bare(HEADER), AllFields(rows[..i]), Fields(rows[i]));
      assert AllFields(rows[..i + 1]) == AllFields(rows[..i]) + [Fields(rows[i])];
    }
    assert rows[..|rows|] == rows;
    forall k | 0 <= k < |rows| ensures UnderItsHeadings(csv, k, rows[k]) {
      ColumnsUnderHeadings(rows, k);
    }
  }

  // ---------------------------------------------------------------- reading it back

  /** The length of an unquoted field: up to the next comma, line feed or quote. */
  function BareLength(s: string): (n: nat)
    ensures n <= |s|
  {
    if s == "" || s[0] == ',' || s[0] == '\n' || s[0] == '"' then 0 else 1 + BareLength(s[1..])
  }

  /**
   A quoted field after its opening quote, as in section 2 of RFC 4180: two quotes stand for one,
   a single quote ends the field.
   */
  function Quoted(s: string): Option<(string, string)> {
    if s == "" then None
    else if s[0] == '"' then
      if |s| >= 2 && s[1] == '"' then
        match Quoted(s[2..])
        case None => None
        case Some((text, rest)) => Some(("\"" + text, rest))
      else Some(("", s[1..]))
    else
      match Quoted(s[1..])
      case None => None
      case Some((text, rest)) => Some(([s[0]] + text, rest))
  }

  function ReadField(s: string): (r: Option<(string, string)>) {
    if s != "" && s[0] == '"' then Quoted(s[1..])
    else Some((s[..BareLength(s)], s[BareLength(s)..]))
  }

  /** One record: fields separated by commas up to a line feed. */
  function ReadRecord(s: string, fuel: nat): Option<(seq<string>, string)>
    decreases fuel
  {
    match ReadField(s)
    case None => None
    case Some((field, rest)) =>
      if rest == "" || fuel == 0 then None
      else if rest[0] == '\n' then Some(([field], rest[1..]))
      else if rest[0] != ',' then None
      else match ReadRecord(rest[1..], fuel - 1)
        case None => None
        case Some((fields, after)) => Some(([field] + fields, after))
  }

  /** A whole text: records until the end. Its length bounds the number of fields and of records. */
  function ReadRecords(s: string, fuel: nat): Option<seq<seq<string>>>
    decreases fuel
  {
    if s == "" then Some([])
    else if fuel == 0 then None
    else match ReadRecord(s, |s|)
      case None => None
      case Some((fields, rest)) =>
        match ReadRecords(rest, fuel - 1)
        case None => None
        case Some(records) => Some([fields] + records)
  }

  function ReadCsv(s: string): Option<seq<seq<string>>> {
    ReadRecords(s, |s|)
  }

  lemma {:induction false} QuotedUndo(text: string, rest: string)
    requires forall k :: 0 <= k < |text| ==> text[k] != '"'
    requires rest != "" && rest[0] != '"'
    ensures Quoted(text + "\"" + rest) == Some((text, rest))
  {
    var s := text + "\"" + rest;
    if text == "" {
      assert s == "\"" + rest && s[1..] == rest;
    } else {
      QuotedUndo(text[1..], rest);
      assert s[1..] == text[1..] + "\"" + rest;
      assert text == [text[0]] + text[1..];
    }
  }

  lemma FieldUndo(field: string, rest: string)
    requires rest != "" && rest[0] != '"'
    ensures ReadField(Enquoted(field) + rest) == Some((Kept(field), rest))
  {
    var s := Enquoted(field) + rest;
    assert s[1..] == Kept(field) + "\"" + rest;
    QuotedUndo(Kept(field), rest);
  }

  /** A field at the front of a record, given how the field alone reads. */
  lemma RecordFront(text: string, value: string, rest: string, fuel: nat)
    requires fuel > 0
    requires ReadField(text + ("\n" + rest)) == Some((value, "\n" + rest))
    requires ReadField(text + ("," + rest)) == Some((value, "," + rest))
    ensures ReadRecord(text + ("\n" + rest), fuel) == Some(([value], rest))
    ensures ReadRecord(text + ("," + rest), fuel) == match ReadRecord(rest, fuel - 1)
      case None => None
      case Some((fields, after)) => Some(([value] + fields, after))
  {
    assert ("\n" + rest)[1..] == rest && ("," + rest)[1..] == rest;
  }

  lemma FieldRecord(field: string, rest: string, fuel: nat)
    requires fuel > 0
    ensures ReadRecord(Enquoted(field) + ("\n" + rest), fuel) == Some(([Kept(field)], rest))
    ensures ReadRecord(Enquoted(field) + ("," + rest), fuel) == match ReadRecord(rest, fuel - 1)
      case None => None
      case Some((fields, after)) => Some(([Kept(field)] + fields, after))
  {
    FieldUndo(field, "\n" + rest);
    FieldUndo(field, "," + rest);
    RecordFront(Enquoted(field), Kept(field), rest, fuel);
  }

  lemma Split(a: string, b: string, rest: string)
    ensures a + "," + b + rest == a + ("," + (b + rest))
    ensures a + "\n" + rest == a + ("\n" + rest)
  {
  }

  lemma {:induction false} LineUndo(field: string, fields: seq<string>, rest: string, fuel: nat)
    requires fuel > |fields|
    ensures ReadRecord(Line([field] + fields) + rest, fuel) == Some(([Kept(field)] + KeptFields(fields), rest))
    decreases |fields|
  {
    LineCons(field, fields);
    if fields == [] {
      assert [field] + fields == [field] && [Kept(field)] + KeptFields(fields) == [Kept(field)];
      Split(Enquoted(field), "", rest);
      FieldRecord(field, rest, fuel);
    } else {
      var tail := fields[1..];
      assert fields == [fields[0]] + tail;
      assert KeptFields(fields) == [Kept(fields[0])] + KeptFields(tail);
      Split(Enquoted(field), Line(fields), rest);
      LineUndo(fields[0], tail, rest, fuel - 1);
      FieldRecord(field, Line(fields) + rest, fuel);
    }
  }

  lemma {:induction false} LineLength(fields: seq<string>)
    requires fields != []
    ensures |Line(fields)| > |fields|
  {
    if |fields| > 1 {
      LineLength(fields[1..]);
    }
  }

  lemma {:induction false} BodyCons(fields: seq<string>, records: seq<seq<string>>)
    requires fields != [] && NonEmpty(records)
    ensures Body([fields] + records) == Line(fields) + Body(records)
  {
    if records == [] {
      assert [fields] + records == [fields] && [fields][..0] == [];
    } else {
      var most, last := records[..|records| - 1], records[|records| - 1];
      assert ([fields] + records)[..|records|] == [fields] + most;
      BodyCons(fields, most);
      assert Line(fields) + Body(most) + Line(last) == Line(fields) + (Body(most) + Line(last));
    }
  }

  function KeptRecords(records: seq<seq<string>>): (r: seq<seq<string>>)
    ensures |r| == |records| && forall k :: 0 <= k < |r| ==> r[k] == KeptFields(records[k])
  {
    seq(|records|, k requires 0 <= k < |records| => KeptFields(records[k]))
  }

  lemma LineReads(fields: seq<string>, rest: string, fuel: nat)
    requires fields != [] && fuel >= |fields|
    ensures ReadRecord(Line(fields) + rest, fuel) == Some((KeptFields(fields), rest))
  {
    assert fields == [fields[0]] + fields[1..];
    assert KeptFields(fields) == [Kept(fields[0])] + KeptFields(fields[1..]);
    LineUndo(fields[0], fields[1..], rest, fuel);
  }

  /** One more record at the front of a text. */
  lemma RecordsFront(s: string, fields: seq<string>, rest: string, fuel: nat)
    requires s != "" && fuel > 0 && ReadRecord(s, |s|) == Some((fields, rest))
    ensures ReadRecords(s, fuel) == match ReadRecords(rest, fuel - 1)
      case None => None
      case Some(records) => Some([fields] + records)
  {
  }

  lemma KeptRecordsCons(fields: seq<string>, records: seq<seq<string>>)
    ensures KeptRecords([fields] + records) == [KeptFields(fields)] + KeptRecords(records)
  {
  }

  /** The records come off the front of `text`, one after the other. */
  ghost predicate ReadsAs(text: string, records: seq<seq<string>>)
    decreases |records|
  {
    if records == [] then text == ""
    else exists rest: string :: ReadsOne(text, records[0], rest) && ReadsAs(rest, records[1..])
  }

  ghost predicate ReadsOne(text: string, fields: seq<string>, rest: string) {
    text != "" && ReadRecord(text, |text|) == Some((fields, rest)) && |rest| < |text|
  }

  lemma {:induction false} ReadsAll(text: string, records: seq<seq<string>>, fuel: nat)
    requires ReadsAs(text, records) && fuel >= |text|
    ensures ReadRecords(text, fuel) == Some(records)
    decreases |records|
  {
    if records != [] {
      var rest: string :| ReadsOne(text, records[0], rest) && ReadsAs(rest, records[1..]);
      ReadsAll(rest, records[1..], fuel - 1);
      RecordsFront(text, records[0], rest, fuel);
      assert records == [records[0]] + records[1..];
    }
  }

  lemma FirstLine(fields: seq<string>, rest: string)
    requires fields != []
    ensures ReadsOne(Line(fields) + rest, KeptFields(fields), rest)
  {
    LineLength(fields);
    LineReads(fields, rest, |Line(fields) + rest|);
  }

  lemma {:induction false} BodyUndo(records: seq<seq<string>>)
    requires NonEmpty(records)
    ensures ReadsAs(Body(records), KeptRecords(records))
  {
    if records != [] {
      var fields, rest := records[0], records[1..];
      assert records == [fields] + rest;
      BodyCons(fields, rest);
      FirstLine(fields, Body(rest));
      BodyUndo(rest);
      KeptRecordsCons(fields, rest);
      ReadsMore(Line(fields) + Body(rest), KeptFields(fields), Body(rest), KeptRecords(rest));
    }
  }

  predicate IsBare(text: string) {
    forall k :: 0 <= k < |text| ==> text[k] != ',' && text[k] != '\n' && text[k] != '"'
  }

  predicate AllBare(names: seq<string>) {
    forall k :: 0 <= k < |names| ==> IsBare(names[k])
  }

  lemma {:induction false} BareLengthOf(text: string, rest: string)
    requires IsBare(text) && rest != "" && (rest[0] == ',' || rest[0] == '\n')
    ensures BareLength(text + rest) == |text|
  {
    if text == "" {
      assert text + rest == rest;
    } else {
      assert (text + rest)[1..] == text[1..] + rest;
      BareLengthOf(text[1..], rest);
    }
  }

  lemma BareFieldUndo(text: string, rest: string)
    requires IsBare(text) && rest != "" && (rest[0] == ',' || rest[0] == '\n')
    ensures ReadField(text + rest) == Some((text, rest))
  {
    BareLengthOf(text, rest);
    assert (text + rest)[..|text|] == text && (text + rest)[|text|..] == rest;
  }

  lemma BareRecord(name: string, rest: string, fuel: nat)
    requires IsBare(name) && fuel > 0
    ensures ReadRecord(name + ("\n" + rest), fuel) == Some(([name], rest))
    ensures ReadRecord(name + ("," + rest), fuel) == match ReadRecord(rest, fuel - 1)
      case None => None
      case Some((fields, after)) => Some(([name] + fields, after))
  {
    BareFieldUndo(name, "\n" + rest);
    BareFieldUndo(name, "," + rest);
    RecordFront(name, name, rest, fuel);
  }

  lemma {:induction false} BareUndo(name: string, names: seq<string>, rest: string, fuel: nat)
    requires fuel > |names| && IsBare(name) && AllBare(names)
    ensures ReadRecord(Bare([name] + names) + rest, fuel) == Some(([name] + names, rest))
    decreases |names|
  {
    BareCons(name, names);
    if names == [] {
      assert [name] + names == [name];
      Split(name, "", rest);
      BareRecord(name, rest, fuel);
    } else {
      var next, tail := names[0], names[1..];
      assert names == [next] + tail;
      BareUndo(next, tail, rest, fuel - 1);
      BareMore(name, names, rest, fuel);
    }
  }

  lemma BareMore(name: string, names: seq<string>, rest: string, fuel: nat)
    requires IsBare(name) && names != [] && fuel > 0 && ReadRecord(Bare(names) + rest, fuel - 1) == Some((names, rest))
    ensures ReadRecord(Bare([name] + names) + rest, fuel) == Some(([name] + names, rest))
  {
    BareCons(name, names);
    Split(name, Bare(names), rest);
    BareRecord(name, Bare(names) + rest, fuel);
  }

  lemma {:induction false} BareLonger(names: seq<string>)
    requires names != []
    ensures |Bare(names)| >= |names|
  {
    if |names| > 1 {
      BareLonger(names[1..]);
    }
  }

  lemma HeaderIsBare()
    ensures AllBare(HEADER)
  {
    assert IsBare("Name");
    assert IsBare("Company");
    assert IsBare("Company Position");
    assert IsBare("Phrase");
    assert IsBare("Telegram Nickname");
    hide IsBare;
  }

  /**
   Reading the export gives the header and then, in order, every row's five fields as the export
   keeps them.
   */
  lemma CsvRoundTrip(rows: seq<Row>)
    ensures ReadCsv(Bare(HEADER) + Body(AllFields(rows))) == Some([HEADER] + KeptRecords(AllFields(rows)))
  {
    RecordsAfter(HEADER, AllFields(rows)) by { HeaderIsBare(); }
  }

  /** The place of a name in the header. */
  function Lookup(header: seq<string>, name: string): (j: Option<nat>)
    ensures j.Some? ==> j.value < |header| && header[j.value] == name
  {
    if header == [] then None
    else if header[0] == name then Some(0)
    else match Lookup(header[1..], name)
      case None => None
      case Some(j) => Some(j + 1)
  }

  /** Record `k` holds `text` in the column that the first record calls `name`. */
  predicate Holds(records: seq<seq<string>>, k: nat, name: string, text: string) {
    && k < |records| && Lookup(records[0], name).Some?
    && Lookup(records[0], name).value < |records[k]| && records[k][Lookup(records[0], name).value] == text
  }

  /** Read back, the `k`th row's columns stand under the headings that name them. */
  predicate UnderItsHeadings(csv: string, k: nat, row: Row) {
    ReadCsv(csv).Some? &&
    var records := ReadCsv(csv).value;
    && Holds(records, k + 1, "Name", Kept(row.Get(NAME).s))
    && Holds(records, k + 1, "Company", Kept(row.Get(COMPANY).s))
    && Holds(records, k + 1, "Company Position", Kept(row.Get(COMPANY_POSITION).s))
    && Holds(records, k + 1, "Phrase", Kept(row.Get(PHRASE).s))
    && Holds(records, k + 1, "Telegram Nickname", Kept(row.Get(TELEGRAM_NICKNAME).s))
  }

  lemma {:induction false} LookupAt(header: seq<string>, j: nat)
    requires j < |header| && forall i :: 0 <= i < j ==> header[i] != header[j]
    ensures Lookup(header, header[j]) == Some(j)
  {
    if j > 0 {
      LookupAt(header[1..], j - 1);
    }
  }

  lemma HeaderNames()
    ensures HEADER == ["Name", "Company", "Company Position", "Phrase", "Telegram Nickname"]
    ensures Lookup(HEADER, "Name") == Some(0) && Lookup(HEADER, "Company") == Some(1)
    ensures Lookup(HEADER, "Company Position") == Some(2) && Lookup(HEADER, "Phrase") == Some(3)
    ensures Lookup(HEADER, "Telegram Nickname") == Some(4)
  {
    assert |"Name"| == 4 && |"Company"| == 7 && |"Company Position"| == 16 && |"Phrase"| == 6 && |"Telegram Nickname"| == 17;
    LookupAt(HEADER, 0);
    LookupAt(HEADER, 1);
    LookupAt(HEADER, 2);
    LookupAt(HEADER, 3);
    LookupAt(HEADER, 4);
    hide Lookup;
  }

  /** Every exported column stands under the heading that names it, whatever the fields contain. */
  lemma ColumnsUnderHeadings(rows: seq<Row>, k: nat)
    requires k < |rows|
    ensures UnderItsHeadings(Bare(HEADER) + Body(AllFields(rows)), k, rows[k])
  {
    CsvRoundTrip(rows);
    HeaderNames();
    hide HEADER;
    hide Lookup;
    hide ReadCsv;
    var records := [HEADER] + KeptRecords(AllFields(rows));
    assert records[0] == HEADER && records[k + 1] == KeptFields(Fields(rows[k]));
  }

  lemma HeaderFront(names: seq<string>, rest: string)
    requires names != [] && AllBare(names)
    ensures ReadsOne(Bare(names) + rest, names, rest)
  {
    assert names == [names[0]] + names[1..];
    BareLonger(names);
    BareUndo(names[0], names[1..], rest, |Bare(names) + rest|);
  }

  lemma ReadsMore(text: string, fields: seq<string>, rest: string, records: seq<seq<string>>)
    requires ReadsOne(text, fields, rest) && ReadsAs(rest, records)
    ensures ReadsAs(text, [fields] + records)
  {
    assert ([fields] + records)[1..] == records;
  }

  lemma RecordsAfter(names: seq<string>, records: seq<seq<string>>)
    requires names != [] && NonEmpty(records) && AllBare(names)
    ensures ReadCsv(Bare(names) + Body(records)) == Some([names] + KeptRecords(records))
  {
    HeaderFront(names, Body(records));
    BodyUndo(records);
    ReadsMore(Bare(names) + Body(records), names, Body(records), KeptRecords(records));
    ReadsAll(Bare(names) + Body(records), [names] + KeptRecords(records), |Bare(names) + Body(records)|);
  }

  lemma {:induction false} KeptFieldsLossless(fields: seq<string>)
    ensures KeptFields(fields) == fields <==> forall f :: 0 <= f < |fields| ==> Plain(fields[f])
  {
    forall f | 0 <= f < |fields| ensures KeptFields(fields)[f] == fields[f] <==> Plain(fields[f]) {
      KeptIsLossless(fields[f]);
    }
    if forall f :: 0 <= f < |fields| ==> Plain(fields[f]) {
      assert forall f :: 0 <= f < |fields| ==> KeptFields(fields)[f] == fields[f];
    } else {
      var f :| 0 <= f < |fields| && !Plain(fields[f]);
      assert KeptFields(fields)[f] != fields[f];
    }
  }

  predicate AllPlain(fields: seq<string>) {
    forall f :: 0 <= f < |fields| ==> Plain(fields[f])
  }

  lemma KeptRecordsLossless(records: seq<seq<string>>)
    ensures KeptRecords(records) == records <==> forall k :: 0 <= k < |records| ==> AllPlain(records[k])
  {
    forall k | 0 <= k < |records| ensures KeptRecords(records)[k] == records[k] <==> AllPlain(records[k]) {
      KeptFieldsLossless(records[k]);
    }
    if forall k :: 0 <= k < |records| ==> AllPlain(records[k]) {
      assert forall k :: 0 <= k < |records| ==> KeptRecords(records)[k] == records[k];
    } else {
      var k :| 0 <= k < |records| && !AllPlain(records[k]);
      assert KeptRecords(records)[k] != records[k];
    }
  }

  /** The export is lossless exactly when no exported field has a character it drops or replaces. */
  lemma CsvLossless(rows: seq<Row>)
    ensures ReadCsv(Bare(HEADER) + Body(AllFields(rows))) == Some([HEADER] + AllFields(rows))
      <==> forall k :: 0 <= k < |rows| ==> AllPlain(Fields(rows[k]))
  {
    CsvRoundTrip(rows);
    SameTail(HEADER, KeptRecords(AllFields(rows)), AllFields(rows));
    KeptRecordsLossless(AllFields(rows));
  }

  // ---------------------------------------------------------------- one line per row

  function LineFeeds(s: string): nat {
    if s == "" then 0 else (if s[0] == '\n' then 1 else 0) + LineFeeds(s[1..])
  }

  lemma {:induction false} LineFeedsConcat(a: string, b: string)
    ensures LineFeeds(a + b) == LineFeeds(a) + LineFeeds(b)
  {
    if a == "" {
      assert a + b == b;
    } else {
      assert (a + b)[1..] == a[1..] + b;
      LineFeedsConcat(a[1..], b);
    }
  }

  lemma {:induction false} NoLineFeeds(s: string)
    requires forall k :: 0 <= k < |s| ==> s[k] != '\n'
    ensures LineFeeds(s) == 0
  {
    if s != "" {
      NoLineFeeds(s[1..]);
    }
  }

  /** A text without a line feed, then the end of the line or a comma. */
  lemma LineFeedAfter(text: string, rest: string)
    requires forall k :: 0 <= k < |text| ==> text[k] != '\n'
    ensures LineFeeds(text + "\n") == 1 && LineFeeds(text + "," + rest) == LineFeeds(rest)
  {
    NoLineFeeds(text);
    LineFeedsConcat(text, "\n");
    assert LineFeeds("\n") == 1;
    NoLineFeeds(text + ",");
    LineFeedsConcat(text + ",", rest);
  }

  lemma {:induction false} OneLineFeed(fields: seq<string>)
    requires fields != []
    ensures LineFeeds(Line(fields)) == 1
  {
    if |fields| == 1 {
      LineFeedAfter(Enquoted(fields[0]), "");
    } else {
      LineFeedAfter(Enquoted(fields[0]), Line(fields[1..]));
      OneLineFeed(fields[1..]);
    }
  }

  lemma {:induction false} OneBareLineFeed(names: seq<string>)
    requires names != [] && AllBare(names)
    ensures LineFeeds(Bare(names)) == 1
  {
    if |names| == 1 {
      LineFeedAfter(names[0], "");
    } else {
      LineFeedAfter(names[0], Bare(names[1..]));
      OneBareLineFeed(names[1..]);
    }
  }

  lemma {:induction false} BodyLineFeeds(records: seq<seq<string>>)
    requires NonEmpty(records)
    ensures LineFeeds(Body(records)) == |records|
  {
    if records != [] {
      BodyLineFeeds(records[..|records| - 1]);
      OneLineFeed(records[|records| - 1]);
      LineFeedsConcat(Body(records[..|records| - 1]), Line(records[|records| - 1]));
    }
  }

  /** No text a participant enters can add or remove a line of the export. */
  lemma LinePerRow(rows: seq<Row>)
    ensures LineFeeds(Bare(HEADER) + Body(AllFields(rows))) == |rows| + 1
  {
    LineFeedsConcat(Bare(HEADER), Body(AllFields(rows)));
    BodyLineFeeds(AllFields(rows));
    OneBareLineFeed(HEADER) by { HeaderIsBare(); }
  }
}
