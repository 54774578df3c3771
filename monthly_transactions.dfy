/** The pure helpers of the monthly transactions page: the CSV export of the
    month's transactions, the most frequent category, the month's total and
    the list of selectable years. */
module MonthlyTransactions {
  import opened Values
  import opened Text
  import opened Dates
  import opened Groups
  import opened Transactions

  // ---------------------------------------------------------------------
  // CSV fields, as section 2 of RFC 4180 writes them

  predicate IsCsvSpecial(c: char)
  {
    c == '"' || c == ',' || c == '\n'
  }

  /** `/[",\n]/.test(s)`. */
  predicate NeedsQuoting(s: string)
  {
    exists i | 0 <= i < |s| :: IsCsvSpecial(s[i])
  }

  /** `s.replace(/"/g, '""')`. */
  function DoubleQuotes(s: string): string
  {
    if s == [] then [] else (if s[0] == '"' then "\"\"" else [s[0]]) + DoubleQuotes(s[1..])
  }

  /** The text a cell stands for: nothing for null and undefined, `String(v)`
      for every other value. */
  function CellText(v: Value): string
  {
    if v.Null? || v.Undefined? then "" else JsString(v)
  }

  /** `escapeCsv`: null and undefined become the empty field; a text holding a
      quote, a comma or a line break is enclosed in quotes with its quotes
      doubled (rules 6 and 7 of section 2 of RFC 4180); any other text is
      written as it is. */
  function EscapeCsv(v: Value): (r: string)
    ensures v.Null? || v.Undefined? ==> r == ""
    ensures !NeedsQuoting(CellText(v)) ==> r == CellText(v)
    ensures NeedsQuoting(CellText(v)) ==> r == "\"" + DoubleQuotes(CellText(v)) + "\""
  {
    if v.Null? || v.Undefined? then "" else EscapeText(JsString(v))
  }

  /** The escaping of the text `String(v)`. */
  function EscapeText(s: string): string
  {
    if NeedsQuoting(s) then "\"" + DoubleQuotes(s) + "\"" else s
  }

  // ---------------------------------------------------------------------
  // Reading CSV back, by the grammar of section 2 of RFC 4180 with `\n` as
  // the record separator. The reader is more lenient than the grammar: an
  // unquoted field may hold a carriage return, which RFC 4180 allows only
  // inside quotes and which `escapeCsv` does not quote, and the round trips
  // below are proved against this reader

  /** Reads the rest of a quoted field, after its opening quote: a doubled
      quote stands for one quote and a single quote closes the field. Returns
      the field and the text after the closing quote. */
  function ReadQuoted(s: string): (r: (string, string))
    ensures |r.1| <= |s|
  {
    if s == [] then ("", "")
    else if s[0] == '"' then
      if |s| > 1 && s[1] == '"' then
        var (f, rest) := ReadQuoted(s[2..]);
        ("\"" + f, rest)
      else ("", s[1..])
    else
      var (f, rest) := ReadQuoted(s[1..]);
      ([s[0]] + f, rest)
  }

  /** Reads an unquoted field up to the next comma or line break. */
  function ReadPlain(s: string): (r: (string, string))
    ensures |r.1| <= |s|
  {
    if s == [] || s[0] == ',' || s[0] == '\n' then ("", s)
    else
      var (f, rest) := ReadPlain(s[1..]);
      ([s[0]] + f, rest)
  }

  function ReadField(s: string): (r: (string, string))
    ensures |r.1| <= |s|
  {
    if s != [] && s[0] == '"' then ReadQuoted(s[1..]) else ReadPlain(s)
  }

  /** Reads the comma-separated fields of one record; returns them and the
      text after the record. */
  function ReadRecord(s: string): (r: (seq<string>, string))
    ensures |r.1| <= |s|
    decreases |s|
  {
    var (f, rest) := ReadField(s);
    if rest != [] && rest[0] == ',' then
      var (fs, after) := ReadRecord(rest[1..]);
      ([f] + fs, after)
    else ([f], rest)
  }

  /** Reads the records of a document, separated by line breaks. */
  function ReadDocument(s: string): seq<seq<string>>
    decreases |s|
  {
    var (record, rest) := ReadRecord(s);
    if rest != [] && rest[0] == '\n' then [record] + ReadDocument(rest[1..]) else [record]
  }

  lemma {:induction false} QuotedRoundTrip(f: string, tail: string)
    requires tail == [] || tail[0] != '"'
    ensures ReadQuoted(DoubleQuotes(f) + "\"" + tail) == (f, tail)
  {
    var s := DoubleQuotes(f) + "\"" + tail;
    if f == [] {
      assert s == "\"" + tail;
      assert s[1..] == tail;
    } else if f[0] == '"' {
      var s' := DoubleQuotes(f[1..]) + "\"" + tail;
      assert s == "\"\"" + s';
      assert s[2..] == s';
      QuotedRoundTrip(f[1..], tail);
      assert "\"" + f[1..] == f;
    } else {
      var s' := DoubleQuotes(f[1..]) + "\"" + tail;
      assert s == [f[0]] + s';
      assert s[1..] == s';
      QuotedRoundTrip(f[1..], tail);
      assert [f[0]] + f[1..] == f;
    }
  }

  lemma {:induction false} PlainRoundTrip(f: string, tail: string)
    requires !NeedsQuoting(f)
    requires tail == [] || tail[0] == ',' || tail[0] == '\n'
    ensures ReadPlain(f + tail) == (f, tail)
  {
    if f == [] {
      assert f + tail == tail;
    } else {
      assert !IsCsvSpecial(f[0]);
      assert (f + tail)[1..] == f[1..] + tail;
      PlainRoundTrip(f[1..], tail);
      assert [f[0]] + f[1..] == f;
    }
  }

  /** An escaped cell, followed by a separator or by the end of the text,
      reads back as the text of the cell. */
  lemma {:induction false} FieldRoundTrip(v: Value, tail: string)
    requires tail == [] || tail[0] == ',' || tail[0] == '\n'
    ensures ReadField(EscapeCsv(v) + tail) == (CellText(v), tail)
  {
    assert EscapeCsv(v) == EscapeText(CellText(v));
    TextRoundTrip(CellText(v), tail);
  }

  lemma {:induction false} TextRoundTrip(f: string, tail: string)
    requires tail == [] || tail[0] == ',' || tail[0] == '\n'
    ensures ReadField(EscapeText(f) + tail) == (f, tail)
  {
    if NeedsQuoting(f) {
      QuotedTextRoundTrip(f, tail);
    } else {
      PlainTextRoundTrip(f, tail);
    }
  }

  lemma {:induction false} QuotedTextRoundTrip(f: string, tail: string)
    requires NeedsQuoting(f)
    requires tail == [] || tail[0] == ',' || tail[0] == '\n'
    ensures ReadField(EscapeText(f) + tail) == (f, tail)
  {
    var body := DoubleQuotes(f) + "\"" + tail;
    OpeningQuote(f, tail);
    ReadAfterQuote(body);
    QuotedRoundTrip(f, tail);
  }

  lemma {:induction false} OpeningQuote(f: string, tail: string)
    requires NeedsQuoting(f)
    ensures EscapeText(f) + tail == "\"" + (DoubleQuotes(f) + "\"" + tail)
  {
  }

  lemma {:induction false} ReadAfterQuote(body: string)
    ensures ReadField("\"" + body) == ReadQuoted(body)
  {
    var s := "\"" + body;
    assert s[0] == '"' && s[1..] == body;
  }

  lemma {:induction false} PlainTextRoundTrip(f: string, tail: string)
    requires !NeedsQuoting(f)
    requires tail == [] || tail[0] == ',' || tail[0] == '\n'
    ensures ReadField(EscapeText(f) + tail) == (f, tail)
  {
    assert EscapeText(f) == f;
    PlainRoundTrip(f, tail);
    if f != [] {
      assert !IsCsvSpecial(f[0]);
      assert (f + tail)[0] == f[0];
    } else {
      assert f + tail == tail;
    }
  }

  function EscapeAll(vs: seq<Value>): (r: seq<string>)
    ensures |r| == |vs| && forall i | 0 <= i < |vs| :: r[i] == EscapeCsv(vs[i])
  {
    if vs == [] then [] else [EscapeCsv(vs[0])] + EscapeAll(vs[1..])
  }

  /** `cells.map(escapeCsv).join(',')`. */
  function EncodeRecord(vs: seq<Value>): string
  {
    Join(EscapeAll(vs), ",")
  }

  function Texts(vs: seq<Value>): (r: seq<string>)
    ensures |r| == |vs| && forall i | 0 <= i < |vs| :: r[i] == CellText(vs[i])
  {
    if vs == [] then [] else [CellText(vs[0])] + Texts(vs[1..])
  }

  /** An encoded record reads back as the texts of its cells. */
  lemma {:induction false} RecordRoundTrip(vs: seq<Value>, tail: string)
    requires vs != []
    requires tail == [] || tail[0] == '\n'
    ensures ReadRecord(EncodeRecord(vs) + tail) == (Texts(vs), tail)
  {
    EscapeAllTexts(vs);
    TextRecordRoundTrip(Texts(vs), tail);
  }

  function EscapeTexts(fs: seq<string>): (r: seq<string>)
    ensures |r| == |fs| && forall i | 0 <= i < |fs| :: r[i] == EscapeText(fs[i])
  {
    if fs == [] then [] else [EscapeText(fs[0])] + EscapeTexts(fs[1..])
  }

  lemma {:induction false} EscapeAllTexts(vs: seq<Value>)
    ensures EscapeAll(vs) == EscapeTexts(Texts(vs))
  {
    var a, b := EscapeAll(vs), EscapeTexts(Texts(vs));
    forall i | 0 <= i < |vs| ensures a[i] == b[i] {
      assert EscapeCsv(vs[i]) == EscapeText(CellText(vs[i]));
    }
  }

  /** Escaped texts joined by commas read back as the texts. */
  lemma {:induction false} TextRecordRoundTrip(fs: seq<string>, tail: string)
    requires fs != []
    requires tail == [] || tail[0] == '\n'
    ensures ReadRecord(Join(EscapeTexts(fs), ",") + tail) == (fs, tail)
  {
    var es := EscapeTexts(fs);
    if |fs| == 1 {
      assert Join(es, ",") == EscapeText(fs[0]);
      TextRoundTrip(fs[0], tail);
      assert fs == [fs[0]];
    } else {
      var rest := Join(EscapeTexts(fs[1..]), ",") + tail;
      assert es[1..] == EscapeTexts(fs[1..]);
      assert Join(es, ",") + tail == EscapeText(fs[0]) + ("," + rest);
      TextRoundTrip(fs[0], "," + rest);
      assert ("," + rest)[1..] == rest;
      TextRecordRoundTrip(fs[1..], tail);
      assert fs == [fs[0]] + fs[1..];
    }
  }

  function EncodeRecords(records: seq<seq<Value>>): (r: seq<string>)
    ensures |r| == |records| && forall i | 0 <= i < |records| :: r[i] == EncodeRecord(records[i])
  {
    if records == [] then [] else [EncodeRecord(records[0])] + EncodeRecords(records[1..])
  }

  function AllTexts(records: seq<seq<Value>>): (r: seq<seq<string>>)
    ensures |r| == |records| && forall i | 0 <= i < |records| :: r[i] == Texts(records[i])
  {
    if records == [] then [] else [Texts(records[0])] + AllTexts(records[1..])
  }

  /** A document of non-empty records, joined by line breaks, reads back record
      by record and cell by cell. */
  lemma {:induction false} DocumentRoundTrip(records: seq<seq<Value>>)
    requires records != []
    requires forall i | 0 <= i < |records| :: records[i] != []
    ensures ReadDocument(Join(EncodeRecords(records), "\n")) == AllTexts(records)
  {
    var fss := AllTexts(records);
    var a, b := EncodeRecords(records), TextLines(fss);
    forall i | 0 <= i < |records| ensures a[i] == b[i] {
      EscapeAllTexts(records[i]);
    }
    assert a == b;
    TextDocumentRoundTrip(fss);
  }

  /** Each record's texts escaped and joined by commas. */
  function TextLines(fss: seq<seq<string>>): (r: seq<string>)
    ensures |r| == |fss| && forall i | 0 <= i < |fss| :: r[i] == Join(EscapeTexts(fss[i]), ",")
  {
    if fss == [] then [] else [Join(EscapeTexts(fss[0]), ",")] + TextLines(fss[1..])
  }

  lemma {:induction false} TextDocumentRoundTrip(fss: seq<seq<string>>)
    requires fss != []
    requires forall i | 0 <= i < |fss| :: fss[i] != []
    ensures ReadDocument(Join(TextLines(fss), "\n")) == fss
  {
    var lines := TextLines(fss);
    if |fss| == 1 {
      assert Join(lines, "\n") == lines[0] + [];
      TextRecordRoundTrip(fss[0], []);
      assert fss == [fss[0]];
    } else {
      var rest := Join(TextLines(fss[1..]), "\n");
      assert lines[1..] == TextLines(fss[1..]);
      assert Join(lines, "\n") == lines[0] + ("\n" + rest);
      TextRecordRoundTrip(fss[0], "\n" + rest);
      assert ("\n" + rest)[1..] == rest;
      assert forall i | 0 <= i < |fss[1..]| :: fss[1..][i] == fss[i + 1];
      TextDocumentRoundTrip(fss[1..]);
      assert fss == [fss[0]] + fss[1..];
    }
  }

  // ---------------------------------------------------------------------
  // The CSV export, `downloadCSV` without the download itself

  const Headers: seq<string> := ["Date", "Description", "Category", "Amount", "Currency", "Source", "ID"]

  /** Texts as string cells. */
  function StrCells(ss: seq<string>): (r: seq<Value>)
    ensures |r| == |ss| && forall i | 0 <= i < |ss| :: r[i] == Str(ss[i])
  {
    if ss == [] then [] else [Str(ss[0])] + StrCells(ss[1..])
  }

  lemma {:induction false} StrCellsTexts(ss: seq<string>)
    ensures Texts(StrCells(ss)) == ss
  {
    var r := Texts(StrCells(ss));
    forall i | 0 <= i < |ss| ensures r[i] == ss[i] {
      assert StrCells(ss)[i] == Str(ss[i]);
    }
  }

  const CategoryCodes: seq<string> :=
    ["FOOD", "TRANSPORT", "SHOPPING", "UTILITIES", "ENTERTAINMENT", "HEALTH", "OTHER"]

  /** `(CATEGORY_MAP[code] || CATEGORY_MAP.OTHER).label`, for the property key
      `code`. */
  function CategoryLabel(code: string): (r: string)
    ensures code !in CategoryCodes ==> r == "Misc"
    ensures code == "OTHER" ==> r == "Misc"
  {
    if code == "FOOD" then "Food"
    else if code == "TRANSPORT" then "Transport"
    else if code == "SHOPPING" then "Shopping"
    else if code == "UTILITIES" then "Utilities"
    else if code == "ENTERTAINMENT" then "Movies"
    else if code == "HEALTH" then "Health"
    else "Misc"
  }

  const Epoch := "1970-01-01"
  const InvalidTime := "Invalid time value"
  const GeneralTransaction := "General Transaction"

  /** `new Date(v).toISOString().slice(0, 10)`, or None where `toISOString`
      throws. A date-only `YYYY-MM-DD` string is read as that day in UTC; null
      and the booleans are instants on the first day of 1970; undefined is no
      date. Every other value (numbers, strings of other formats) is read as
      the engine's date parsing reads it, `parseOther`. */
  function IsoDate(v: Value, parseOther: Value -> Option<string>): (r: Option<string>)
    ensures v.Str? && IsCalendarDate(v.s) ==> r == Some(v.s)
    ensures v.Null? ==> r == Some(Epoch)
    ensures v.Undefined? ==> r == None
  {
    match v
    case Undefined => None
    case Null => Some(Epoch)
    case Bool(_) => Some(Epoch)
    case Str(s) => if IsCalendarDate(s) then Some(s) else parseOther(v)
    case _ => parseOther(v)
  }

  /** `t.description || 'General Transaction'`. */
  function Description(t: Txn): Value
  {
    if Truthy(Get(t, "description")) then Get(t, "description") else Str(GeneralTransaction)
  }

  /** The seven cells of the CSV line of a transaction whose date reads as `date`. */
  function RowCells(t: Txn, date: string): (r: seq<Value>)
    ensures |r| == 7
  {
    [Str(date), Description(t), Str(CategoryLabel(JsString(Get(t, "category_code")))),
     Get(t, "amount"), Get(t, "currency"), Get(t, "source"), Get(t, "id")]
  }

  /** The description as the file shows it. */
  function DescriptionText(t: Txn): string
  {
    if Truthy(Get(t, "description")) then JsString(Get(t, "description")) else GeneralTransaction
  }

  /** The seven texts of the line of a transaction. */
  function RowTexts(t: Txn, date: string): seq<string>
  {
    [date, DescriptionText(t), CategoryLabel(JsString(Get(t, "category_code"))),
     CellText(Get(t, "amount")), CellText(Get(t, "currency")), CellText(Get(t, "source")), CellText(Get(t, "id"))]
  }

  lemma {:induction false} RowCellsTexts(t: Txn, date: string)
    ensures Texts(RowCells(t, date)) == RowTexts(t, date)
  {
    var caption := CategoryLabel(JsString(Get(t, "category_code")));
    Texts7(RowCells(t, date));
    assert CellText(Str(date)) == date;
    assert CellText(Description(t)) == DescriptionText(t);
    assert CellText(Str(caption)) == caption;
  }

  lemma {:induction false} Texts7(cs: seq<Value>)
    requires |cs| == 7
    ensures Texts(cs) == [CellText(cs[0]), CellText(cs[1]), CellText(cs[2]), CellText(cs[3]),
                          CellText(cs[4]), CellText(cs[5]), CellText(cs[6])]
  {
  }

  function TxnDate(t: Txn, parseOther: Value -> Option<string>): Option<string>
  {
    IsoDate(Get(t, "transaction_date"), parseOther)
  }

  /** `transactions.map(...)`: the cells of every line, or the RangeError of
      the first transaction whose date is no time value. */
  function Rows(txns: seq<Txn>, parseOther: Value -> Option<string>): (r: Result<seq<seq<Value>>>)
    ensures r.Ok? <==> forall i | 0 <= i < |txns| :: TxnDate(txns[i], parseOther).Some?
    ensures r.Err? ==> r.msg == InvalidTime
    ensures r.Ok? ==> |r.value| == |txns| &&
                      forall i | 0 <= i < |txns| ::
                        r.value[i] == RowCells(txns[i], TxnDate(txns[i], parseOther).value)
  {
    if txns == [] then Ok([])
    else
      match TxnDate(txns[0], parseOther)
      case None => Err(InvalidTime)
      case Some(d) =>
        match Rows(txns[1..], parseOther)
        case Err(m) =>
          assert forall i | 1 <= i < |txns| :: txns[i] == txns[1..][i - 1];
          Err(m)
        case Ok(rest) => Ok([RowCells(txns[0], d)] + rest)
  }

  /** The CSV text `downloadCSV` hands to the download, or None when it returns
      early (loading, or no transactions). */
  function DownloadCsv(txns: seq<Txn>, loading: bool, parseOther: Value -> Option<string>): (r: Result<Option<string>>)
    ensures loading || txns == [] ==> r == Ok(None)
    ensures !loading && txns != [] ==>
              (r.Err? <==> exists i | 0 <= i < |txns| :: TxnDate(txns[i], parseOther).None?)
    ensures r.Err? ==> r.msg == InvalidTime
    ensures r.Ok? ==> (r.value.Some? <==> !loading && txns != [])
  {
    if loading || txns == [] then Ok(None)
    else
      match Rows(txns, parseOther)
      case Err(m) => Err(m)
      case Ok(rows) => Ok(Some(Join(EncodeRecords([StrCells(Headers)] + rows), "\n")))
  }

  /** The layout of the exported file: read back as CSV it is the header
      record and then, in order, one record per transaction with the seven
      texts of `RowTexts`: the date, the description (or 'General
      Transaction'), the category label and the raw amount, currency, source
      and id. */
  lemma {:induction false} CsvLayout(txns: seq<Txn>, loading: bool, parseOther: Value -> Option<string>)
    requires DownloadCsv(txns, loading, parseOther).Ok?
    requires DownloadCsv(txns, loading, parseOther).value.Some?
    ensures var doc := ReadDocument(DownloadCsv(txns, loading, parseOther).value.value);
            && |doc| == |txns| + 1
            && doc[0] == Headers
            && forall i | 0 <= i < |txns| :: doc[i + 1] == RowTexts(txns[i], TxnDate(txns[i], parseOther).value)
  {
    var rows := Rows(txns, parseOther).value;
    var doc := ReadDocument(DownloadCsv(txns, loading, parseOther).value.value);
    CsvRecords(txns, loading, parseOther);
    assert doc[0] == Texts(StrCells(Headers));
    StrCellsTexts(Headers);
    forall i | 0 <= i < |txns|
      ensures doc[i + 1] == RowTexts(txns[i], TxnDate(txns[i], parseOther).value)
    {
      LineLayout(txns, parseOther, rows, i);
    }
  }

  /** The file reads back as the texts of the header record and the rows. */
  lemma {:induction false} CsvRecords(txns: seq<Txn>, loading: bool, parseOther: Value -> Option<string>)
    requires DownloadCsv(txns, loading, parseOther).Ok?
    requires DownloadCsv(txns, loading, parseOther).value.Some?
    ensures Rows(txns, parseOther).Ok?
    ensures ReadDocument(DownloadCsv(txns, loading, parseOther).value.value)
            == AllTexts([StrCells(Headers)] + Rows(txns, parseOther).value)
  {
    var rows := Rows(txns, parseOther).value;
    var records := [StrCells(Headers)] + rows;
    assert DownloadCsv(txns, loading, parseOther) == Ok(Some(Join(EncodeRecords(records), "\n")));
    RecordsNonEmpty(StrCells(Headers), rows);
    DocumentRoundTrip(records);
  }

  lemma {:induction false} RecordsNonEmpty(header: seq<Value>, rows: seq<seq<Value>>)
    requires header != [] && forall i | 0 <= i < |rows| :: |rows[i]| == 7
    ensures forall i | 0 <= i < |[header] + rows| :: ([header] + rows)[i] != []
  {
    var records := [header] + rows;
    forall i | 0 <= i < |records| ensures records[i] != [] {
      if i > 0 { assert records[i] == rows[i - 1]; }
    }
  }

  /** The record behind the header that stands for transaction `i`. */
  lemma {:induction false} LineLayout(txns: seq<Txn>, parseOther: Value -> Option<string>, rows: seq<seq<Value>>, i: nat)
    requires Rows(txns, parseOther) == Ok(rows) && i < |txns|
    ensures TxnDate(txns[i], parseOther).Some?
    ensures AllTexts([StrCells(Headers)] + rows)[i + 1] == RowTexts(txns[i], TxnDate(txns[i], parseOther).value)
  {
    var date := TxnDate(txns[i], parseOther).value;
    assert rows[i] == RowCells(txns[i], date);
    TextsBehindHeader(StrCells(Headers), rows, i);
    RowCellsTexts(txns[i], date);
  }

  lemma {:induction false} TextsBehindHeader(header: seq<Value>, rows: seq<seq<Value>>, i: nat)
    requires i < |rows|
    ensures AllTexts([header] + rows)[i + 1] == Texts(rows[i])
  {
    assert ([header] + rows)[i + 1] == rows[i];
  }

  /** Every line has seven fields; a transaction without a truthy description
      shows 'General Transaction' and one whose code has no entry in the
      category table shows the label of OTHER. */
  lemma {:induction false} RowTextsColumns(t: Txn, date: string)
    ensures |RowTexts(t, date)| == 7
    ensures !Truthy(Get(t, "description")) ==> RowTexts(t, date)[1] == GeneralTransaction
    ensures JsString(Get(t, "category_code")) !in CategoryCodes ==> RowTexts(t, date)[2] == CategoryLabel("OTHER")
  {
  }

  // ---------------------------------------------------------------------
  // The most frequent category, `mainCategoryLabel`

  function CodeEntries(txns: seq<Txn>): (items: seq<Entry<Value>>)
    ensures |items| == |txns| && forall i | 0 <= i < |txns| :: items[i] == Entry(CodeKey(txns[i]), 1.0)
  {
    if txns == [] then []
    else CodeEntries(txns[..|txns| - 1]) + [Entry(CodeKey(txns[|txns| - 1]), 1.0)]
  }

  /** The map `freq` after the first loop, in its insertion order. */
  function Frequencies(txns: seq<Txn>): seq<Entry<Value>>
  {
    Grouped(CodeEntries(txns))
  }

  /** The number of transactions counted under `k`. */
  function Occurrences(txns: seq<Txn>, k: Value): nat
  {
    if txns == [] then 0
    else Occurrences(txns[..|txns| - 1], k) + (if CodeKey(txns[|txns| - 1]) == k then 1 else 0)
  }

  lemma {:induction false} OccurrencesTotal(txns: seq<Txn>, k: Value)
    ensures Total(CodeEntries(txns), k) == Occurrences(txns, k) as real
    ensures Occurrences(txns, k) > 0 <==> exists i | 0 <= i < |txns| :: CodeKey(txns[i]) == k
  {
    OccurrencesAsTotal(txns, k);
    OccurrencesPositive(txns, k);
  }

  lemma {:induction false} OccurrencesAsTotal(txns: seq<Txn>, k: Value)
    ensures Total(CodeEntries(txns), k) == Occurrences(txns, k) as real
  {
    if txns != [] {
      var init := txns[..|txns| - 1];
      assert CodeEntries(txns)[..|txns| - 1] == CodeEntries(init);
      OccurrencesAsTotal(init, k);
    }
  }

  lemma {:induction false} OccurrencesPositive(txns: seq<Txn>, k: Value)
    ensures Occurrences(txns, k) > 0 <==> exists i | 0 <= i < |txns| :: CodeKey(txns[i]) == k
  {
    if txns != [] {
      var init := txns[..|txns| - 1];
      OccurrencesPositive(init, k);
      if i :| 0 <= i < |txns| && CodeKey(txns[i]) == k {
        if i < |init| { assert init[i] == txns[i]; }
      }
      if Occurrences(init, k) > 0 {
        var i :| 0 <= i < |init| && CodeKey(init[i]) == k;
        assert txns[i] == init[i];
      }
    }
  }

  /** The frequency map holds one entry per key that occurs, in order of first
      occurrence, and each entry counts the transactions under its key. */
  lemma {:induction false} FrequenciesCount(txns: seq<Txn>)
    ensures Distinct(KeysOf(Frequencies(txns)))
    ensures KeysOf(Frequencies(txns)) == Dedup(KeysOf(CodeEntries(txns)))
    ensures forall k :: k in KeysOf(Frequencies(txns)) <==> exists i | 0 <= i < |txns| :: CodeKey(txns[i]) == k
    ensures forall i | 0 <= i < |Frequencies(txns)| ::
              && Frequencies(txns)[i].amount == Occurrences(txns, Frequencies(txns)[i].key) as real
              && Occurrences(txns, Frequencies(txns)[i].key) > 0
    ensures txns != [] ==> |Frequencies(txns)| > 0
  {
    FrequencyKeys(txns);
    FrequencyCounts(txns);
    if txns != [] {
      FrequenciesNonEmpty(txns);
    }
  }

  lemma {:induction false} FrequencyKeys(txns: seq<Txn>)
    ensures Distinct(KeysOf(Frequencies(txns)))
    ensures KeysOf(Frequencies(txns)) == Dedup(KeysOf(CodeEntries(txns)))
    ensures forall k :: k in KeysOf(Frequencies(txns)) <==> exists i | 0 <= i < |txns| :: CodeKey(txns[i]) == k
  {
    var items := CodeEntries(txns);
    GroupedFacts(items);
    KeysOfGrouped(items);
    FrequencyKeysOccur(txns);
  }

  lemma {:induction false} FrequencyKeysOccur(txns: seq<Txn>)
    ensures forall k :: k in KeysOf(Frequencies(txns)) <==> exists i | 0 <= i < |txns| :: CodeKey(txns[i]) == k
  {
    var items := CodeEntries(txns);
    GroupedFacts(items);
    KeysOfCodeEntries(txns);
    forall k ensures k in KeysOf(Grouped(items)) <==> exists i | 0 <= i < |txns| :: CodeKey(txns[i]) == k {
      assert k in KeysOf(Grouped(items)) <==> k in KeysOf(items);
    }
  }

  lemma {:induction false} FrequencyCounts(txns: seq<Txn>)
    ensures forall i | 0 <= i < |Frequencies(txns)| ::
              && Frequencies(txns)[i].amount == Occurrences(txns, Frequencies(txns)[i].key) as real
              && Occurrences(txns, Frequencies(txns)[i].key) > 0
  {
    var freq := Frequencies(txns);
    forall i | 0 <= i < |freq|
      ensures freq[i].amount == Occurrences(txns, freq[i].key) as real && Occurrences(txns, freq[i].key) > 0
    {
      FrequencyEntry(txns, i);
    }
  }

  lemma {:induction false} FrequenciesNonEmpty(txns: seq<Txn>)
    requires txns != []
    ensures |Frequencies(txns)| > 0
  {
    var items := CodeEntries(txns);
    GroupedFacts(items);
    assert KeysOf(items)[0] == CodeKey(txns[0]);
    assert CodeKey(txns[0]) in KeysOf(Frequencies(txns));
  }

  lemma {:induction false} FrequencyEntry(txns: seq<Txn>, i: nat)
    requires i < |Frequencies(txns)|
    ensures var e := Frequencies(txns)[i];
            e.amount == Occurrences(txns, e.key) as real && Occurrences(txns, e.key) > 0
  {
    var items := CodeEntries(txns);
    var freq := Frequencies(txns);
    GroupedFacts(items);
    assert KeysOf(freq)[i] == freq[i].key;
    assert freq[i].key in KeysOf(items);
    OccurrencesTotal(txns, freq[i].key);
  }

  lemma {:induction false} KeysOfCodeEntries(txns: seq<Txn>)
    ensures forall k :: k in KeysOf(CodeEntries(txns)) <==> exists i | 0 <= i < |txns| :: CodeKey(txns[i]) == k
  {
    var items := CodeEntries(txns);
    forall k ensures k in KeysOf(items) <==> exists i | 0 <= i < |txns| :: CodeKey(txns[i]) == k {
      if k in KeysOf(items) {
        var i :| 0 <= i < |items| && KeysOf(items)[i] == k;
        assert CodeKey(txns[i]) == k;
      }
      if i :| 0 <= i < |txns| && CodeKey(txns[i]) == k {
        assert KeysOf(items)[i] == k;
      }
    }
  }

  /** `mainCategoryLabel`: 'N/A' without transactions; otherwise the label of
      a key with the highest count, the first such key in the map's order when
      several tie (the comparison is strict). */
  method MainCategoryLabel(txns: seq<Txn>) returns (caption: string)
    ensures txns == [] ==> caption == "N/A"
    ensures txns != [] ==>
              exists b | 0 <= b < |Frequencies(txns)| ::
                && caption == CategoryLabel(JsString(Frequencies(txns)[b].key))
                && (forall j | 0 <= j < |Frequencies(txns)| :: Frequencies(txns)[j].amount <= Frequencies(txns)[b].amount)
                && (forall j | 0 <= j < b :: Frequencies(txns)[j].amount < Frequencies(txns)[b].amount)
  {
    if txns == [] {
      return "N/A";
    }
    var freq := GroupSum(CodeEntries(txns));
    FrequenciesNonEmpty(txns);
    FrequencyCounts(txns);
    assert freq[0].amount > 0.0;
    var bestKey := BestKey(freq);
    caption := CategoryLabel(JsString(bestKey));
  }

  /** The second loop of `mainCategoryLabel`: the key of the first entry with
      the highest count, or 'OTHER' when no count exceeds 0. */
  method BestKey(freq: seq<Entry<Value>>) returns (bestKey: Value)
    ensures (forall j | 0 <= j < |freq| :: freq[j].amount <= 0.0) ==> bestKey == Str("OTHER")
    ensures (exists j | 0 <= j < |freq| :: freq[j].amount > 0.0) ==>
              exists b | 0 <= b < |freq| ::
                && bestKey == freq[b].key
                && (forall j | 0 <= j < |freq| :: freq[j].amount <= freq[b].amount)
                && (forall j | 0 <= j < b :: freq[j].amount < freq[b].amount)
  {
    bestKey := Str("OTHER");
    var bestCount := 0.0;
    ghost var b := 0;
    var j := 0;
    while j < |freq|
      invariant 0 <= j <= |freq|
      invariant bestCount >= 0.0
      invariant bestCount == 0.0 ==> bestKey == Str("OTHER")
      invariant forall k | 0 <= k < j :: freq[k].amount <= bestCount
      invariant bestCount > 0.0 ==>
                  && 0 <= b < j && bestKey == freq[b].key && bestCount == freq[b].amount
                  && forall k | 0 <= k < b :: freq[k].amount < bestCount
    {
      if freq[j].amount > bestCount {
        bestKey := freq[j].key;
        bestCount := freq[j].amount;
        b := j;
      }
      j := j + 1;
    }
  }

  // ---------------------------------------------------------------------
  // The month's total, `totalSpent`

  /** `String.prototype.trim`. */
  function TrimStart(s: string): (r: string)
    ensures |r| <= |s|
  {
    if s != [] && IsJsWhitespace(s[0]) then TrimStart(s[1..]) else s
  }

  function TrimEnd(s: string): (r: string)
    ensures |r| <= |s|
  {
    if s != [] && IsJsWhitespace(s[|s| - 1]) then TrimEnd(s[..|s| - 1]) else s
  }

  /** Index of the first '.' of `s`, or `|s|` when there is none. */
  function DotIndex(s: string): (i: nat)
    ensures i <= |s| && (i < |s| ==> s[i] == '.')
    ensures forall j | 0 <= j < i :: s[j] != '.'
  {
    if s == [] || s[0] == '.' then 0 else 1 + DotIndex(s[1..])
  }

  /** An unsigned decimal literal, `digits`, `digits.digits`, `digits.` or
      `.digits`. */
  function UnsignedDecimal(s: string): Option<real>
  {
    var k := DotIndex(s);
    var whole := s[..k];
    var frac := if k < |s| then s[k + 1..] else "";
    if AllDigits(whole) && AllDigits(frac) && |whole| + |frac| > 0 then
      Some(DigitsValue(whole) as real + DigitsValue(frac) as real / Pow10(|frac|) as real)
    else None
  }

  /** `Number(s)` for a string: white space around the literal is ignored and
      a blank string is 0. None stands for NaN. */
  function StringToNumber(s: string): Option<real>
  {
    var t := TrimEnd(TrimStart(s));
    if t == [] then Some(0.0)
    else if t[0] == '-' then
      match UnsignedDecimal(t[1..])
      case Some(x) => Some(-x)
      case None => None
    else if t[0] == '+' then UnsignedDecimal(t[1..])
    else UnsignedDecimal(t)
  }

  /** `Number(v)`; None stands for NaN. An array is read through its text and
      a plain object is NaN. */
  function JsNumber(v: Value): Option<real>
  {
    match v
    case Undefined => None
    case Null => Some(0.0)
    case Bool(b) => Some(if b then 1.0 else 0.0)
    case Num(x) => Some(x)
    case Str(s) => StringToNumber(s)
    case Arr(_) => StringToNumber(JsString(v))
    case Obj(_) => None
  }

  /** `Number(v) || 0`: NaN counts as 0. */
  function AmountOrZero(v: Value): real
  {
    match JsNumber(v)
    case Some(x) => x
    case None => 0.0
  }

  function CountedAmounts(txns: seq<Txn>): (xs: seq<real>)
    ensures |xs| == |txns| && forall i | 0 <= i < |txns| :: xs[i] == AmountOrZero(Get(txns[i], "amount"))
  {
    if txns == [] then [] else [AmountOrZero(Get(txns[0], "amount"))] + CountedAmounts(txns[1..])
  }

  /** `totalSpent`: the reduce from 0 over `Number(amount) || 0`. */
  function TotalSpent(txns: seq<Txn>): real
  {
    Sum(CountedAmounts(txns))
  }

  /** A decimal numeral counts with its value. */
  lemma {:induction false} NumeralCounts(n: nat)
    ensures AmountOrZero(Str(NatToString(n))) == n as real
  {
    var s := NatToString(n);
    assert !IsJsWhitespace(s[0]) && !IsJsWhitespace(s[|s| - 1]);
    assert TrimStart(s) == s;
    assert TrimEnd(s) == s;
    assert s[0] != '-' && s[0] != '+';
    assert StringToNumber(s) == UnsignedDecimal(s);
    assert DotIndex(s) == |s|;
    assert s[..|s|] == s;
    assert DigitsValue("") == 0 && Pow10(0) == 1;
    NatToStringRoundTrip(n);
    assert UnsignedDecimal(s) == Some(n as real);
  }

  /** `Number(String(x))` is `x` for every number written as a plain
      decimal whose expansion ends within 20 fractional digits: an amount
      exported to the CSV reads back as that amount. */
  lemma {:induction false} NumberTextReadsBack(x: real)
    requires x == 0.0 || Tenth(6) <= Abs(x) < Pow10(21) as real
    requires IsWhole(Scaled(Abs(x), 20))
    ensures StringToNumber(NumberText(x)) == Some(x)
  {
    var a := Abs(x);
    var p := PlainText(a);
    NumberTextOfPlain(x);
    PlainTextReadsBack(a);
    PlainTextStart(a);
    if x < 0.0 {
      assert NumberText(x) == "-" + p;
      NegativeNumeral(p);
    } else {
      assert NumberText(x) == p && x == a;
      PositiveNumeral(p);
    }
  }

  /** `Number` of a text of digits and points read without its sign. */
  lemma {:induction false} PositiveNumeral(p: string)
    requires p != [] && IsDigit(p[0]) && forall i | 0 <= i < |p| :: IsDigit(p[i]) || p[i] == '.'
    ensures StringToNumber(p) == UnsignedDecimal(p)
  {
    Untrimmed(p);
  }

  /** `Number` of a minus sign before a text of digits and points. */
  lemma {:induction false} NegativeNumeral(p: string)
    requires p != [] && forall i | 0 <= i < |p| :: IsDigit(p[i]) || p[i] == '.'
    ensures UnsignedDecimal(p).Some? ==> StringToNumber("-" + p) == Some(-UnsignedDecimal(p).value)
  {
    var s := "-" + p;
    assert s[0] == '-' && s[|s| - 1] == p[|p| - 1];
    Untrimmed(s);
    assert s[1..] == p;
    var t := TrimEnd(TrimStart(s));
    assert t == s && t != [] && t[0] == '-';
    assert StringToNumber(s) == match UnsignedDecimal(p) case Some(x) => Some(-x) case None => None;
  }

  /** A text that neither starts nor ends with white space is its own trim. */
  lemma {:induction false} Untrimmed(s: string)
    requires s != [] && !IsJsWhitespace(s[0]) && !IsJsWhitespace(s[|s| - 1])
    ensures TrimEnd(TrimStart(s)) == s
  {
  }

  /** The plain decimal text starts with a digit. */
  lemma {:induction false} PlainTextStart(a: real)
    requires a >= 0.0
    ensures PlainText(a) != [] && IsDigit(PlainText(a)[0])
  {
    assert PlainText(a)[0] == NatToString(a.Floor as nat)[0];
  }

  /** The plain decimal text of a magnitude whose expansion ends within 20
      fractional digits reads back as that magnitude. */
  lemma {:induction false} PlainTextReadsBack(a: real)
    requires a >= 0.0 && IsWhole(Scaled(a, 20))
    ensures UnsignedDecimal(PlainText(a)) == Some(a)
  {
    var n := a.Floor;
    PlainTextParts(a);
    if a == n as real {
      NatToStringRoundTrip(n as nat);
      WholeDecimal(NatToString(n as nat));
    } else {
      PointTextReadsBack(a, 20);
    }
  }

  /** The two shapes of the plain decimal text. */
  lemma {:induction false} PlainTextParts(a: real)
    requires a >= 0.0
    ensures var n := a.Floor;
      PlainText(a) == if a == n as real then NatToString(n as nat)
                      else NatToString(n as nat) + "." + FractionDigits(a - n as real, 20)
  {
  }

  /** The whole digits, a point and the first `k` fractional digits of a
      magnitude whose expansion ends within `k` places read back as it. */
  lemma {:induction false} PointTextReadsBack(a: real, k: nat)
    requires a >= 0.0 && IsWhole(Scaled(a, k))
    ensures var n := a.Floor;
      UnsignedDecimal(NatToString(n as nat) + "." + FractionDigits(a - n as real, k)) == Some(a)
  {
    var n := a.Floor;
    var w := NatToString(n as nat);
    FloorBounds(a);
    NatToStringRoundTrip(n as nat);
    FractionPartValue(a, k);
    PointDecimal(w, FractionDigits(a - n as real, k));
  }

  /** The first `k` fractional digits of a magnitude whose expansion ends
      within `k` places denote its fractional part. */
  lemma {:induction false} FractionPartValue(a: real, k: nat)
    requires a >= 0.0 && IsWhole(Scaled(a, k))
    ensures var n := a.Floor;
      var fd := FractionDigits(a - n as real, k);
      DigitsValue(fd) as real / Pow10(|fd|) as real == a - n as real
  {
    var n := a.Floor;
    var f := a - n as real;
    FloorBounds(a);
    FractionPartWhole(a, k);
    FractionDigitsValue(f, k, k);
    DigitsOverPower(f, FractionDigits(f, k));
  }

  /** Digits that are `f` scaled by 10 to their count, divided by that power, are `f`. */
  lemma {:induction false} DigitsOverPower(f: real, fd: string)
    requires AllDigits(fd) && DigitsValue(fd) as real == Scaled(f, |fd|)
    ensures DigitsValue(fd) as real / Pow10(|fd|) as real == f
  {
    ScaledIsProduct(f, |fd|);
    DivBack(DigitsValue(fd) as real, f, Pow10(|fd|) as real);
  }

  /** The fractional part still ends within `k` places. */
  lemma {:induction false} FractionPartWhole(a: real, k: nat)
    requires IsWhole(Scaled(a, k))
    ensures IsWhole(Scaled(a - a.Floor as real, k))
  {
    var n := a.Floor;
    ScaledSub(a, n as real, k);
    ScaledInt(n, k);
    WholeMinusInt(Scaled(a, k), n * Pow10(k));
  }

  /** A string of digits reads as their value. */
  lemma {:induction false} WholeDecimal(w: string)
    requires w != [] && AllDigits(w)
    ensures UnsignedDecimal(w) == Some(DigitsValue(w) as real)
  {
    assert w[..|w|] == w;
    assert DigitsValue("") == 0 && Pow10(0) == 1;
  }

  /** Digits, a point and digits read as the whole part plus the fraction. */
  lemma {:induction false} PointDecimal(w: string, fd: string)
    requires w != [] && AllDigits(w) && AllDigits(fd)
    ensures UnsignedDecimal(w + "." + fd) == Some(DigitsValue(w) as real + DigitsValue(fd) as real / Pow10(|fd|) as real)
  {
    var s := w + "." + fd;
    assert s[|w|] == '.';
    assert forall j | 0 <= j < |w| :: s[j] == w[j];
    assert DotIndex(s) == |w|;
    assert s[..|w|] == w && s[|w| + 1..] == fd;
  }

  lemma {:induction false} DivBack(v: real, y: real, p: real)
    requires p > 0.0 && v == y * p
    ensures v / p == y
  {
  }

  /** With every amount a number, the total is the plain sum of the amounts. */
  lemma {:induction false} TotalSpentOfNumbers(txns: seq<Txn>, xs: seq<real>)
    requires |xs| == |txns| && forall i | 0 <= i < |txns| :: Get(txns[i], "amount") == Num(xs[i])
    ensures TotalSpent(txns) == Sum(xs)
  {
    assert CountedAmounts(txns) == xs;
  }

  /** The total of two lists of transactions is the sum of their totals. */
  lemma {:induction false} TotalSpentConcat(a: seq<Txn>, b: seq<Txn>)
    ensures TotalSpent(a + b) == TotalSpent(a) + TotalSpent(b)
  {
    var ca, cb := CountedAmounts(a), CountedAmounts(b);
    forall i | 0 <= i < |a + b| ensures CountedAmounts(a + b)[i] == (ca + cb)[i] {
      if i < |a| {
        assert (a + b)[i] == a[i];
      } else {
        assert (a + b)[i] == b[i - |a|];
      }
    }
    assert CountedAmounts(a + b) == ca + cb;
    SumConcat(ca, cb);
  }

  /** A transaction whose amount is not a number adds nothing. */
  lemma {:induction false} NonNumericCountsZero(txns: seq<Txn>, t: Txn)
    requires JsNumber(Get(t, "amount")).None?
    ensures TotalSpent(txns + [t]) == TotalSpent(txns)
  {
    TotalSpentConcat(txns, [t]);
    assert CountedAmounts([t]) == [0.0];
    assert Sum([0.0]) == Sum([]) + 0.0;
  }

  // ---------------------------------------------------------------------
  // The selectable years, `yearList`

  /** The loop `for (i = currentYear; i >= 2000; i--) years.push(i)`. */
  method YearList(currentYear: int) returns (years: seq<int>)
    ensures |years| == if currentYear >= 2000 then currentYear - 1999 else 0
    ensures forall k | 0 <= k < |years| :: years[k] == currentYear - k
    ensures forall y :: y in years <==> 2000 <= y <= currentYear
    ensures forall k | 0 <= k < |years| - 1 :: years[k] > years[k + 1]
  {
    years := [];
    var i := currentYear;
    while i >= 2000
      invariant i <= currentYear
      invariant i < 2000 ==> i == if currentYear >= 2000 then 1999 else currentYear
      invariant |years| == currentYear - i
      invariant forall k | 0 <= k < |years| :: years[k] == currentYear - k
      decreases i
    {
      years := years + [i];
      i := i - 1;
    }
    forall y ensures y in years <==> 2000 <= y <= currentYear {
      if 2000 <= y <= currentYear {
        assert years[currentYear - y] == y;
      }
    }
  }
}
