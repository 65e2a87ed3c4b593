/**
 The finance and sales report downloads. Both endpoints answer with a GZIP
 compressed tab-separated table. The body is inflated to text, a detailed
 finance report first loses its three preamble lines, the table is parsed
 with d3's `tsvParse`, and every column name is normalised to snake case.

 The TSV parser and the lodash `snakeCase(deburr(key))` normalisation are
 foreign and stay abstract (the `Dsv` parameter).
 */
module FinanceReports {
  import opened Seqs
  import opened Js
  import opened Api
  import opened Sanitizer
  import opened QueryString

  const Newline := '\n'

  // ---------------------------------------------------------------------
  // Dropping leading lines

  /** One round of `removeRows`: `s.slice(s.indexOf('\n') + 1)`. Without a
      line break `indexOf` gives -1 and the slice starts at 0. */
  function DropLine(s: string): string
  {
    s[IndexIn(s, Newline) + 1..]
  }

  /** `removeRows(s, n)`: `n` rounds of `DropLine`. */
  function RemoveRows(s: string, n: int): string
    decreases n
  {
    if n <= 0 then s else RemoveRows(DropLine(s), n - 1)
  }

  /** The lines of a text, as `s.split('\n')`. */
  function Lines(s: string): (ls: seq<string>)
    ensures |ls| >= 1
    decreases |s|
  {
    var i := IndexIn(s, Newline);
    if i < 0 then [s]
    else [s[..i]] + Lines(s[i + 1..])
  }

  /** The lines joined with line breaks, as `ls.join('\n')`. */
  function Unlines(ls: seq<string>): string
    requires |ls| >= 1
  {
    if |ls| == 1 then ls[0] else ls[0] + [Newline] + Unlines(ls[1..])
  }

  /** No line holds a line break. */
  lemma {:induction false} LinesHaveNoBreak(s: string)
    ensures forall i :: 0 <= i < |Lines(s)| ==> Newline !in Lines(s)[i]
    decreases |s|
  {
    var i := IndexIn(s, Newline);
    if i >= 0 {
      LinesHaveNoBreak(s[i + 1..]);
      assert Lines(s) == [s[..i]] + Lines(s[i + 1..]);
    }
  }

  /** Joining undoes splitting. */
  lemma {:induction false} LinesRoundTrip(s: string)
    ensures Unlines(Lines(s)) == s
    decreases |s|
  {
    var i := IndexIn(s, Newline);
    if i >= 0 {
      var t := s[i + 1..];
      LinesRoundTrip(t);
      LinesAtBreak(s);
      UnlinesCons(s[..i], Lines(t));
      SplitAtBreak(s, i);
    }
  }

  lemma LinesAtBreak(s: string)
    requires IndexIn(s, Newline) >= 0
    ensures Lines(s) == [s[..IndexIn(s, Newline)]] + Lines(s[IndexIn(s, Newline) + 1..])
  {
  }

  lemma UnlinesCons(line: string, ls: seq<string>)
    requires |ls| >= 1
    ensures Unlines([line] + ls) == line + [Newline] + Unlines(ls)
  {
    assert ([line] + ls)[1..] == ls;
  }

  lemma SplitAtBreak(s: string, i: int)
    requires 0 <= i < |s| && s[i] == Newline
    ensures s == s[..i] + [Newline] + s[i + 1..]
  {
    assert s[i..] == [Newline] + s[i + 1..];
    assert s == s[..i] + s[i..];
  }

  /** Splitting undoes joining, when no line holds a line break. */
  lemma {:induction false} UnlinesRoundTrip(ls: seq<string>)
    requires |ls| >= 1
    requires forall i :: 0 <= i < |ls| ==> Newline !in ls[i]
    ensures Lines(Unlines(ls)) == ls
  {
    var s := Unlines(ls);
    if |ls| == 1 {
      assert IndexIn(s, Newline) < 0;
    } else {
      var t := Unlines(ls[1..]);
      assert s == ls[0] + [Newline] + t;
      assert s[..|ls[0]|] == ls[0];
      assert s[|ls[0]|] == Newline;
      assert IndexIn(s, Newline) == |ls[0]|;
      assert s[|ls[0]| + 1..] == t;
      UnlinesRoundTrip(ls[1..]);
    }
  }

  /** A text has one more line than it has line breaks. */
  lemma {:induction false} CountLines(s: string)
    ensures Count(s, Newline) == |Lines(s)| - 1
    decreases |s|
  {
    var i := IndexIn(s, Newline);
    if i < 0 {
      CountAbsent(s, Newline);
    } else {
      assert s == s[..i] + ([Newline] + s[i + 1..]);
      CountAppend(s[..i], [Newline] + s[i + 1..], Newline);
      CountAppend([Newline], s[i + 1..], Newline);
      assert Count([Newline], Newline) == 1;
      CountAbsent(s[..i], Newline);
      CountLines(s[i + 1..]);
    }
  }

  lemma {:induction false} UnlinesSplit(ls: seq<string>, k: int)
    requires 1 <= k < |ls|
    ensures Unlines(ls) == Unlines(ls[..k]) + [Newline] + Unlines(ls[k..])
  {
    if k > 1 {
      UnlinesSplit(ls[1..], k - 1);
      assert ls[1..][..k - 1] == ls[..k][1..];
      assert ls[1..][k - 1..] == ls[k..];
    }
  }

  /** How many of `count` lines `removeRows(_, n)` drops: `n`, but never
      the last line. */
  function LinesDropped(n: int, count: nat): nat
    requires count >= 1
  {
    if n <= 0 then 0 else if n < count then n else count - 1
  }

  /** `removeRows(s, n)` is the text from line `n` on. When the text has
      fewer line breaks than `n`, only its last line is left. */
  lemma {:induction false} RemoveRowsDropsLines(s: string, n: int)
    ensures RemoveRows(s, n) == Unlines(Lines(s)[LinesDropped(n, |Lines(s)|)..])
    decreases n
  {
    var ls := Lines(s);
    if n <= 0 {
      LinesRoundTrip(s);
      assert ls[0..] == ls;
    } else {
      var t := DropLine(s);
      RemoveRowsDropsLines(t, n - 1);
      DropLineLines(s);
      if IndexIn(s, Newline) >= 0 {
        DroppedTail(s[..IndexIn(s, Newline)], ls, Lines(t), n);
      } else {
        assert LinesDropped(n, |ls|) == 0 == LinesDropped(n - 1, |ls|);
      }
    }
  }

  /** Dropping the first line shifts the count of lines still to drop. */
  lemma DroppedTail(first: string, ls: seq<string>, lt: seq<string>, n: int)
    requires n > 0 && |lt| >= 1
    requires ls == [first] + lt
    ensures ls[LinesDropped(n, |ls|)..] == lt[LinesDropped(n - 1, |lt|)..]
  {
    assert LinesDropped(n, |ls|) == LinesDropped(n - 1, |lt|) + 1;
  }

  /** One round of `removeRows` drops the first line, or nothing when
      there is a single line. */
  lemma DropLineLines(s: string)
    ensures IndexIn(s, Newline) < 0 ==> DropLine(s) == s && Lines(s) == [s]
    ensures IndexIn(s, Newline) >= 0 ==> Lines(s) == [s[..IndexIn(s, Newline)]] + Lines(DropLine(s))
  {
    if IndexIn(s, Newline) < 0 {
      assert s[0..] == s;
    }
  }

  /** What `removeRows` leaves is a suffix of its input. */
  lemma {:induction false} RemoveRowsSuffix(s: string, n: int)
    ensures n <= 0 ==> RemoveRows(s, n) == s
    ensures |RemoveRows(s, n)| <= |s|
    ensures s == s[..|s| - |RemoveRows(s, n)|] + RemoveRows(s, n)
  {
    var ls := Lines(s);
    var d := LinesDropped(n, |ls|);
    RemoveRowsDropsLines(s, n);
    LinesRoundTrip(s);
    var r := RemoveRows(s, n);
    if d == 0 {
      assert ls[0..] == ls;
      assert s[..0] == [];
    } else {
      UnlinesSplit(ls, d);
      var p := Unlines(ls[..d]) + [Newline];
      assert s == p + r;
      assert s[..|s| - |r|] == p;
    }
  }

  /** With at least `n` line breaks, `removeRows(s, n)` removes a prefix
      holding exactly `n` line breaks and ending with one. */
  lemma RemoveRowsAfterBreaks(s: string, n: int)
    requires 1 <= n <= Count(s, Newline)
    ensures |RemoveRows(s, n)| <= |s|
    ensures var r := RemoveRows(s, n);
            var p := s[..|s| - |r|];
            s == p + r && Count(p, Newline) == n && p[|p| - 1] == Newline
  {
    var ls := Lines(s);
    CountLines(s);
    LinesHaveNoBreak(s);
    RemoveRowsDropsLines(s, n);
    LinesRoundTrip(s);
    UnlinesSplit(ls, n);
    var r := RemoveRows(s, n);
    assert r == Unlines(ls[n..]);
    var head := Unlines(ls[..n]);
    assert s == (head + [Newline]) + r;
    assert s[..|s| - |r|] == head + [Newline];
    UnlinesRoundTrip(ls[..n]);
    CountLines(head);
    CountAppend(head, [Newline], Newline);
    assert Count([Newline], Newline) == 1;
  }

  /** Without a line break, `removeRows` changes nothing. */
  lemma {:induction false} RemoveRowsNoBreak(s: string, n: int)
    requires Newline !in s
    ensures RemoveRows(s, n) == s
  {
    RemoveRowsDropsLines(s, n);
    assert IndexIn(s, Newline) < 0;
    assert Lines(s) == [s];
  }

  /** Removing at least as many rows as there are line breaks leaves the
      last line. */
  lemma RemoveRowsKeepsLastLine(s: string, n: int)
    requires n >= Count(s, Newline)
    ensures RemoveRows(s, n) == Lines(s)[|Lines(s)| - 1]
  {
    var ls := Lines(s);
    CountLines(s);
    RemoveRowsDropsLines(s, n);
    var d := LinesDropped(n, |ls|);
    assert d == |ls| - 1;
    assert ls[d..] == [ls[d]];
  }

  // ---------------------------------------------------------------------
  // Renaming the columns

  /** The value of the last property of `row` whose renamed key is `k`. */
  function LastRenamedTo(row: seq<Field>, rename: string -> string, k: string): Option<Value>
  {
    if |row| == 0 then None
    else if rename(row[|row| - 1].key) == k then Some(row[|row| - 1].val)
    else LastRenamedTo(row[..|row| - 1], rename, k)
  }

  /** lodash `mapKeys(row, mapKey)`: each property is assigned, in order,
      under its renamed key. `mapKey(value, key)` ignores the value, so the
      renamed key is `rename(key)`. */
  function MapKeys(row: seq<Field>, rename: string -> string): seq<Field>
    decreases |row|
  {
    if |row| == 0 then []
    else Assign(MapKeys(row[..|row| - 1], rename), rename(row[|row| - 1].key), row[|row| - 1].val)
  }

  /** Two keys that rename alike share one entry, holding the value of the
      later one. */
  lemma {:induction false} MapKeysLookup(row: seq<Field>, rename: string -> string, k: string)
    ensures Lookup(MapKeys(row, rename), k) == LastRenamedTo(row, rename, k)
    decreases |row|
  {
    if |row| > 0 {
      MapKeysLookup(row[..|row| - 1], rename, k);
    }
  }

  /** Some property of `row` is renamed to `k` exactly when `k` has a
      last such property. */
  lemma {:induction false} LastRenamedToSome(row: seq<Field>, rename: string -> string, k: string)
    ensures LastRenamedTo(row, rename, k).Some? <==> exists j :: 0 <= j < |row| && rename(row[j].key) == k
    decreases |row|
  {
    if |row| > 0 {
      var init := row[..|row| - 1];
      LastRenamedToSome(init, rename, k);
      if exists j :: 0 <= j < |row| && rename(row[j].key) == k {
        var j :| 0 <= j < |row| && rename(row[j].key) == k;
        if j < |init| {
          assert init[j] == row[j];
        }
      }
    }
  }

  /** No key of the result occurs twice. */
  lemma {:induction false} MapKeysDistinct(row: seq<Field>, rename: string -> string)
    ensures DistinctKeys(MapKeys(row, rename))
    decreases |row|
  {
    if |row| > 0 {
      var init := row[..|row| - 1];
      MapKeysDistinct(init, rename);
      AssignDistinct(MapKeys(init, rename), rename(row[|row| - 1].key), row[|row| - 1].val);
    }
  }

  lemma AssignDistinct(fs: seq<Field>, k: string, v: Value)
    requires DistinctKeys(fs)
    ensures DistinctKeys(Assign(fs, k, v))
  {
    var r := Assign(fs, k, v);
    forall i, j | 0 <= i < j < |r|
      ensures r[i].key != r[j].key
    {
      assert Keys(r)[i] == r[i].key && Keys(r)[j] == r[j].key;
      assert Keys(fs)[..|fs|] == Keys(fs);
    }
  }

  /** When no two keys of a row rename alike, `mapKeys` renames each
      property in place. */
  lemma {:induction false} MapKeysPointwise(row: seq<Field>, rename: string -> string)
    requires forall i, j :: 0 <= i < j < |row| ==> rename(row[i].key) != rename(row[j].key)
    ensures MapKeys(row, rename) == Renamed(row, rename)
    decreases |row|
  {
    if |row| > 0 {
      var init := row[..|row| - 1];
      var k := rename(row[|row| - 1].key);
      MapKeysPointwise(init, rename);
      var prev := Renamed(init, rename);
      assert k !in Keys(prev) by {
        forall j | 0 <= j < |prev|
          ensures Keys(prev)[j] != k
        {
          assert init[j] == row[j];
        }
      }
      RenamedSnoc(row, rename);
    }
  }

  lemma RenamedSnoc(row: seq<Field>, rename: string -> string)
    requires |row| > 0
    ensures Renamed(row, rename)
         == Renamed(row[..|row| - 1], rename) + [Field(rename(row[|row| - 1].key), row[|row| - 1].val)]
  {
  }

  /** Every property renamed in place. */
  function Renamed(row: seq<Field>, rename: string -> string): (r: seq<Field>)
    ensures |r| == |row|
    ensures forall i :: 0 <= i < |row| ==> r[i] == Field(rename(row[i].key), row[i].val)
  {
    seq(|row|, i requires 0 <= i < |row| => Field(rename(row[i].key), row[i].val))
  }

  // ---------------------------------------------------------------------
  // Parsing the table

  /** What `tsvParse(text, autoType)` returns: the rows, each an object
      keyed by column name, and the header's column names. */
  datatype Table = Table(rows: seq<seq<Field>>, columns: seq<string>)

  /** The foreign table parser and the key normalisation
      `snakeCase(deburr(key))`. */
  datatype Dsv = Dsv(tsvParse: string -> Table, normalise: string -> string)

  /** The array `parseTsv` returns, with its two extra properties. */
  datatype RowArray = RowArray(rows: seq<seq<Field>>, columns: seq<string>, originalColumns: seq<string>)

  const FilterKey := "filter"
  const ReportTypeKey := "reportType"
  const FinanceDetail := "FINANCE_DETAIL"
  /** The preamble lines of a detailed finance report. */
  const PreambleRows := 3

  /** The query asks for a detailed finance report: its `filter` is an
      object whose `reportType` is `FINANCE_DETAIL`. */
  predicate DetailQuery(query: Value)
  {
    && query.Obj?
    && Property(query, FilterKey).Some?
    && Property(Property(query, FilterKey).value, ReportTypeKey) == Some(Str(FinanceDetail))
  }

  /** `query.filter && query.filter.reportType === 'FINANCE_DETAIL'`;
      a TypeError when the query itself is null. */
  function IsFinanceDetail(query: Value): (r: Result<bool>)
    ensures r.Err? <==> query.Null?
    ensures r.Err? ==> r.error == TypeError
    ensures !query.Null? ==> r == Ok(DetailQuery(query))
  {
    if query.Null? then Err(TypeError)
    else
      var filter := Property(query, FilterKey);
      Ok(filter.Some? && Truthy(filter.value)
         && Property(filter.value, ReportTypeKey) == Some(Str(FinanceDetail)))
  }

  /** The text handed to the TSV parser. */
  function TsvText(body: string, detail: bool): (text: string)
    ensures !detail ==> text == body
    ensures |text| <= |body| && body == body[..|body| - |text|] + text
  {
    if detail then RemoveRowsSuffix(body, PreambleRows); RemoveRows(body, PreambleRows) else body
  }

  /** A detailed finance report loses exactly its first three lines; one
      with fewer line breaks keeps only its last line. */
  lemma TsvTextPreamble(body: string)
    ensures Count(body, Newline) >= PreambleRows ==>
              var text := TsvText(body, true);
              var p := body[..|body| - |text|];
              body == p + text && Count(p, Newline) == PreambleRows && p[|p| - 1] == Newline
    ensures Count(body, Newline) < PreambleRows ==> TsvText(body, true) == Lines(body)[|Lines(body)| - 1]
  {
    if Count(body, Newline) >= PreambleRows {
      RemoveRowsAfterBreaks(body, PreambleRows);
    } else {
      RemoveRowsKeepsLastLine(body, PreambleRows);
    }
  }

  /** The renaming step of `parseTsv`: each row through `mapKeys`, the
      header through `mapKey`, and the header kept as `originalColumns`. */
  function Renaming(t: Table, normalise: string -> string): (out: RowArray)
    ensures out.originalColumns == t.columns
    ensures |out.columns| == |t.columns|
    ensures forall c :: 0 <= c < |t.columns| ==> out.columns[c] == normalise(t.columns[c])
    ensures |out.rows| == |t.rows|
    ensures forall i :: 0 <= i < |t.rows| ==> out.rows[i] == MapKeys(t.rows[i], normalise)
  {
    RowArray(
      seq(|t.rows|, i requires 0 <= i < |t.rows| => MapKeys(t.rows[i], normalise)),
      // `mapKey(null, key)`: the renaming ignores its value argument
      seq(|t.columns|, c requires 0 <= c < |t.columns| => normalise(t.columns[c])),
      t.columns)
  }

  /** `parseTsv(body, query)`. */
  function ParseTsv(body: string, query: Value, dsv: Dsv): (r: Result<RowArray>)
    ensures r.Err? <==> query.Null?
    ensures r.Err? ==> r.error == TypeError
    ensures r.Ok? ==>
              var parsed := dsv.tsvParse(TsvText(body, IsFinanceDetail(query).value));
              && r.value == Renaming(parsed, dsv.normalise)
              && r.value.originalColumns == parsed.columns
              && |r.value.columns| == |parsed.columns|
              && (forall i :: 0 <= i < |parsed.columns| ==> r.value.columns[i] == dsv.normalise(parsed.columns[i]))
              && |r.value.rows| == |parsed.rows|
  {
    match IsFinanceDetail(query)
    case Err(e) => Err(e)
    case Ok(detail) => Ok(Renaming(dsv.tsvParse(TsvText(body, detail)), dsv.normalise))
  }

  /** The table `parseTsv` hands to `mapKeys`. */
  function Parsed(body: string, query: Value, dsv: Dsv): Table
    requires !query.Null?
  {
    dsv.tsvParse(TsvText(body, IsFinanceDetail(query).value))
  }

  /** The preamble rule: a detailed finance query hands the table parser
      the body without its first three lines, any other query hands it the
      body unchanged. */
  lemma PreambleRule(body: string, query: Value, dsv: Dsv)
    requires !query.Null?
    ensures DetailQuery(query) ==> Parsed(body, query, dsv) == dsv.tsvParse(RemoveRows(body, PreambleRows))
    ensures !DetailQuery(query) ==> Parsed(body, query, dsv) == dsv.tsvParse(body)
  {
  }

  /** Each output row holds the parsed row under the renamed keys: every
      renamed key once, with the value of the last column renamed to it. */
  lemma RowRenamed(t: Table, normalise: string -> string, i: int, k: string)
    requires 0 <= i < |t.rows|
    ensures var row := Renaming(t, normalise).rows[i];
            && DistinctKeys(row)
            && (k in Keys(row) <==> exists j :: 0 <= j < |t.rows[i]| && normalise(t.rows[i][j].key) == k)
            && Lookup(row, k) == LastRenamedTo(t.rows[i], normalise, k)
  {
    MapKeysDistinct(t.rows[i], normalise);
    MapKeysLookup(t.rows[i], normalise, k);
    LastRenamedToSome(t.rows[i], normalise, k);
  }

  /** The rows and the column list are renamed alike. A parsed row whose
      keys are all header columns becomes a row whose keys all are among
      the renamed columns. */
  lemma RowKeysAmongColumns(t: Table, normalise: string -> string, i: int, k: string)
    requires 0 <= i < |t.rows|
    requires forall c :: c in Keys(t.rows[i]) ==> c in t.columns
    requires k in Keys(Renaming(t, normalise).rows[i])
    ensures k in Renaming(t, normalise).columns
  {
    var row := t.rows[i];
    RowRenamed(t, normalise, i, k);
    var j :| 0 <= j < |row| && normalise(row[j].key) == k;
    assert Keys(row)[j] == row[j].key;
    assert row[j].key in t.columns;
    var c :| 0 <= c < |t.columns| && t.columns[c] == row[j].key;
    assert Renaming(t, normalise).columns[c] == k;
  }

  /** When the renaming keeps the columns apart, each output row has
      exactly the renamed columns as keys, in order, each holding the value
      of its original column. */
  lemma RowsFollowColumns(t: Table, normalise: string -> string, i: int)
    requires 0 <= i < |t.rows|
    requires Keys(t.rows[i]) == t.columns
    requires forall a, b :: 0 <= a < b < |t.columns| ==> normalise(t.columns[a]) != normalise(t.columns[b])
    ensures var out := Renaming(t, normalise);
            && Keys(out.rows[i]) == out.columns
            && forall j :: 0 <= j < |out.columns| ==> out.rows[i][j] == Field(out.columns[j], t.rows[i][j].val)
  {
    var out := Renaming(t, normalise);
    var row := t.rows[i];
    forall a, b | 0 <= a < b < |row|
      ensures normalise(row[a].key) != normalise(row[b].key)
    {
      assert Keys(row)[a] == row[a].key && Keys(row)[b] == row[b].key;
    }
    MapKeysPointwise(row, normalise);
    forall j | 0 <= j < |out.columns|
      ensures Keys(out.rows[i])[j] == out.columns[j]
    {
      assert Keys(row)[j] == row[j].key;
    }
  }

  // ---------------------------------------------------------------------
  // The two downloads

  const FinanceReportsPath := "financeReports"
  const SalesReportsPath := "salesReports"

  /** The options both downloads pass to `GET`. */
  function ReportOptions(query: Value): Options
  {
    Options(Some(query), None, Some(GzipType))
  }

  /** `GET<string>(api, path, {query, accept: GZIP})` followed by
      `parseTsv`. `parseTsv(undefined, query)` throws a TypeError when the
      response has no body. */
  function DownloadReport(api: Handle, path: string, query: Value, env: Foreign, dsv: Dsv): Result<RowArray>
  {
    match Call(api, path, Get, ReportOptions(query), env)
    case Err(e) => Err(e)
    case Ok(Inflated(text)) => ParseTsv(text, query, dsv)
    case Ok(_) => Err(TypeError)
  }

  /** `downloadFinancialReports(api, query)`. */
  function DownloadFinancialReports(api: Handle, query: Value, env: Foreign, dsv: Dsv): (r: Result<RowArray>)
    ensures Sanitize(query).Err? ==> r == Err(TypeError)
    ensures r.Ok? ==>
              var sent := Sent(api, FinanceReportsPath, Get, ReportOptions(query), env);
              var c := Call(api, FinanceReportsPath, Get, ReportOptions(query), env);
              && sent.Some? && sent.value.Received? && BodyTruthy(sent.value.body)
              && c.Ok? && c.value.Inflated? && r == ParseTsv(c.value.text, query, dsv)
    ensures r.Err? ==> !r.error.ApiError? && !r.error.SyntaxError?
    ensures var c := Call(api, FinanceReportsPath, Get, ReportOptions(query), env);
            && (c.Err? ==> r == Err(c.error))
            && (c.Ok? && c.value.Inflated? ==> r == ParseTsv(c.value.text, query, dsv))
            && (c.Ok? && !c.value.Inflated? ==> r == Err(TypeError))
  {
    DownloadReport(api, FinanceReportsPath, query, env, dsv)
  }

  /** `downloadSalesReports(api, query)`. */
  function DownloadSalesReports(api: Handle, query: Value, env: Foreign, dsv: Dsv): (r: Result<RowArray>)
    ensures Sanitize(query).Err? ==> r == Err(TypeError)
    ensures r.Ok? ==>
              var sent := Sent(api, SalesReportsPath, Get, ReportOptions(query), env);
              var c := Call(api, SalesReportsPath, Get, ReportOptions(query), env);
              && sent.Some? && sent.value.Received? && BodyTruthy(sent.value.body)
              && c.Ok? && c.value.Inflated? && r == ParseTsv(c.value.text, query, dsv)
    ensures r.Err? ==> !r.error.ApiError? && !r.error.SyntaxError?
    ensures var c := Call(api, SalesReportsPath, Get, ReportOptions(query), env);
            && (c.Err? ==> r == Err(c.error))
            && (c.Ok? && c.value.Inflated? ==> r == ParseTsv(c.value.text, query, dsv))
            && (c.Ok? && !c.value.Inflated? ==> r == Err(TypeError))
  {
    DownloadReport(api, SalesReportsPath, query, env, dsv)
  }

  /** The request both downloads send: a GET on their path asking for GZIP,
      carrying the sanitized query in repeat format, no body, and a binary
      response. */
  lemma ReportRequest(api: Handle, path: string, query: Value, env: Foreign)
    requires Sanitize(query).Ok?
    ensures var req := BuildRequest(api, path, Get, ReportOptions(query), env);
            && req.Ok?
            && req.value.verb == Get
            && req.value.path == path
            && req.value.headers[AcceptHeader] == "application/a-gzip"
            && req.value.searchParams == Some(Join(TopLevelPairs(Sanitize(query).value), env.percentEncode))
            && req.value.body.None?
            && req.value.responseType == BufferResponse
  {
  }
}
