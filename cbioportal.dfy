/**
  * cBioPortal (MSK-IMPACT 2017 study): for a gene, the share of samples in
  * each tumor type that carry a mutation in it. Two transformed CSV files
  * are read: the mutations file (one row per mutation, with the gene symbol
  * and the sample barcode) and the case-lists file (one row per case list,
  * with its name and its tab-separated sample ids).
  */
module CBioPortal {
  import opened Wrappers
  import opened Strings
  import opened Json
  import opened Schemas
  import opened Base
  import PyDict

  type Row = seq<string>

  /** A CSV file as `csv.reader` yields it: the header row, then data rows. */
  type CsvFile = seq<Row>

  datatype SummaryError =
    | NoTransformedFile           // no transformed data path was resolved
    | EmptyFile                   // `next(data)` finds no header row
    | MissingColumn(name: string) // `headers.index(name)` fails
    | ShortRow                    // the row has no cell at the column's index

  const MetaCBioPortal: SourceMeta := SourceMeta(CBioPortal, Some("msk_impact_2017"))

  /** `headers.index(name)`: the first column with that name. */
  function ColumnIndex(headers: Row, name: string): (r: Option<nat>)
    ensures r.Some? ==> r.value < |headers| && headers[r.value] == name
    ensures r.Some? ==> forall j :: 0 <= j < r.value ==> headers[j] != name
    ensures r.None? <==> name !in headers
  {
    if |headers| == 0 then None
    else if headers[0] == name then Some(0)
    else match ColumnIndex(headers[1..], name)
      case None => None
      case Some(i) => Some(i + 1)
  }

  /** `row[headers.index(name)]`. */
  function Cell(headers: Row, row: Row, name: string): (r: Result<string, SummaryError>)
    ensures name !in headers ==> r == Err(MissingColumn(name))
    ensures r.Ok? ==> exists i :: 0 <= i < |headers| && i < |row| && headers[i] == name && row[i] == r.value
    ensures ColumnIndex(headers, name).Some? ==>
              var i := ColumnIndex(headers, name).value;
              (r.Ok? <==> i < |row|) && (r.Ok? ==> r.value == row[i]) && (r.Err? ==> r.error == ShortRow)
  {
    match ColumnIndex(headers, name)
    case None => Err(MissingColumn(name))
    case Some(i) => if i < |row| then Ok(row[i]) else Err(ShortRow)
  }

  // ---------------------------------------------------------------------------
  // Mutated samples

  /** What one mutations row contributes: its sample barcode when its gene is
      the queried one. */
  function MutationRowSample(headers: Row, row: Row, symbol: string): Result<Option<string>, SummaryError> {
    match Cell(headers, row, "Hugo_Symbol")
    case Err(e) => Err(e)
    case Ok(gene) =>
      if gene != symbol then Ok(None)
      else match Cell(headers, row, "Tumor_Sample_Barcode")
        case Err(e) => Err(e)
        case Ok(id) => Ok(Some(id))
  }

  /** The barcodes collected from `rows` in order; the first failing row aborts. */
  function ScanMutations(headers: Row, rows: seq<Row>, symbol: string): Result<set<string>, SummaryError>
    decreases |rows|
  {
    if |rows| == 0 then Ok({})
    else match ScanMutations(headers, rows[..|rows| - 1], symbol)
      case Err(e) => Err(e)
      case Ok(ids) =>
        match MutationRowSample(headers, rows[|rows| - 1], symbol)
        case Err(e) => Err(e)
        case Ok(None) => Ok(ids)
        case Ok(Some(id)) => Ok(ids + {id})
  }

  function MutatedSamples(file: CsvFile, symbol: string): Result<set<string>, SummaryError> {
    if |file| == 0 then Err(EmptyFile) else ScanMutations(file[0], file[1..], symbol)
  }

  /** The first loop of `cancer_types_summary`. */
  method CollectMutatedSamples(file: CsvFile, symbol: string) returns (r: Result<set<string>, SummaryError>)
    ensures r == MutatedSamples(file, symbol)
  {
    if |file| == 0 {
      return Err(EmptyFile);
    }
    var headers, rows := file[0], file[1..];
    var ids: set<string> := {};
    var i := 0;
    while i < |rows|
      invariant 0 <= i <= |rows|
      invariant ScanMutations(headers, rows[..i], symbol) == Ok(ids)
    {
      assert rows[..i + 1][..i] == rows[..i];
      var sample := MutationRowSample(headers, rows[i], symbol);
      match sample {
        case Err(e) =>
          MutationErrorPersists(headers, rows, symbol, i + 1);
          return Err(e);
        case Ok(None) =>
        case Ok(Some(id)) =>
          ids := ids + {id};
      }
      i := i + 1;
    }
    assert rows[..i] == rows;
    r := Ok(ids);
  }

  /** Once a row fails, the scan fails with that row's error. */
  lemma {:induction false} MutationErrorPersists(headers: Row, rows: seq<Row>, symbol: string, i: nat)
    requires i <= |rows| && ScanMutations(headers, rows[..i], symbol).Err?
    ensures ScanMutations(headers, rows, symbol) == ScanMutations(headers, rows[..i], symbol)
    decreases |rows|
  {
    if i < |rows| {
      var init := rows[..|rows| - 1];
      assert init[..i] == rows[..i];
      MutationErrorPersists(headers, init, symbol, i);
    } else {
      assert rows[..i] == rows;
    }
  }

  /** With both columns present, every row long enough for the gene column,
      and every row whose gene is `symbol` long enough for the barcode column
      (other rows are never indexed there), the result is the set of barcodes
      of the rows whose gene is `symbol`. */
  lemma {:induction false} ScanMutationsCollects(headers: Row, rows: seq<Row>, symbol: string, gi: nat, bi: nat)
    requires ColumnIndex(headers, "Hugo_Symbol") == Some(gi)
    requires ColumnIndex(headers, "Tumor_Sample_Barcode") == Some(bi)
    requires forall k :: 0 <= k < |rows| ==> gi < |rows[k]| && (rows[k][gi] == symbol ==> bi < |rows[k]|)
    ensures ScanMutations(headers, rows, symbol).Ok?
    ensures forall id :: id in ScanMutations(headers, rows, symbol).value <==>
              exists k :: 0 <= k < |rows| && rows[k][gi] == symbol && rows[k][bi] == id
    decreases |rows|
  {
    if |rows| > 0 {
      var init := rows[..|rows| - 1];
      ScanMutationsCollects(headers, init, symbol, gi, bi);
      forall id ensures id in ScanMutations(headers, rows, symbol).value <==>
                  exists k :: 0 <= k < |rows| && rows[k][gi] == symbol && rows[k][bi] == id {
        if exists k :: 0 <= k < |rows| && rows[k][gi] == symbol && rows[k][bi] == id {
          var k :| 0 <= k < |rows| && rows[k][gi] == symbol && rows[k][bi] == id;
          if k < |rows| - 1 { assert init[k] == rows[k]; }
        }
        if exists k :: 0 <= k < |init| && init[k][gi] == symbol && init[k][bi] == id {
          var k :| 0 <= k < |init| && init[k][gi] == symbol && init[k][bi] == id;
          assert rows[k] == init[k];
        }
      }
    }
  }

  /** A missing gene column fails on the first data row; a file with no data
      rows never looks the column up. */
  lemma {:induction false} MissingGeneColumn(headers: Row, rows: seq<Row>, symbol: string)
    requires "Hugo_Symbol" !in headers
    ensures ScanMutations(headers, rows, symbol) ==
              if |rows| == 0 then Ok({}) else Err(MissingColumn("Hugo_Symbol"))
    decreases |rows|
  {
    if |rows| > 0 {
      MissingGeneColumn(headers, rows[..|rows| - 1], symbol);
    }
  }

  // ---------------------------------------------------------------------------
  // Tumor type totals

  datatype TumorTypeCount = TumorTypeCount(count: nat, total: nat)

  /** How many of `ids` (counting repeats) are mutated samples. */
  function Occurrences(ids: seq<string>, mutated: set<string>): (n: nat)
    ensures n <= |ids|
    ensures n == |ids| <==> forall k :: 0 <= k < |ids| ==> ids[k] in mutated
    ensures n == 0 <==> forall k :: 0 <= k < |ids| ==> ids[k] !in mutated
    decreases |ids|
  {
    if |ids| == 0 then 0
    else
      var init := ids[..|ids| - 1];
      assert forall k :: 0 <= k < |init| ==> init[k] == ids[k];
      Occurrences(init, mutated) + (if ids[|ids| - 1] in mutated then 1 else 0)
  }

  /** The tumor type a case-list name names: the text after the last ": ". */
  function TumorType(name: string): (tumorType: string)
    ensures !Contains(tumorType, ": ")
    ensures !Contains(name, ": ") ==> tumorType == name
    ensures Contains(name, ": ") ==> EndsWith(name, ": " + tumorType)
  {
    var parts := Split(name, ": ");
    SplitLastHasNoSeparator(name, ": ");
    if Contains(name, ": ") then
      SplitLastIsSuffix(name, ": ");
      parts[|parts| - 1]
    else
      SplitWithoutSeparator(name, ": ");
      parts[|parts| - 1]
  }

  /** What one case-lists row contributes: nothing when its name has no ":",
      otherwise its tumor type with the mutated count and the list's size. */
  function CaseListRow(headers: Row, row: Row, mutated: set<string>): (r: Result<Option<(string, TumorTypeCount)>, SummaryError>)
    ensures r.Ok? && r.value.Some? ==> 1 <= r.value.value.1.total && r.value.value.1.count <= r.value.value.1.total
  {
    match Cell(headers, row, "case_list_name")
    case Err(e) => Err(e)
    case Ok(name) =>
      if !Contains(name, ":") then Ok(None)
      else match Cell(headers, row, "case_list_ids")
        case Err(e) => Err(e)
        case Ok(text) =>
          var ids := Split(text, "\t");
          Ok(Some((TumorType(name), TumorTypeCount(Occurrences(ids, mutated), |ids|))))
  }

  predicate Bounded(c: TumorTypeCount) {
    1 <= c.total && c.count <= c.total
  }

  /** The totals table built from `rows` in order: a tumor type seen again is
      overwritten in place. Every entry has a non-empty list and a count no
      larger than it. */
  function ScanCaseLists(headers: Row, rows: seq<Row>, mutated: set<string>): (r: Result<PyDict.Dict<string, TumorTypeCount>, SummaryError>)
    ensures r.Ok? ==> PyDict.DistinctKeys(r.value)
    ensures r.Ok? ==> forall k :: 0 <= k < |r.value| ==> Bounded(r.value[k].1)
    decreases |rows|
  {
    if |rows| == 0 then Ok([])
    else match ScanCaseLists(headers, rows[..|rows| - 1], mutated)
      case Err(e) => Err(e)
      case Ok(table) =>
        match CaseListRow(headers, rows[|rows| - 1], mutated)
        case Err(e) => Err(e)
        case Ok(None) => Ok(table)
        case Ok(Some(entry)) =>
          PyDict.DistinctKeysSet(table, entry.0, entry.1);
          PyDict.SetKeepsValueProperty(table, entry.0, entry.1, Bounded);
          Ok(PyDict.Set(table, entry.0, entry.1))
  }

  function CaseListTotals(file: CsvFile, mutated: set<string>): Result<PyDict.Dict<string, TumorTypeCount>, SummaryError> {
    if |file| == 0 then Err(EmptyFile) else ScanCaseLists(file[0], file[1..], mutated)
  }

  /** The inner loop: how many of a case list's samples are mutated. */
  method CountMutated(ids: seq<string>, mutated: set<string>) returns (count: nat)
    ensures count == Occurrences(ids, mutated)
  {
    count := 0;
    var j := 0;
    while j < |ids|
      invariant 0 <= j <= |ids|
      invariant count == Occurrences(ids[..j], mutated)
    {
      assert ids[..j + 1][..j] == ids[..j];
      if ids[j] in mutated {
        count := count + 1;
      }
      j := j + 1;
    }
    assert ids[..j] == ids;
  }

  /** Once a row fails, the scan fails with that row's error. */
  lemma {:induction false} CaseListErrorPersists(headers: Row, rows: seq<Row>, mutated: set<string>, i: nat)
    requires i <= |rows| && ScanCaseLists(headers, rows[..i], mutated).Err?
    ensures ScanCaseLists(headers, rows, mutated) == ScanCaseLists(headers, rows[..i], mutated)
    decreases |rows|
  {
    if i < |rows| {
      var init := rows[..|rows| - 1];
      assert init[..i] == rows[..i];
      CaseListErrorPersists(headers, init, mutated, i);
    } else {
      assert rows[..i] == rows;
    }
  }

  /** The second loop of `cancer_types_summary`, counting each list's mutated
      samples in an inner loop. */
  method SummarizeCaseLists(file: CsvFile, mutated: set<string>) returns (r: Result<PyDict.Dict<string, TumorTypeCount>, SummaryError>)
    ensures r == CaseListTotals(file, mutated)
  {
    if |file| == 0 {
      return Err(EmptyFile);
    }
    var headers, rows := file[0], file[1..];
    var totals: PyDict.Dict<string, TumorTypeCount> := [];
    var i := 0;
    while i < |rows|
      invariant 0 <= i <= |rows|
      invariant ScanCaseLists(headers, rows[..i], mutated) == Ok(totals)
    {
      assert rows[..i + 1][..i] == rows[..i];
      var row := rows[i];
      var name := Cell(headers, row, "case_list_name");
      if name.Err? {
        CaseListErrorPersists(headers, rows, mutated, i + 1);
        return Err(name.error);
      }
      if Contains(name.value, ":") {
        var tumorType := TumorType(name.value);
        var text := Cell(headers, row, "case_list_ids");
        if text.Err? {
          CaseListErrorPersists(headers, rows, mutated, i + 1);
          return Err(text.error);
        }
        var ids := Split(text.value, "\t");
        var count := CountMutated(ids, mutated);
        assert CaseListRow(headers, row, mutated) == Ok(Some((tumorType, TumorTypeCount(count, |ids|))));
        totals := PyDict.Set(totals, tumorType, TumorTypeCount(count, |ids|));
      }
      i := i + 1;
    }
    assert rows[..i] == rows;
    r := Ok(totals);
  }

  /** The entry a tumor type ends up with: the one from the last row that
      names it, or none. */
  function LastEntryFor(headers: Row, rows: seq<Row>, mutated: set<string>, tumorType: string): Option<TumorTypeCount>
    decreases |rows|
  {
    if |rows| == 0 then None
    else match CaseListRow(headers, rows[|rows| - 1], mutated)
      case Ok(Some(entry)) =>
        if entry.0 == tumorType then Some(entry.1) else LastEntryFor(headers, rows[..|rows| - 1], mutated, tumorType)
      case _ => LastEntryFor(headers, rows[..|rows| - 1], mutated, tumorType)
  }

  /** Looking a tumor type up in the table gives the last row's entry for it:
      later case lists of the same type overwrite earlier ones. */
  lemma {:induction false} LastWriteWins(headers: Row, rows: seq<Row>, mutated: set<string>, tumorType: string)
    requires ScanCaseLists(headers, rows, mutated).Ok?
    ensures PyDict.Get(ScanCaseLists(headers, rows, mutated).value, tumorType) == LastEntryFor(headers, rows, mutated, tumorType)
    decreases |rows|
  {
    if |rows| > 0 {
      var init := rows[..|rows| - 1];
      LastWriteWins(headers, init, mutated, tumorType);
      var table := ScanCaseLists(headers, init, mutated).value;
      match CaseListRow(headers, rows[|rows| - 1], mutated)
      case Ok(Some(entry)) =>
        if entry.0 == tumorType {
          PyDict.GetSetSame(table, entry.0, entry.1);
        } else {
          PyDict.GetSetOther(table, entry.0, entry.1, tumorType);
        }
      case Ok(None) =>
    }
  }

  // ---------------------------------------------------------------------------
  // The summary

  function PercentAltered(c: TumorTypeCount): real
    requires c.total > 0
  {
    (c.count as real / c.total as real) * 100.0
  }

  /** The percentage lies between 0 and 100, and is 100 exactly when every
      sample of the list is mutated. */
  lemma PercentInRange(c: TumorTypeCount)
    requires Bounded(c)
    ensures 0.0 <= PercentAltered(c) <= 100.0
    ensures PercentAltered(c) == 100.0 <==> c.count == c.total
    ensures PercentAltered(c) == 0.0 <==> c.count == 0
  {
    var q := c.count as real / c.total as real;
    assert q * c.total as real == c.count as real;
    if c.count < c.total {
      assert q < 1.0;
    }
  }

  /** `{"count": …, "total": …, "percent_altered": …}` in that insertion order. */
  function CountJson(c: TumorTypeCount): Json
    requires c.total > 0
  {
    Obj([("count", Int(c.count)), ("total", Int(c.total)), ("percent_altered", Float(PercentAltered(c)))])
  }

  function SummaryData(totals: PyDict.Dict<string, TumorTypeCount>): (data: Members)
    requires forall k :: 0 <= k < |totals| ==> Bounded(totals[k].1)
    ensures PyDict.Keys(data) == PyDict.Keys(totals)
  {
    seq(|totals|, k requires 0 <= k < |totals| && Bounded(totals[k].1) => (totals[k].0, CountJson(totals[k].1)))
  }

  /** `cancer_types_summary` up to the envelope: the response data, or the
      error that escapes. `mutations` and `caseLists` are the contents of the
      two resolved files (None when no path was resolved). */
  function CancerTypesSummary(symbol: string, mutations: Option<CsvFile>, caseLists: Option<CsvFile>): Result<Members, SummaryError> {
    if mutations.None? then Err(NoTransformedFile)
    else match MutatedSamples(mutations.value, Upper(symbol))
      case Err(e) => Err(e)
      case Ok(ids) =>
        if ids == {} then Ok([])
        else if caseLists.None? then Err(NoTransformedFile)
        else match CaseListTotals(caseLists.value, ids)
          case Err(e) => Err(e)
          case Ok(totals) => Ok(SummaryData(totals))
  }

  /** `cancer_types_summary`: the response it returns, with its id set. */
  method CancerTypesSummaryResponse(symbol: string, mutations: Option<CsvFile>, caseLists: Option<CsvFile>, codec: Codec)
    returns (r: Result<Response, SummaryError>)
    ensures CancerTypesSummary(symbol, mutations, caseLists).Err? ==>
              r == Err(CancerTypesSummary(symbol, mutations, caseLists).error)
    ensures CancerTypesSummary(symbol, mutations, caseLists).Ok? ==>
              r.Ok? && fresh(r.value)
              && r.value.data == CancerTypesSummary(symbol, mutations, caseLists).value
              && r.value.sourceMeta == MetaCBioPortal
              && r.value.id == EnvelopeId(None, r.value.data, MetaCBioPortal, codec)
  {
    var symbolUpper := Upper(symbol);
    if mutations.None? {
      return Err(NoTransformedFile);
    }
    var ids := CollectMutatedSamples(mutations.value, symbolUpper);
    if ids.Err? {
      return Err(ids.error);
    }
    var data: Members := [];
    if ids.value != {} {
      if caseLists.None? {
        return Err(NoTransformedFile);
      }
      var totals := SummarizeCaseLists(caseLists.value, ids.value);
      if totals.Err? {
        return Err(totals.error);
      }
      data := SummaryData(totals.value);
    }
    var resp := new Response(data, MetaCBioPortal);
    resp := FormatResponse(resp, codec);
    r := Ok(resp);
  }

  /** The gene symbol is matched in upper case, so any casing of it gives the
      same summary. */
  lemma SymbolCaseInsensitive(symbol: string, mutations: Option<CsvFile>, caseLists: Option<CsvFile>)
    ensures CancerTypesSummary(Upper(symbol), mutations, caseLists) == CancerTypesSummary(symbol, mutations, caseLists)
  {
    UpperIdempotent(symbol);
  }

  /** No mutated sample: the data is empty and the case-lists file is never
      read, whatever it holds. */
  lemma NoMutationsShortCircuits(symbol: string, mutations: CsvFile, caseLists1: Option<CsvFile>, caseLists2: Option<CsvFile>)
    requires MutatedSamples(mutations, Upper(symbol)) == Ok({})
    ensures CancerTypesSummary(symbol, Some(mutations), caseLists1) == Ok([])
    ensures CancerTypesSummary(symbol, Some(mutations), caseLists1) == CancerTypesSummary(symbol, Some(mutations), caseLists2)
  {
  }

  /** A tumor type in the summary maps to the counts of the last case list
      naming it, serialised with its percentage; tumor types no case list
      names are absent. */
  lemma SummaryEntry(symbol: string, mutations: CsvFile, caseLists: CsvFile, tumorType: string)
    requires |caseLists| > 0
    requires MutatedSamples(mutations, Upper(symbol)).Ok?
    requires MutatedSamples(mutations, Upper(symbol)).value != {}
    requires CaseListTotals(caseLists, MutatedSamples(mutations, Upper(symbol)).value).Ok?
    ensures var ids := MutatedSamples(mutations, Upper(symbol)).value;
      var last := LastEntryFor(caseLists[0], caseLists[1..], ids, tumorType);
      var data := CancerTypesSummary(symbol, Some(mutations), Some(caseLists)).value;
      (last.None? ==> PyDict.Get(data, tumorType).None?) &&
      (last.Some? ==> Bounded(last.value) && PyDict.Get(data, tumorType) == Some(CountJson(last.value)))
  {
    var ids := MutatedSamples(mutations, Upper(symbol)).value;
    var totals := ScanCaseLists(caseLists[0], caseLists[1..], ids).value;
    var data := SummaryData(totals);
    LastWriteWins(caseLists[0], caseLists[1..], ids, tumorType);
    PyDict.FindByKeys(data, totals, tumorType);
  }
}
