/**
  * The Cancer Hotspots ETL: each row of the SNV and INDEL sheets is turned
  * into a variation query for the variation normalizer, and rows it resolves
  * are stored under their VRS id with the hotspot counts.
  */
module CancerHotspotsEtl {
  import opened Wrappers
  import opened Strings
  import opened Json
  import opened Schemas
  import opened Base
  import opened CancerHotspots

  /** One sheet row: gene, reference residue (SNV sheet only), position,
      `Variant_Amino_Acid` as `<change>:<observations>`, q-value and
      `Mutation_Count`. Text cells are given as the text they format to. */
  datatype HotspotRow = HotspotRow(
    hugoSymbol: string,
    ref: string,
    position: string,
    variantAminoAcid: string,
    qValue: real,
    mutationCount: int)

  /** What the variation normalizer does with a query: it raises, answers
      without a variation, or gives the variation's VRS id. */
  datatype NormalizerResult = Raised | NoVariation | Variation(vrsId: string)

  datatype HotspotRecord = HotspotRecord(
    variation: string,
    codon: string,
    mutation: string,
    qValue: real,
    observations: int,
    totalObservations: int)

  datatype EtlError =
    | MalformedAlt(alt: string)          // the alt does not split into exactly two parts
    | BadObservations(text: string)      // the observation count is not an integer
    | DownloadFailed                     // the spreadsheet is still missing after the download

  /** The stored record as the JSON object written to the transformed file. */
  function RecordJson(r: HotspotRecord): (m: Members)
    ensures PyDict.Keys(m) == ["variation", "codon", "mutation", "q_value", "observations", "total_observations"]
  {
    [("variation", Str(r.variation)), ("codon", Str(r.codon)), ("mutation", Str(r.mutation)),
     ("q_value", Float(r.qValue)), ("observations", Int(r.observations)),
     ("total_observations", Int(r.totalObservations))]
  }

  /** The text sent to the normalizer: gene, a space, then reference residue,
      position and change for an SNV, or the change alone for an INDEL. */
  function VariationQuery(row: HotspotRow, isSnv: bool): string {
    var change := Split(row.variantAminoAcid, ":")[0];
    if isSnv then row.hugoSymbol + " " + row.ref + row.position + change
    else row.hugoSymbol + " " + change
  }

  datatype RowOutcome = Skip | Store(vrsId: string, record: HotspotRecord) | Abort(error: EtlError)

  /** One iteration of `get_transformed_data`. A row the normalizer cannot
      resolve is skipped; a resolved row whose alt is malformed aborts. */
  function TransformRow(row: HotspotRow, isSnv: bool, normalize: string -> NormalizerResult): RowOutcome {
    var query := VariationQuery(row, isSnv);
    match normalize(query)
    case Raised => Skip
    case NoVariation => Skip
    case Variation(vrsId) =>
      var parts := Split(row.variantAminoAcid, ":");
      if |parts| != 2 then Abort(MalformedAlt(row.variantAminoAcid))
      else match ParseInt(parts[1])
        case None => Abort(BadObservations(parts[1]))
        case Some(observations) =>
          var codon := if isSnv then row.ref + row.position else row.position;
          var mutation := if isSnv then codon + parts[0] else parts[0];
          Store(vrsId, HotspotRecord(query, codon, mutation, row.qValue, observations, row.mutationCount))
  }

  /** The table after a sheet and the error that stopped it, if any. */
  datatype Progress = Progress(table: map<string, HotspotRecord>, error: Option<EtlError>)

  /** `get_transformed_data` over `rows` in order: a stored id overwrites an
      earlier entry, and an aborting row stops the sheet with the rows before
      it already stored. */
  function TransformSheet(table: map<string, HotspotRecord>, rows: seq<HotspotRow>, isSnv: bool,
                          normalize: string -> NormalizerResult): Progress
    decreases |rows|
  {
    if |rows| == 0 then Progress(table, None)
    else
      var p := TransformSheet(table, rows[..|rows| - 1], isSnv, normalize);
      if p.error.Some? then p
      else match TransformRow(rows[|rows| - 1], isSnv, normalize)
        case Skip => p
        case Store(vrsId, record) => Progress(p.table[vrsId := record], None)
        case Abort(e) => Progress(p.table, Some(e))
  }

  /** `add_vrs_identifier_to_data`: fails when the spreadsheet is missing,
      otherwise runs the SNV sheet and then, unless it aborted, the INDEL
      sheet. */
  function AddVrsIdentifiers(table: map<string, HotspotRecord>, dataFileExists: bool,
                             snv: seq<HotspotRow>, indel: seq<HotspotRow>,
                             normalize: string -> NormalizerResult): Progress {
    if !dataFileExists then Progress(table, Some(DownloadFailed))
    else
      var p := TransformSheet(table, snv, true, normalize);
      if p.error.Some? then p else TransformSheet(p.table, indel, false, normalize)
  }

  class CancerHotspotsEtl {
    var transformedData: map<string, HotspotRecord>

    constructor ()
      ensures transformedData == map[]
    {
      transformedData := map[];
    }

    /** Transforms one sheet into `transformedData`; returns the error that
        stopped it, if any. */
    method GetTransformedData(rows: seq<HotspotRow>, isSnv: bool, normalize: string -> NormalizerResult)
      returns (error: Option<EtlError>)
      modifies this
      ensures Progress(transformedData, error) == TransformSheet(old(transformedData), rows, isSnv, normalize)
    {
      ghost var start := transformedData;
      var i := 0;
      while i < |rows|
        invariant 0 <= i <= |rows|
        invariant TransformSheet(start, rows[..i], isSnv, normalize) == Progress(transformedData, None)
      {
        assert rows[..i + 1][..i] == rows[..i];
        var outcome := TransformRow(rows[i], isSnv, normalize);
        match outcome {
          case Skip =>
          case Store(vrsId, record) =>
            transformedData := transformedData[vrsId := record];
          case Abort(e) =>
            SheetErrorPersists(start, rows, isSnv, normalize, i + 1);
            return Some(e);
        }
        i := i + 1;
      }
      assert rows[..i] == rows;
      error := None;
    }

    method AddVrsIdentifierToData(dataFileExists: bool, snv: seq<HotspotRow>, indel: seq<HotspotRow>,
                                  normalize: string -> NormalizerResult) returns (error: Option<EtlError>)
      modifies this
      ensures Progress(transformedData, error)
           == AddVrsIdentifiers(old(transformedData), dataFileExists, snv, indel, normalize)
    {
      if !dataFileExists {
        return Some(DownloadFailed);
      }
      error := GetTransformedData(snv, true, normalize);
      if error.Some? {
        return;
      }
      error := GetTransformedData(indel, false, normalize);
    }
  }

  /** Once a row aborts, the sheet ends with that error and that table. */
  lemma {:induction false} SheetErrorPersists(table: map<string, HotspotRecord>, rows: seq<HotspotRow>, isSnv: bool,
                                              normalize: string -> NormalizerResult, i: nat)
    requires i <= |rows| && TransformSheet(table, rows[..i], isSnv, normalize).error.Some?
    ensures TransformSheet(table, rows, isSnv, normalize) == TransformSheet(table, rows[..i], isSnv, normalize)
    decreases |rows|
  {
    if i < |rows| {
      var init := rows[..|rows| - 1];
      assert init[..i] == rows[..i];
      SheetErrorPersists(table, init, isSnv, normalize, i);
    } else {
      assert rows[..i] == rows;
    }
  }

  /** An aborting row stops the sheet: rows after it are never transformed,
      and the rows before it stay stored. */
  lemma AbortStopsSheet(table: map<string, HotspotRecord>, before: seq<HotspotRow>, bad: HotspotRow,
                        after: seq<HotspotRow>, isSnv: bool, normalize: string -> NormalizerResult)
    requires TransformRow(bad, isSnv, normalize).Abort?
    requires TransformSheet(table, before, isSnv, normalize).error.None?
    ensures TransformSheet(table, before + [bad] + after, isSnv, normalize)
         == Progress(TransformSheet(table, before, isSnv, normalize).table,
                     Some(TransformRow(bad, isSnv, normalize).error))
  {
    var rows := before + [bad] + after;
    assert rows[..|before| + 1] == before + [bad];
    assert (before + [bad])[..|before|] == before;
    SheetErrorPersists(table, rows, isSnv, normalize, |before| + 1);
  }

  /** A stored record reads back as its row: the variation is the gene and
      the mutation; an SNV's codon is reference residue and position and
      prefixes its mutation, an INDEL's codon is the position; the alt is the
      change, a colon and the observation count. */
  lemma StoredRecordShape(row: HotspotRow, isSnv: bool, normalize: string -> NormalizerResult)
    requires TransformRow(row, isSnv, normalize).Store?
    ensures var rec := TransformRow(row, isSnv, normalize).record;
      var change := if isSnv then rec.mutation[|rec.codon|..] else rec.mutation;
      rec.variation == row.hugoSymbol + " " + rec.mutation
      && (isSnv ==> rec.codon == row.ref + row.position && StartsWith(rec.mutation, rec.codon))
      && (!isSnv ==> rec.codon == row.position)
      && (exists text :: row.variantAminoAcid == change + ":" + text && ParseInt(text) == Some(rec.observations))
      && rec.qValue == row.qValue && rec.totalObservations == row.mutationCount
      && normalize(VariationQuery(row, isSnv)) == Variation(TransformRow(row, isSnv, normalize).vrsId)
  {
    var rec := TransformRow(row, isSnv, normalize).record;
    var parts := Split(row.variantAminoAcid, ":");
    SplitJoin(row.variantAminoAcid, ":");
    assert parts[1..] == [parts[1]];
    assert row.variantAminoAcid == parts[0] + ":" + parts[1];
    if isSnv {
      assert (rec.codon + parts[0])[..|rec.codon|] == rec.codon;
      assert (rec.codon + parts[0])[|rec.codon|..] == parts[0];
      assert rec.variation == row.hugoSymbol + " " + (rec.codon + parts[0]);
    }
  }

  /** The record of the last row in `rows` that stores `vrsId`, if any. */
  function LastStored(rows: seq<HotspotRow>, isSnv: bool, normalize: string -> NormalizerResult, vrsId: string): Option<HotspotRecord>
    decreases |rows|
  {
    if |rows| == 0 then None
    else match TransformRow(rows[|rows| - 1], isSnv, normalize)
      case Store(id, record) =>
        if id == vrsId then Some(record) else LastStored(rows[..|rows| - 1], isSnv, normalize, vrsId)
      case _ => LastStored(rows[..|rows| - 1], isSnv, normalize, vrsId)
  }

  /** After a sheet that completes, an id holds the record of the last row
      storing it; ids no row stores keep what they had. */
  lemma {:induction false} SheetLastWriteWins(table: map<string, HotspotRecord>, rows: seq<HotspotRow>, isSnv: bool,
                                              normalize: string -> NormalizerResult, vrsId: string)
    requires TransformSheet(table, rows, isSnv, normalize).error.None?
    ensures var t := TransformSheet(table, rows, isSnv, normalize).table;
      match LastStored(rows, isSnv, normalize, vrsId)
      case Some(record) => vrsId in t && t[vrsId] == record
      case None => (vrsId in t <==> vrsId in table) && (vrsId in table ==> t[vrsId] == table[vrsId])
    decreases |rows|
  {
    if |rows| > 0 {
      SheetLastWriteWins(table, rows[..|rows| - 1], isSnv, normalize, vrsId);
    }
  }

  /** When both sheets complete, an id stored by an INDEL row ends with the
      INDEL record even if an SNV row stored it too; otherwise it ends with
      its last SNV record. */
  lemma IndelOverridesSnv(table: map<string, HotspotRecord>, snv: seq<HotspotRow>, indel: seq<HotspotRow>,
                          normalize: string -> NormalizerResult, vrsId: string)
    requires AddVrsIdentifiers(table, true, snv, indel, normalize).error.None?
    ensures var t := AddVrsIdentifiers(table, true, snv, indel, normalize).table;
      var fromIndel := LastStored(indel, false, normalize, vrsId);
      var fromSnv := LastStored(snv, true, normalize, vrsId);
      (fromIndel.Some? ==> vrsId in t && t[vrsId] == fromIndel.value)
      && (fromIndel.None? && fromSnv.Some? ==> vrsId in t && t[vrsId] == fromSnv.value)
  {
    var p := TransformSheet(table, snv, true, normalize);
    SheetLastWriteWins(table, snv, true, normalize, vrsId);
    SheetLastWriteWins(p.table, indel, false, normalize, vrsId);
  }

  /** The transformed file as the data source loads it: each id's record as
      a JSON object. */
  function TableJson(table: map<string, HotspotRecord>): (loaded: HotspotTable)
    ensures loaded.Keys == table.Keys
  {
    map vrsId | vrsId in table :: RecordJson(table[vrsId])
  }

  /** Served from the ETL's output, a known id gets its record with an id on
      the response, and an unknown id gets empty data and no id. */
  lemma ServedFromTransformedTable(table: map<string, HotspotRecord>, vrsId: string, codec: Codec)
    ensures var data := Lookup(TableJson(table), vrsId);
      (vrsId in table ==> data == RecordJson(table[vrsId]))
      && (vrsId !in table ==> data == [])
      && (EnvelopeId(None, data, MetaCancerHotspots, codec).Some? <==> vrsId in table)
  {
    var loaded := TableJson(table);
    forall k | k in loaded ensures |loaded[k]| > 0 {
      assert |PyDict.Keys(loaded[k])| == 6;
    }
    IdIffKnownVariation(loaded, vrsId, codec);
  }

  lemma SplitBrafAlt()
    ensures Split("E:833", ":") == ["E", "833"]
  {
    var alt := "E:833";
    assert !OccursAt(alt, ":", 0) by { assert alt[0..1][0] == 'E'; }
    assert OccursAt(alt, ":", 1) by { assert alt[1..2] == [alt[1]]; }
    assert IndexOf(alt, ":") == Some(1);
    var rest := "833";
    assert alt[2..] == rest;
    assert !OccursAt(rest, ":", 0) by { assert rest[0..1][0] == '8'; }
    assert !OccursAt(rest, ":", 1) by { assert rest[1..2][0] == '3'; }
    assert !OccursAt(rest, ":", 2) by { assert rest[2..3][0] == '3'; }
    assert IndexOf(rest, ":") == None;
    assert alt[..1] == "E";
  }

  lemma ParseBrafCount()
    ensures ParseInt("833") == Some(833)
  {
    var s := "833";
    assert s[..2] == "83" && s[..2][..1] == "8" && s[..2][..1][..0] == "";
    assert DigitsValue("8") == 8;
    assert DigitsValue("83") == 83;
    assert DigitsValue(s) == 833;
    ParseDigits(s);
  }

  lemma BrafQuery()
    ensures VariationQuery(HotspotRow("BRAF", "V", "600", "E:833", 0.0, 897), true) == "BRAF V600E"
  {
    SplitBrafAlt();
    var q := "BRAF" + " " + "V" + "600" + "E";
    assert |q| == 10;
    assert forall i | 0 <= i < 10 :: q[i] == "BRAF V600E"[i];
  }

  /** A row the normalizer resolves and whose alt is a change, one colon and an
      integer is stored under its VRS id with the counts it gives. */
  lemma ResolvedRowStored(row: HotspotRow, isSnv: bool, normalize: string -> NormalizerResult,
                          change: string, text: string, observations: int)
    requires normalize(VariationQuery(row, isSnv)).Variation?
    requires Split(row.variantAminoAcid, ":") == [change, text]
    requires ParseInt(text) == Some(observations)
    ensures var query := VariationQuery(row, isSnv);
      var codon := if isSnv then row.ref + row.position else row.position;
      TransformRow(row, isSnv, normalize)
        == Store(normalize(query).vrsId,
                 HotspotRecord(query, codon, if isSnv then codon + change else change,
                               row.qValue, observations, row.mutationCount))
  {
  }

  /** The BRAF V600E row of the SNV sheet becomes the record served for its
      VRS id. */
  lemma BrafV600eRow(normalize: string -> NormalizerResult, vrsId: string)
    requires normalize("BRAF V600E") == Variation(vrsId)
    ensures TransformRow(HotspotRow("BRAF", "V", "600", "E:833", 0.0, 897), true, normalize)
         == Store(vrsId, HotspotRecord("BRAF V600E", "V600", "V600E", 0.0, 833, 897))
  {
    var row := HotspotRow("BRAF", "V", "600", "E:833", 0.0, 897);
    SplitBrafAlt();
    ParseBrafCount();
    BrafQuery();
    ResolvedRowStored(row, true, normalize, "E", "833", 833);
    assert "V" + "600" == "V600";
    assert "V600" + "E" == "V600E";
  }
}
