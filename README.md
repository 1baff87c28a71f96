# Evidence normalization — a Dafny model of the core

Evidence normalization answers questions about genomic variants and genes
from several data sources and wraps every answer in a response envelope.
The envelope holds the answer's `data`, the `source_meta_` label and
version of the source, and an `id`. The `id` is derived from an MD5 digest
of the envelope's canonical JSON text, and only when `data` is non-empty.
This project models the parts of the service that compute things. It also
proves what they promise:

- **Response envelope** (`Base`, `Schemas`, `Json`): `format_response`
  serialises the envelope the way `json.dumps(..., sort_keys=True,
  separators=(",", ":"))` does, with the default ASCII escaping. It hashes
  the text with an MD5 oracle and sets the id to
  `normalize.evidence:<hex digest>`. The same module resolves the path of a
  source's transformed-data file (`get_transformed_data_path`). Its base
  download hook always raises.
- **cBioPortal** (`CBioPortal`): `cancer_types_summary`.
  - It upper-cases the gene symbol and collects the barcodes of the
    mutated samples from the mutations table.
  - It stops early when there are none.
  - Otherwise it scans the case lists. For each list whose name contains
    `:`, it takes the text after the last `": "` as the tumour type. It
    counts how many of the list's tab-separated sample ids are mutated,
    and a later list overwrites an earlier one with the same tumour type.
  - For each tumour type it reports the count, the total and the
    percentage altered.
- **Cancer Hotspots** (`CancerHotspots`):
  - choosing the newest transformed-data object in the bucket;
  - deriving its local file name;
  - the constructor falling back to an empty table when no file is
    available;
  - `mutation_hotspots`, which looks up a VRS identifier.
- **Cancer Hotspots ETL** (`CancerHotspotsEtl`): builds the transformed
  table.
  - Each SNV or indel row becomes a query text, which goes to the
    variation normalizer.
  - A resolved row is stored under its VRS id, with its codon, mutation,
    q-value and counts.
  - A row the normalizer cannot resolve is skipped.
  - A malformed `Variant_Amino_Acid` or count stops the sheet.
  - When the data file exists, the SNV sheet runs first and then the
    indel sheet.
- **gnomAD** (`Gnomad`):
  - the table of population ids and labels;
  - the mapping from reference genome to dataset and back;
  - `population_data`, which adds allele counts into per-population
    buckets;
  - the post-processing of `frequency_data`. It merges the genome and
    exome blocks, computes the total frequency, and finds the population
    with the highest frequency. Zero allele numbers lead to
    `ZeroDivisionError`, and a missing maximal population to `KeyError`.

Python dictionaries whose order is observable, the JSON objects and the
cBioPortal tumour-type totals, are modelled as insertion-ordered association
lists (`PyDict`), so iteration order and "last write wins" are explicit.
The Cancer Hotspots table (`HotspotTable`) and the ETL's `transformed_data`
are Dafny `map`s. Their order is never observed in the model. The service
only reads them with `.get` and assignment. Writing the ETL table to a JSON
file is not modelled. The
service runs two generations of the same code: under `src/evidence/` and
under `evidence/`. Where both copies exist and agree, one Dafny member
models both, and the table cites both.

Several things are parameters of the model rather than computations:

- MD5 and the `repr` of a float are fields of a `Codec`.
- The variation normalizer is a function from query text to an outcome.
- A CSV file is a sequence of rows of text cells.
- The bucket listing is a sequence of keys.
- File existence and file loading are predicates and functions on paths.

## Model

| member | source | states |
|---|---|---|
| Base.FormatResponse | src/evidence/data_sources/base.py:17-29 | updates only the envelope's id, in place, and returns the same object: with data the id becomes the hashed id, without data the old id stays |
| Base.EnvelopeId | evidence/data_sources/base.py:18-23 | empty data leaves the id untouched; non-empty data yields `normalize.evidence:` followed by exactly 32 lowercase hex digits |
| Base.HashedText | src/evidence/data_sources/base.py:24-26 | the text that is hashed is pure ASCII, so its UTF-8 encoding is byte for byte the text |
| Base.HashedTextIsSortedEnvelope | src/evidence/data_sources/base.py:24-26 | the hashed text is the compact JSON of the envelope with keys in the order data, id, source_meta_ and every nested object key-sorted |
| Base.SortEnvelopeKeys | src/evidence/data_sources/base.py:24-25 | sorting the three envelope keys puts `data` before `id` before `source_meta_` (a supporting step of Base.CanonEnvelope, not a property on its own) |
| Base.CanonEnvelope | src/evidence/schemas.py:26-33 | the canonical form of a dumped response is the three-member object data / id / source_meta_ |
| Base.IdIgnoresKeyOrder | src/evidence/data_sources/base.py:23-28 | two data dicts with the same keys and canonically equal values get the same id, whatever their insertion order |
| Base.ReformatHashesDifferentText | src/evidence/data_sources/base.py:23-28 | formatting is not idempotent: a second call hashes a text that now contains the first id in place of `null`, a different text from the first call's |
| Base.WriteNullVersusString | src/evidence/data_sources/base.py:24-26 | two three-member objects that differ only in a `null` versus a string second member serialise to different texts |
| Base.BaseDownloadS3Data | src/evidence/data_sources/base.py:51-58 | the base download hook always fails with NotImplementedError |
| Base.TransformedDataPath | src/evidence/data_sources/base.py:60-81 | ignoring gives no path; a supplied path is used exactly when it exists, otherwise no path; with no supplied path the download's outcome, error included, is the result |
| Base.DownloadOnlyWithoutPath | src/evidence/data_sources/base.py:70-80 | when data is ignored or a path is supplied, the download result has no influence |
| Base.ResolvedPathOrigin | src/evidence/data_sources/base.py:70-81 | any path returned is either the supplied, existing path or the download's result; with the base hook and no supplied path resolution raises NotImplementedError |
| Schemas.ResponseJson | src/evidence/data_sources/base.py:25 | `resp.model_dump()`: the object with fields id, data and source_meta_ in declaration order, a missing id dumped as `null` |
| Schemas.Response.constructor | src/evidence/schemas.py:26-33 | a new response carries the given data and source meta and no id |
| Json.CanonIgnoresMemberOrder | src/evidence/data_sources/base.py:24-25 | with `sort_keys` two objects with the same keys and canonically equal values serialise identically regardless of insertion order |
| Json.SortStrictlySorted | src/evidence/data_sources/base.py:24-25 | sorting a dict with distinct keys gives a strictly key-ordered member list |
| Json.SortedUnique | src/evidence/data_sources/base.py:24-25 | two strictly key-ordered member lists with the same members are equal, so the sorted order is unique |
| Json.InsertSorted | src/evidence/data_sources/base.py:24-25 | inserting a member with a new key into a strictly ordered list keeps it strictly ordered |
| Json.SortByKey | src/evidence/data_sources/base.py:24-25 | sorting by key keeps exactly the same members |
| Json.Insert | src/evidence/data_sources/base.py:24-25 | insertion adds exactly one member and loses none |
| Json.CanonMembers | src/evidence/data_sources/base.py:24-25 | canonicalising the values of an object keeps its keys in order |
| Json.CanonMembersDistinct | src/evidence/data_sources/base.py:24-25 | canonicalising values keeps the keys distinct |
| Json.CanonMemberShared | src/evidence/data_sources/base.py:24-25 | a canonical member of one dict is a canonical member of any dict that agrees with it key by key |
| Json.Canon | src/evidence/data_sources/base.py:24-25 | reference definition of `sort_keys=True`: every object's members are put in key order, recursively; what that order means is proved in Json.SortStrictlySorted, Json.SortedUnique and Json.CanonIgnoresMemberOrder |
| Json.Write | src/evidence/data_sources/base.py:24-26 | reference definition of the compact writer (`separators=(",", ":")`, `indent=None`); Json.WriteIsAscii proves its output ASCII |
| Json.Dump | src/evidence/data_sources/base.py:24-26 | reference definition of `json.dumps(..., sort_keys=True)`: canonicalise, then write; Json.DumpIsAscii proves it ASCII |
| Json.EscapeChar | src/evidence/data_sources/base.py:24-26 | every character, including one outside the Basic Multilingual Plane written as a surrogate pair of `\u` escapes, is escaped to ASCII |
| Json.Quote | src/evidence/data_sources/base.py:24-26 | a quoted string is ASCII |
| Json.Escape | src/evidence/data_sources/base.py:24-26 | string escaping (`ensure_ascii`) always produces ASCII |
| Json.WriteIsAscii | src/evidence/data_sources/base.py:24-26 | every serialised JSON value is ASCII |
| Json.DumpIsAscii | src/evidence/data_sources/base.py:24-26 | the full dump is ASCII |
| Json.Hex4 | src/evidence/data_sources/base.py:24-26 | the four characters of a `\u` escape are lowercase hex digits whose base-16 value is the escaped code unit |
| Json.HexDigit | src/evidence/data_sources/base.py:24-26 | a digit of a `\u` escape is a lowercase hex digit that stands for exactly the number it encodes |
| CBioPortal.ColumnIndex | src/evidence/data_sources/cbioportal.py:98-99 | `headers.index(name)` finds the first occurrence and is missing exactly when the name is not a header |
| CBioPortal.Cell | evidence/data_sources/cbioportal.py:98-99 | a missing header raises; with the header present the cell is the row's value in the FIRST column of that name, and a row too short for that column raises IndexError (ShortRow) |
| CBioPortal.MutationRowSample | src/evidence/data_sources/cbioportal.py:98-100 | reference definition of one mutations row: its barcode when its gene equals the symbol, nothing otherwise, and the lookup errors of each `headers.index` and `row[...]` |
| CBioPortal.ScanMutations | evidence/data_sources/cbioportal.py:97-100 | reference definition of the mutations loop, characterised by CBioPortal.ScanMutationsCollects, CBioPortal.MutationErrorPersists and CBioPortal.MissingGeneColumn |
| CBioPortal.MutatedSamples | src/evidence/data_sources/cbioportal.py:93-100 | reference definition of the mutated-sample set: the first row is the header row, and an empty file raises (StopIteration from `next`) |
| CBioPortal.CollectMutatedSamples | src/evidence/data_sources/cbioportal.py:93-100 | the loop over the mutations table returns exactly the set specified by scanning the rows |
| CBioPortal.ScanMutationsCollects | evidence/data_sources/cbioportal.py:93-100 | with both columns present, every row reaching the gene column, and every row of the requested gene reaching the barcode column (other rows may stop short, since the source never reads their barcode), the scan succeeds and a barcode is collected if and only if some row has that barcode and the gene symbol |
| CBioPortal.MissingGeneColumn | src/evidence/data_sources/cbioportal.py:98 | without a `Hugo_Symbol` header every non-empty table fails with the missing column |
| CBioPortal.MutationErrorPersists | src/evidence/data_sources/cbioportal.py:93-100 | an exception raised on some row ends the scan with that exception |
| CBioPortal.TumorType | src/evidence/data_sources/cbioportal.py:114 | the tumour type is the text after the last `": "`, contains no `": "`, and is the whole name when there is none |
| CBioPortal.CaseListRow | evidence/data_sources/cbioportal.py:112-122 | a retained case list's total (its number of tab-separated ids, at least one since splitting always yields a part) is positive, and its mutated count does not exceed it |
| CBioPortal.Occurrences | src/evidence/data_sources/cbioportal.py:120-122 | the count is at most the number of ids, equals it iff all are mutated, and is zero iff none is |
| CBioPortal.CountMutated | src/evidence/data_sources/cbioportal.py:120-122 | the counting loop returns the number of mutated ids in the list |
| CBioPortal.ScanCaseLists | src/evidence/data_sources/cbioportal.py:107-122 | the tumour-type dict has distinct keys and every entry has 1 <= total and count <= total |
| CBioPortal.CaseListTotals | evidence/data_sources/cbioportal.py:107-126 | reference definition of the case-list totals: the first row is the header row, and an empty file raises |
| CBioPortal.LastEntryFor | src/evidence/data_sources/cbioportal.py:111-119 | reference definition of the totals of the last case list naming a tumour type, the partner of CBioPortal.LastWriteWins |
| CBioPortal.PercentAltered | src/evidence/data_sources/cbioportal.py:123-126 | the percentage is count / total times 100; its range is proved in CBioPortal.PercentInRange |
| CBioPortal.CountJson | evidence/data_sources/cbioportal.py:116-126 | a tumour type's entry holds `count`, `total` and `percent_altered`, in that insertion order |
| CBioPortal.CancerTypesSummary | evidence/data_sources/cbioportal.py:85-129 | reference definition of the whole summary: no mutations file raises, an empty mutated set gives empty data, otherwise the case-list totals; characterised by CBioPortal.SummaryEntry, CBioPortal.NoMutationsShortCircuits and CBioPortal.SymbolCaseInsensitive |
| CBioPortal.SummarizeCaseLists | src/evidence/data_sources/cbioportal.py:107-122 | the case-list loop returns exactly the specified tumour-type totals, or the first error |
| CBioPortal.CaseListErrorPersists | evidence/data_sources/cbioportal.py:107-122 | an exception on some case list ends the scan with that exception |
| CBioPortal.LastWriteWins | src/evidence/data_sources/cbioportal.py:116-119 | the stored totals for a tumour type are those of the last case list naming it |
| CBioPortal.PercentInRange | src/evidence/data_sources/cbioportal.py:123-126 | the percentage altered lies in [0, 100], is 100 iff all samples are mutated, and is 0 iff none is |
| CBioPortal.SummaryData | src/evidence/data_sources/cbioportal.py:123-127 | the response data has exactly the tumour types of the totals, in the same order |
| CBioPortal.CancerTypesSummaryResponse | src/evidence/data_sources/cbioportal.py:85-129 | an error of the summary is returned as is; otherwise a fresh envelope with the summary, the cBioPortal meta and the hashed id |
| CBioPortal.SymbolCaseInsensitive | evidence/data_sources/cbioportal.py:91 | the summary does not depend on the case of the gene symbol |
| CBioPortal.NoMutationsShortCircuits | src/evidence/data_sources/cbioportal.py:102-105 | with no mutated samples the data is empty and the case lists are never read |
| CBioPortal.SummaryEntry | evidence/data_sources/cbioportal.py:107-129 | a tumour type appears in the data iff some case list names it, with the counts and percentage of the last such list |
| CancerHotspots.ObjectPrefix | evidence/data_sources/cancer_hotspots.py:66 | the bucket prefix is `evidence_normalization/cancer_hotspots/<data type>_` |
| CancerHotspots.DropExtension | evidence/data_sources/cancer_hotspots.py:75 | the last four characters are dropped, and a shorter name becomes empty, as slicing with `[:-4]` does |
| CancerHotspots.LocalFileName | evidence/data_sources/cancer_hotspots.py:73-75 | reference definition of the local name: the last `/`-separated piece of the key without its extension; CancerHotspots.LocalFileNameOfArchive gives its meaning |
| CancerHotspots.LatestKey | evidence/data_sources/cancer_hotspots.py:66-72 | picks a listed key with the data type's prefix that is greatest in string order; none exactly when no key has the prefix |
| CancerHotspots.LocalFileNameOfArchive | evidence/data_sources/cancer_hotspots.py:74-75 | the local name of `<folder>/<name>.zip` is `<name>` |
| CancerHotspots.DownloadS3Data | evidence/data_sources/cancer_hotspots.py:54-93 | not found iff no key has the prefix; otherwise the plan is for the greatest key with the prefix (the one `sorted(...).pop()` takes) and its local name, fetched only when that file is not already present |
| CancerHotspots.DownloadIgnoresListingOrder | evidence/data_sources/cancer_hotspots.py:66-72 | the chosen object does not depend on the order or repetition of the bucket listing |
| CancerHotspots.CancerHotspotsSource.constructor | evidence/data_sources/cancer_hotspots.py:44-52 | the table is the loaded file at the resolved path, or empty when no path is resolved |
| CancerHotspots.NoFileEmptyTable | evidence/data_sources/cancer_hotspots.py:45-52 | ignoring transformed data or supplying a missing file gives an empty table without downloading |
| CancerHotspots.CancerHotspotsSource.MutationHotspots | evidence/data_sources/cancer_hotspots.py:95-106 | returns a fresh envelope holding the table's entry for the id (or nothing), the source meta and the hashed id, leaving the source unchanged |
| CancerHotspots.Lookup | evidence/data_sources/cancer_hotspots.py:101-104 | `transformed_data.get(id, {})`: the stored entry, or empty data |
| CancerHotspots.IdIffKnownVariation | evidence/data_sources/cancer_hotspots.py:95-106 | for a table of non-empty records, as the ETL writes them, the response gets an id exactly when the VRS id is in the table, and the data is that record or empty |
| CancerHotspotsEtl.VariationQuery | src/evidence/dev/etl/cancer_hotspots.py:112-117 | reference definition of the query text: gene, a space, then ref+position+change for SNVs or the change alone for indels, the change being the text before the first `:` |
| CancerHotspotsEtl.TransformRow | evidence/dev/etl/cancer_hotspots.py:108-146 | reference definition of one row: a normalizer exception or no variation skips it; a resolved row is stored, or raises on a malformed alt or count; characterised by CancerHotspotsEtl.StoredRecordShape and CancerHotspotsEtl.ResolvedRowStored |
| CancerHotspotsEtl.TransformSheet | src/evidence/dev/etl/cancer_hotspots.py:107-156 | reference definition of the row loop, stopping at the first row that raises; the partner of CancerHotspotsEtl.CancerHotspotsEtl.GetTransformedData |
| CancerHotspotsEtl.AddVrsIdentifiers | src/evidence/dev/etl/cancer_hotspots.py:64-84 | reference definition of the whole run: it raises before any change when the file is missing, then runs the SNV sheet, then the indel sheet |
| CancerHotspotsEtl.LastStored | src/evidence/dev/etl/cancer_hotspots.py:128-152 | reference definition of the record of the last row resolving to an id, the partner of CancerHotspotsEtl.SheetLastWriteWins |
| CancerHotspotsEtl.CancerHotspotsEtl.constructor | src/evidence/dev/etl/cancer_hotspots.py:49 | the ETL starts with an empty table |
| CancerHotspotsEtl.CancerHotspotsEtl.GetTransformedData | src/evidence/dev/etl/cancer_hotspots.py:98-156 | the row loop leaves the table and the error exactly as the sheet specification does |
| CancerHotspotsEtl.CancerHotspotsEtl.AddVrsIdentifierToData | src/evidence/dev/etl/cancer_hotspots.py:64-96 | a missing data file raises before any change; otherwise the SNV sheet and then the indel sheet are transformed, stopping at the first error |
| CancerHotspotsEtl.SheetErrorPersists | evidence/dev/etl/cancer_hotspots.py:129-143 | once a row raises, the rest of the sheet does not change the outcome |
| CancerHotspotsEtl.AbortStopsSheet | src/evidence/dev/etl/cancer_hotspots.py:137-151 | a row that raises keeps the rows before it and drops those after it |
| CancerHotspotsEtl.StoredRecordShape | src/evidence/dev/etl/cancer_hotspots.py:112-152 | a stored record is the query text, the codon (ref+position for SNVs), the mutation starting with the codon, the parsed observations and the normalizer's VRS id |
| CancerHotspotsEtl.ResolvedRowStored | src/evidence/dev/etl/cancer_hotspots.py:128-152 | a resolved row whose alt splits into a change and a number is stored with exactly those values |
| CancerHotspotsEtl.BrafV600eRow | evidence/dev/etl/cancer_hotspots.py:108-144 | the SNV row BRAF / V / 600 / `E:833` is stored as `BRAF V600E`, codon V600, mutation V600E, 833 observations |
| CancerHotspotsEtl.BrafQuery | src/evidence/dev/etl/cancer_hotspots.py:112-114 | the SNV query text for BRAF V600 with alt `E:833` is `BRAF V600E` (a supporting step of CancerHotspotsEtl.BrafV600eRow, not a property on its own) |
| CancerHotspotsEtl.SplitBrafAlt | src/evidence/dev/etl/cancer_hotspots.py:137 | `E:833` splits into the change and the count (a supporting step of CancerHotspotsEtl.BrafV600eRow, not a property on its own) |
| CancerHotspotsEtl.ParseBrafCount | src/evidence/dev/etl/cancer_hotspots.py:150 | the count text `833` parses to 833 (a supporting step of CancerHotspotsEtl.BrafV600eRow, not a property on its own) |
| CancerHotspotsEtl.SheetLastWriteWins | src/evidence/dev/etl/cancer_hotspots.py:130-152 | a duplicate VRS id keeps the record of the last row that resolves to it; ids no row resolves to keep their earlier entries |
| CancerHotspotsEtl.IndelOverridesSnv | evidence/dev/etl/cancer_hotspots.py:79-82 | an id resolved by both sheets keeps the indel record; an id only the SNV sheet resolves keeps the SNV record |
| CancerHotspotsEtl.RecordJson | src/evidence/dev/etl/cancer_hotspots.py:145-152 | a stored record has the six keys in the source's order |
| CancerHotspotsEtl.TableJson | evidence/data_sources/cancer_hotspots.py:48-52 | the loaded table has exactly the ETL table's VRS ids |
| CancerHotspotsEtl.ServedFromTransformedTable | evidence/data_sources/cancer_hotspots.py:95-106 | looking up a transformed table returns the record's JSON for a stored id and nothing otherwise, with an id exactly for stored ids |
| Gnomad.ReferenceGenomeToDataset | evidence/data_sources/gnomad.py:42-54 | GRCh38 maps to gnomad_r3, GRCh37 to gnomad_r2_1, anything else to None |
| Gnomad.DatasetToReferenceGenome | evidence/data_sources/gnomad.py:56-68 | gnomad_r3 maps to GRCh38, gnomad_r2_1 to GRCh37, anything else to None |
| Gnomad.GenomeDatasetInverse | evidence/data_sources/gnomad.py:42-68 | the genome-to-dataset and dataset-to-genome mappings are inverse, defined exactly on GRCh38/GRCh37 and gnomad_r3/gnomad_r2_1 |
| Gnomad.PopulationIdsHaveLabels | evidence/data_sources/gnomad.py:20-40 | every population id has a label |
| Gnomad.InitialTotals | evidence/data_sources/gnomad.py:303-314 | a new accumulator has zero totals and one zero bucket per population id, in table order |
| Gnomad.AddEntry | evidence/data_sources/gnomad.py:319-327 | adding one population entry keeps the buckets and their ids |
| Gnomad.AddEntries | evidence/data_sources/gnomad.py:319-327 | each bucket's counts grow by exactly the sum of the entries with its id |
| Gnomad.UnknownPopulationIgnored | evidence/data_sources/gnomad.py:323-327 | an entry whose id has no bucket changes nothing |
| Gnomad.PopulationAccumulator.constructor | evidence/data_sources/gnomad.py:303-314 | a fresh accumulator holds the initial totals |
| Gnomad.PopulationAccumulator.AddEntryInPlace | evidence/data_sources/gnomad.py:323-327 | updates the buckets in place as one entry specifies, leaving the totals |
| Gnomad.PopulationAccumulator.AddBlock | evidence/data_sources/gnomad.py:316-327 | merging a block in place gives the specified merged totals; a missing block changes nothing |
| Gnomad.PopulationData | evidence/data_sources/gnomad.py:296-328 | uses the given accumulator or creates one and merges the block into it |
| Gnomad.MergeBlock | evidence/data_sources/gnomad.py:316-327 | reference definition of merging one block: a missing (falsy) block changes nothing, otherwise totals and matching buckets are added |
| Gnomad.MergedTotals | evidence/data_sources/gnomad.py:378-380 | reference definition of the merge loop: initial totals, then genome, then exome |
| Gnomad.MergedTotalsAreSums | evidence/data_sources/gnomad.py:378-380 | after merging genome and exome, each total and each bucket count is the sum over both blocks |
| Gnomad.MergeOrderIrrelevant | evidence/data_sources/gnomad.py:378-380 | merging genome then exome equals merging exome then genome |
| Gnomad.HigherFrequency | evidence/data_sources/gnomad.py:392 | the comparison of two frequencies, written by cross-multiplying |
| Gnomad.Frequency | evidence/data_sources/gnomad.py:388 | a population's frequency is ac / an |
| Gnomad.HigherFrequencyIsRatio | evidence/data_sources/gnomad.py:385-393 | the cross-multiplied comparison is the comparison of frequencies ac/an |
| Gnomad.MaxBucket | evidence/data_sources/gnomad.py:385-393 | a chosen bucket has positive allele number and count |
| Gnomad.MaxBucketIsFirstMax | evidence/data_sources/gnomad.py:385-393 | none is chosen iff no bucket has positive frequency; otherwise the first bucket of maximal frequency |
| Gnomad.MaxPopulationFrequency | evidence/data_sources/gnomad.py:385-393 | the loop returns the specified maximal bucket |
| Gnomad.Summarize | evidence/data_sources/gnomad.py:381-403 | reference definition of the post-processing, characterised by Gnomad.SummarizeOutcome |
| Gnomad.FrequencyData | evidence/data_sources/gnomad.py:378-403 | the post-processing returns the summary of the merged totals |
| Gnomad.SummarizeOutcome | evidence/data_sources/gnomad.py:381-403 | ZeroDivisionError iff the total allele number is 0; KeyError iff no population has positive frequency; otherwise the total and a labelled population of maximal frequency |
| Gnomad.SummaryOutcome | evidence/data_sources/gnomad.py:378-383 | the merged totals raise ZeroDivisionError exactly when both blocks have allele number 0 |
| PyDict.Set | src/evidence/data_sources/cbioportal.py:116-119 | assignment keeps the key order and appends a new key at the end |
| PyDict.GetSetSame | src/evidence/data_sources/cbioportal.py:116-119 | reading a key just assigned gives its new value |
| PyDict.GetSetOther | evidence/data_sources/cbioportal.py:116-119 | assignment leaves other keys' values alone |
| PyDict.DistinctKeysSet | src/evidence/data_sources/cbioportal.py:116-119 | assignment keeps keys distinct |
| PyDict.Get | evidence/data_sources/gnomad.py:400 | a dict lookup such as `population_ids[...]`: the value of the first entry with the key, or none (KeyError) |
| PyDict.Find | evidence/data_sources/gnomad.py:395-403 | lookup finds the (first) entry with the key, or shows that none has it |
| Strings.Contains | src/evidence/data_sources/cbioportal.py:113 | the `in` test for a substring: some occurrence of the separator exists, which Strings.IndexOfFirst relates to every position |
| Strings.Split | src/evidence/data_sources/cbioportal.py:114-115 | `str.split` gives at least one part |
| Strings.SplitJoin | src/evidence/data_sources/cbioportal.py:114-115 | joining the parts of a split with the separator restores the text |
| Strings.SplitLastIsSuffix | src/evidence/data_sources/cbioportal.py:114 | the last part follows the last separator at the end of the text |
| Strings.SplitLastHasNoSeparator | evidence/data_sources/cbioportal.py:114 | the last part contains no separator |
| Strings.SplitWithoutSeparator | src/evidence/data_sources/cbioportal.py:115 | text without the separator splits into itself |
| Strings.SplitAtLeastTwo | src/evidence/data_sources/cbioportal.py:114 | text containing the separator splits into at least two parts |
| Strings.SplitLastAfterSeparator | evidence/data_sources/cancer_hotspots.py:74 | the last part after a one-character separator is the text that follows it |
| Strings.Upper | src/evidence/data_sources/cbioportal.py:91 | upper-casing keeps the length, leaves no lowercase ASCII letter, and leaves unchanged a text that has none |
| Strings.UpperIdempotent | evidence/data_sources/cbioportal.py:91 | upper-casing twice is upper-casing once |
| Strings.LessTotal | evidence/data_sources/cancer_hotspots.py:67-70 | the string order used by `sorted` is total on distinct strings |
| Strings.LessTransitive | evidence/data_sources/cancer_hotspots.py:67-70 | the string order is transitive |
| Strings.LessIrreflexive | evidence/data_sources/cancer_hotspots.py:67-70 | the string order is irreflexive |
| Strings.LessAsymmetric | evidence/data_sources/cancer_hotspots.py:67-70 | the string order is asymmetric |
| Strings.ParseInt | src/evidence/dev/etl/cancer_hotspots.py:150 | `int()` of a text: an optional sign followed by decimal digits, otherwise no value (ValueError) |
| Strings.ParseIntToString | src/evidence/dev/etl/cancer_hotspots.py:150 | `int` of the decimal text of any integer gives that integer back |
| Strings.NatToStringValue | evidence/dev/etl/cancer_hotspots.py:142 | the digits of a natural number denote that number |
| Strings.ParseDigits | src/evidence/dev/etl/cancer_hotspots.py:150 | a non-empty digit string parses to its value |
| Strings.ParseNegativeDigits | src/evidence/dev/etl/cancer_hotspots.py:150 | a minus sign before digits parses to the negated value |
| Strings.IndexOfFirst | src/evidence/data_sources/cbioportal.py:114 | the separator search finds the first occurrence, or shows there is none |

## Left out

- Network and storage I/O is not modelled: S3 listing and download, HTTP requests, zip extraction, and reading and writing files. Listings, file existence and loaded tables are inputs.
- Hashing and number formatting are oracle fields of `Codec`:
  - MD5, whose digest is only required to be 32 lowercase hex digits;
  - Python's float `repr` inside `json.dumps`.
- Frequencies and percentages are exact rationals. Python's binary floating point and the `:.9f` text formatting of gnomAD frequencies are not modelled.
- The variation normalizer is a function from a query to one of three outcomes: it raises, it finds no variation, or it resolves to a VRS id. It is awaited in the source, and that concurrency is not modelled.
- pandas and csv parsing are not modelled. Sheets and tables are already-parsed rows of text cells. `float(row["qvalue"])` is taken as given, and so is `int(row["Mutation_Count"])`.
- Logging is not modelled. This includes the warning for a duplicate VRS id and the error for a supplied path that does not exist.
- Strings.Upper: maps only ASCII letters, not the full Unicode case mapping of `str.upper`.
- Strings.ParseInt: accepts an optional `+` or `-` sign followed by ASCII decimal digits. It does not accept surrounding whitespace, underscores between digits or non-ASCII digits, all of which `int()` accepts.
- Base.EnvelopeId: "falsy" data is modelled as an empty member list. A falsy `data` of another kind is represented the same way.
- The cBioPortal download of its own data files and their file names (`download_s3_data` in cbioportal.py) is not modelled; the mutations and case-list files are inputs.
- The Cancer Hotspots download hook is modelled as a plan: not found, use the local file, or fetch. The actual fetching and unzipping are not modelled.
- The ETL's `download_data` and its JSON file writing are not modelled:
  - `download_data` fetches the spreadsheet over HTTP;
  - the JSON file writing names the file with today's date.
- gnomAD is modelled only in the parts listed above. Three things are left out:
  - the GraphQL queries and the construction of the gnomAD variant id;
  - the assembly of the `data` dict with its URL;
  - the response envelope. The module refers to `Sources.GNOMAD`, which `schemas.py` does not define, so that envelope cannot be built as written. The two gnomAD enums (`ReferenceGenome`, `GnomadDataset`) are not in `schemas.py` either; they are declared in the `Gnomad` module here.
- Gnomad.Summarize: the source writes the label of the maximal population into the bucket dict it just read. That aliasing is not modelled; only the returned values are.
- The Python dict dump uses the field name `id`, not the `_id` alias of the response schema, because `model_dump()` is called without `by_alias`.
