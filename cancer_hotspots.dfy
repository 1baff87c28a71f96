/**
  * Cancer Hotspots: a table of hotspot records keyed by VRS variation id,
  * loaded from the latest transformed file in the public bucket, and the
  * lookup served from it.
  */
module CancerHotspots {
  import opened Wrappers
  import opened Strings
  import opened Json
  import opened Schemas
  import opened Base

  const MetaCancerHotspots: SourceMeta := SourceMeta(CancerHotspots, Some("2"))

  // ---------------------------------------------------------------------------
  // Locating the transformed data in the bucket

  const BucketFolder: string := "evidence_normalization/cancer_hotspots"

  function ObjectPrefix(dataType: SourceDataType): string {
    BucketFolder + "/" + dataType.Value() + "_"
  }

  /** The greatest key under `prefix`, as sorting the listing and popping the
      last object gives; None when nothing is listed under it. */
  function LatestKey(keys: seq<string>, prefix: string): (r: Option<string>)
    ensures r.None? <==> forall k :: k in keys ==> !StartsWith(k, prefix)
    ensures r.Some? ==> r.value in keys && StartsWith(r.value, prefix)
    ensures r.Some? ==> forall k :: k in keys && StartsWith(k, prefix) ==> LessOrEqual(k, r.value)
  {
    if |keys| == 0 then None
    else
      var rest := LatestKey(keys[1..], prefix);
      assert forall k :: k in keys[1..] ==> k in keys;
      assert forall k :: k in keys ==> k == keys[0] || k in keys[1..];
      if !StartsWith(keys[0], prefix) then rest
      else match rest
        case None => Some(keys[0])
        case Some(m) =>
          if Less(m, keys[0]) then
            assert forall k :: k in keys[1..] && StartsWith(k, prefix) ==> LessOrEqual(k, keys[0]) by {
              forall k | k in keys[1..] && StartsWith(k, prefix) && k != m
                ensures Less(k, keys[0]) {
                LessTransitive(k, m, keys[0]);
              }
            }
            Some(keys[0])
          else
            assert LessOrEqual(keys[0], m) by { if keys[0] != m { LessTotal(keys[0], m); } }
            Some(m)
  }

  /** `zip_fn[:-4]`: the name without its last four characters (empty when it
      is shorter). */
  function DropExtension(zipName: string): string {
    if |zipName| >= 4 then zipName[..|zipName| - 4] else ""
  }

  /** The local file name for an object key: its last path segment without
      the archive extension. */
  function LocalFileName(key: string): string {
    var segments := Split(key, "/");
    DropExtension(segments[|segments| - 1])
  }

  /** For a key `folder/name.zip`, the local file name is `name`. */
  lemma LocalFileNameOfArchive(folder: string, name: string)
    requires !Contains(name, "/")
    ensures LocalFileName(folder + "/" + name + ".zip") == name
  {
    var zipName := name + ".zip";
    IndexOfFirst(name, "/");
    assert !Contains(zipName, "/") by {
      forall k: nat ensures !OccursAt(zipName, "/", k) {
        if k + 1 <= |name| {
          assert zipName[k..k + 1] == name[k..k + 1];
          assert !OccursAt(name, "/", k);
        } else if k + 1 <= |zipName| {
          assert zipName[k..k + 1] == [zipName[k]];
        }
      }
    }
    assert folder + "/" + name + ".zip" == folder + "/" + zipName;
    SplitLastAfterSeparator(folder, "/", zipName);
    assert zipName[..|zipName| - 4] == name;
  }

  /** What `download_s3_data` does: nothing found, reuse of an already
      unpacked local file, or a fetch of the archive before unpacking it. */
  datatype DownloadPlan =
    | NotFound
    | UseLocal(fileName: string)
    | Fetch(key: string, fileName: string)
  {
    /** The path the download returns, under the source directory. */
    function DataPath(srcDir: Path): Option<Path> {
      match this
      case NotFound => None
      case UseLocal(fileName) => Some(srcDir + "/" + fileName)
      case Fetch(_, fileName) => Some(srcDir + "/" + fileName)
    }
  }

  /** `CancerHotspots.download_s3_data` over a listing of the bucket's keys;
      `isLocal(fn)` says whether `fn` already exists in the source directory. */
  function DownloadS3Data(keys: seq<string>, dataType: SourceDataType, isLocal: string -> bool): (r: DownloadPlan)
    ensures r.NotFound? <==> forall k :: k in keys ==> !StartsWith(k, ObjectPrefix(dataType))
    ensures r.Fetch? ==> r.key in keys && StartsWith(r.key, ObjectPrefix(dataType))
                         && r.fileName == LocalFileName(r.key) && !isLocal(r.fileName)
    ensures !r.NotFound? ==> var latest := LatestKey(keys, ObjectPrefix(dataType)).value;
              r.fileName == LocalFileName(latest) && (r.UseLocal? <==> isLocal(r.fileName))
    ensures r.Fetch? ==> r.key == LatestKey(keys, ObjectPrefix(dataType)).value
  {
    match LatestKey(keys, ObjectPrefix(dataType))
    case None => NotFound
    case Some(key) =>
      var fileName := LocalFileName(key);
      if isLocal(fileName) then UseLocal(fileName) else Fetch(key, fileName)
  }

  /** The listing order does not matter: any two listings of the same keys
      lead to the same file. */
  lemma DownloadIgnoresListingOrder(keys1: seq<string>, keys2: seq<string>, dataType: SourceDataType, isLocal: string -> bool)
    requires forall k :: k in keys1 <==> k in keys2
    ensures DownloadS3Data(keys1, dataType, isLocal) == DownloadS3Data(keys2, dataType, isLocal)
  {
    var prefix := ObjectPrefix(dataType);
    var l1, l2 := LatestKey(keys1, prefix), LatestKey(keys2, prefix);
    if l1.Some? && l2.Some? && l1.value != l2.value {
      // each is at most the other, so they cannot differ
      LessAsymmetric(l1.value, l2.value);
    }
  }

  // ---------------------------------------------------------------------------
  // The data source

  /** The loaded table: VRS variation id to its hotspot record. */
  type HotspotTable = map<string, Members>

  /** `transformed_data.get(vrs_variation_id, {})`. */
  function Lookup(table: HotspotTable, vrsId: string): Members {
    if vrsId in table then table[vrsId] else []
  }

  class CancerHotspotsSource {
    const sourceMeta: SourceMeta
    var transformedData: HotspotTable

    /** Resolves the transformed data file and loads it; with no file the
        table is empty. `load` reads and parses a file; `isFile` says whether
        a path exists; `keys` lists the bucket. */
    constructor (ignore: bool, supplied: Option<Path>, srcDir: Path, keys: seq<string>,
                 isFile: Path -> bool, load: Path -> HotspotTable)
      ensures sourceMeta == MetaCancerHotspots
      ensures var download := DownloadS3Data(keys, SourceDataType.MutationHotspots, fn => isFile(srcDir + "/" + fn));
        var path := TransformedDataPath(ignore, supplied, isFile, Ok(download.DataPath(srcDir)));
        transformedData == if path.Ok? && path.value.Some? then load(path.value.value) else map[]
    {
      sourceMeta := MetaCancerHotspots;
      var download := DownloadS3Data(keys, SourceDataType.MutationHotspots, fn => isFile(srcDir + "/" + fn));
      var path := TransformedDataPath(ignore, supplied, isFile, Ok(download.DataPath(srcDir)));
      if path.Ok? && path.value.Some? {
        transformedData := load(path.value.value);
      } else {
        transformedData := map[];
      }
    }

    /** `mutation_hotspots`: the stored record for the id, or no data. */
    method MutationHotspots(vrsId: string, codec: Codec) returns (resp: Response)
      ensures fresh(resp) && unchanged(this)
      ensures resp.data == Lookup(transformedData, vrsId)
      ensures resp.sourceMeta == sourceMeta
      ensures resp.id == EnvelopeId(None, resp.data, sourceMeta, codec)
    {
      resp := new Response(Lookup(transformedData, vrsId), sourceMeta);
      resp := FormatResponse(resp, codec);
    }
  }

  /** With non-empty records, a response has an id exactly when the variation
      is in the table, and then its data is the stored record. */
  lemma IdIffKnownVariation(table: HotspotTable, vrsId: string, codec: Codec)
    requires forall k :: k in table ==> |table[k]| > 0
    ensures EnvelopeId(None, Lookup(table, vrsId), MetaCancerHotspots, codec).Some? <==> vrsId in table
    ensures vrsId in table ==> Lookup(table, vrsId) == table[vrsId]
    ensures vrsId !in table ==> Lookup(table, vrsId) == []
  {
  }

  /** With transformed data ignored, or a supplied path that does not exist,
      nothing is loaded and the bucket is not consulted. */
  lemma NoFileEmptyTable(ignore: bool, supplied: Option<Path>, srcDir: Path, keys: seq<string>, isFile: Path -> bool)
    requires ignore || (supplied.Some? && !isFile(supplied.value))
    ensures var download := DownloadS3Data(keys, SourceDataType.MutationHotspots, fn => isFile(srcDir + "/" + fn));
      TransformedDataPath(ignore, supplied, isFile, Ok(download.DataPath(srcDir))) == Ok(None)
  {
  }
}
