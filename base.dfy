/**
  * The base data source: the content-addressed response id and the choice of
  * the transformed data file a downloadable source loads.
  */
module Base {
  import opened Wrappers
  import opened Strings
  import opened Json
  import opened Schemas
  import PyDict

  const IdPrefix: string := "normalize.evidence:"

  /** The text that is hashed: the whole response, current id included, dumped
      with sorted keys and no whitespace. */
  function HashedText(id: Option<string>, data: Members, meta: SourceMeta, floatRepr: real -> AsciiText): (r: string)
    ensures IsAscii(r)
  {
    DumpIsAscii(ResponseJson(id, data, meta), floatRepr);
    Dump(ResponseJson(id, data, meta), floatRepr)
  }

  /** The id `format_response` leaves on a response: unchanged when `data` is
      empty, otherwise the prefix followed by the MD5 hex digest of the hashed
      text. */
  function EnvelopeId(id: Option<string>, data: Members, meta: SourceMeta, codec: Codec): (r: Option<string>)
    ensures |data| == 0 ==> r == id
    ensures |data| > 0 ==>
              r.Some? && |r.value| == |IdPrefix| + 32 &&
              StartsWith(r.value, IdPrefix) && IsHexDigest(r.value[|IdPrefix|..])
  {
    if |data| == 0 then id
    else
      var digest := codec.md5(EncodeAscii(HashedText(id, data, meta, codec.floatRepr)));
      assert (IdPrefix + digest)[|IdPrefix|..] == digest;
      Some(IdPrefix + digest)
  }

  /** `DataSource.format_response`: sets `id` in place when there is data and
      returns the same object; nothing else changes. */
  method FormatResponse(resp: Response, codec: Codec) returns (r: Response)
    modifies resp`id
    ensures r == resp
    ensures resp.id == EnvelopeId(old(resp.id), resp.data, resp.sourceMeta, codec)
    ensures resp.data == old(resp.data) && resp.sourceMeta == old(resp.sourceMeta)
  {
    if |resp.data| > 0 {
      var blob := EncodeAscii(HashedText(resp.id, resp.data, resp.sourceMeta, codec.floatRepr));
      var digest := codec.md5(blob);
      resp.id := Some(IdPrefix + digest);
    }
    r := resp;
  }

  /** Equal responses get equal ids whatever the insertion order of their
      `data` dicts: the two dicts have the same keys, and under each key values
      with the same canonical form (equal, or equal up to key order inside). */
  lemma IdIgnoresKeyOrder(id: Option<string>, data1: Members, data2: Members, meta: SourceMeta, codec: Codec)
    requires PyDict.DistinctKeys(data1) && PyDict.DistinctKeys(data2)
    requires forall k :: PyDict.Get(data1, k).Some? <==> PyDict.Get(data2, k).Some?
    requires forall k :: PyDict.Get(data1, k).Some? ==>
               Canon(PyDict.Get(data1, k).value) == Canon(PyDict.Get(data2, k).value)
    ensures EnvelopeId(id, data1, meta, codec) == EnvelopeId(id, data2, meta, codec)
  {
    CanonIgnoresMemberOrder(data1, data2);
    var j1, j2 := ResponseJson(id, data1, meta), ResponseJson(id, data2, meta);
    assert CanonMembers(j1.members) == CanonMembers(j2.members);
    assert |data1| == 0 <==> |data2| == 0 by {
      if |data1| > 0 { assert PyDict.Get(data1, data1[0].0).Some?; }
      if |data2| > 0 { assert PyDict.Get(data2, data2[0].0).Some?; }
    }
  }

  lemma SortEnvelopeKeys<V(!new)>(a: V, b: V, c: V)
    ensures SortByKey([("id", a), ("data", b), ("source_meta_", c)])
         == [("data", b), ("id", a), ("source_meta_", c)]
  {
    assert !Less("source_meta_", "data");
    assert !Less("source_meta_", "id");
    assert Less("data", "id");
    assert Insert(("source_meta_", c), []) == [("source_meta_", c)];
    assert Insert(("data", b), [("source_meta_", c)]) == [("data", b), ("source_meta_", c)];
    assert Insert(("id", a), [("source_meta_", c)]) == [("id", a), ("source_meta_", c)];
    var s := [("id", a), ("data", b), ("source_meta_", c)];
    assert s[1..][1..][1..] == [];
    assert SortByKey(s[1..][1..]) == [("source_meta_", c)];
    assert SortByKey(s[1..]) == [("data", b), ("source_meta_", c)];
  }

  /** Sorting puts the envelope's members in the order data, id, source_meta_. */
  lemma CanonEnvelope(id: Option<string>, data: Members, meta: SourceMeta)
    ensures Canon(ResponseJson(id, data, meta))
         == Obj([("data", Canon(Obj(data))), ("id", OptionalText(id)), ("source_meta_", Canon(SourceMetaJson(meta)))])
  {
    var cm := CanonMembers(ResponseJson(id, data, meta).members);
    assert Canon(OptionalText(id)) == OptionalText(id);
    assert cm == [("id", OptionalText(id)), ("data", Canon(Obj(data))), ("source_meta_", Canon(SourceMetaJson(meta)))];
    SortEnvelopeKeys(OptionalText(id), Canon(Obj(data)), Canon(SourceMetaJson(meta)));
  }

  /** The hashed text is the envelope written with its members in key order. */
  lemma HashedTextIsSortedEnvelope(id: Option<string>, data: Members, meta: SourceMeta, fr: real -> AsciiText)
    ensures HashedText(id, data, meta, fr)
         == Write(Obj([("data", Canon(Obj(data))), ("id", OptionalText(id)), ("source_meta_", Canon(SourceMetaJson(meta)))]), fr)
  {
    CanonEnvelope(id, data, meta);
  }

  /** In three pieces joined by commas, the second piece starts one comma
      after the first. */
  lemma JoinSecondPiece(parts: seq<string>, q: string, w: string)
    requires |parts| == 3 && parts[1] == q + w && |w| > 0
    ensures var k := |parts[0]| + 1 + |q|;
      k < |Join(parts, ",")| && Join(parts, ",")[k] == w[0]
  {
    var rest := Join(parts[1..], ",");
    JoinCons(parts[0], parts[1..], ",");
    assert [parts[0]] + parts[1..] == parts;
    JoinCons(parts[1], parts[1..][1..], ",");
    assert [parts[1]] + parts[1..][1..] == parts[1..];
    assert rest[|q|] == w[0];
  }

  /** In a written three-member object whose second value is `null` or a
      string, the character after the second key is the first one of that
      value. */
  lemma WriteAtSecondMember(ms: Members, k0: string, k1: string, d: Json, i: Json, fr: real -> AsciiText)
    requires |ms| == 3 && ms[0] == (k0, d) && ms[1] == (k1, i)
    requires i.Null? || i.Str?
    ensures var k := 1 + |Quote(k0) + ":" + Write(d, fr)| + 1 + |Quote(k1) + ":"|;
      k < |Write(Obj(ms), fr)| && Write(Obj(ms), fr)[k] == (if i.Null? then 'n' else '"')
  {
    var parts := MemberTexts(ms, fr);
    WriteObj(ms, fr);
    var w := Write(i, fr);
    assert w[0] == (if i.Null? then 'n' else '"');
    JoinSecondPiece(parts, Quote(k1) + ":", w);
  }

  /** Two written three-member objects that agree on the first member and on
      the second key differ when the second value is `null` in one and a
      string in the other. */
  lemma WriteNullVersusString(ms1: Members, ms2: Members, k0: string, k1: string, d: Json, s: Json, fr: real -> AsciiText)
    requires |ms1| == 3 && ms1[0] == (k0, d) && ms1[1] == (k1, Null)
    requires |ms2| == 3 && ms2[0] == (k0, d) && ms2[1] == (k1, s) && s.Str?
    ensures Write(Obj(ms1), fr) != Write(Obj(ms2), fr)
  {
    WriteAtSecondMember(ms1, k0, k1, d, Null, fr);
    WriteAtSecondMember(ms2, k0, k1, d, s, fr);
  }

  /** `format_response` is not idempotent: the second call hashes a different
      text from the first (the dump now holds the id instead of `null`), so
      the id stays the same only if MD5 maps the two texts to one digest. */
  lemma ReformatHashesDifferentText(data: Members, meta: SourceMeta, codec: Codec)
    requires |data| > 0
    ensures var first := EnvelopeId(None, data, meta, codec);
      HashedText(first, data, meta, codec.floatRepr) != HashedText(None, data, meta, codec.floatRepr)
  {
    var fr := codec.floatRepr;
    var first := EnvelopeId(None, data, meta, codec);
    HashedTextIsSortedEnvelope(None, data, meta, fr);
    HashedTextIsSortedEnvelope(first, data, meta, fr);
    var d := Canon(Obj(data));
    var m := Canon(SourceMetaJson(meta));
    WriteNullVersusString([("data", d), ("id", Null), ("source_meta_", m)],
                          [("data", d), ("id", OptionalText(first)), ("source_meta_", m)],
                          "data", "id", d, OptionalText(first), fr);
  }

  // ---------------------------------------------------------------------------
  // Resolving the transformed data file

  type Path = string

  datatype DataSourceError = NotImplemented

  /** The base `download_s3_data`: subclasses must override it. */
  function BaseDownloadS3Data(dataType: SourceDataType): (r: Result<Option<Path>, DataSourceError>)
    ensures r == Err(NotImplemented)
  {
    Err(NotImplemented)
  }

  /** `get_transformed_data_path`. `download` is what the source's
      `download_s3_data` produces when it is called; it is used only when no
      path is supplied and transformed data is not ignored. A supplied path
      that does not exist gives None (the source logs an error). */
  function TransformedDataPath(ignore: bool, supplied: Option<Path>, isFile: Path -> bool,
                               download: Result<Option<Path>, DataSourceError>): (r: Result<Option<Path>, DataSourceError>)
    ensures ignore ==> r == Ok(None)
    ensures !ignore && supplied.Some? ==> r == Ok(if isFile(supplied.value) then supplied else None)
    ensures !ignore && supplied.None? ==> r == download
  {
    if ignore then Ok(None)
    else if supplied.Some? then
      if isFile(supplied.value) then Ok(supplied) else Ok(None)
    else download
  }

  /** The download is consulted only in the one case of the table: when data
      is ignored or a path is supplied, any download outcome gives the same
      answer. */
  lemma DownloadOnlyWithoutPath(ignore: bool, supplied: Option<Path>, isFile: Path -> bool,
                                d1: Result<Option<Path>, DataSourceError>, d2: Result<Option<Path>, DataSourceError>)
    requires ignore || supplied.Some?
    ensures TransformedDataPath(ignore, supplied, isFile, d1) == TransformedDataPath(ignore, supplied, isFile, d2)
  {
  }

  /** A path that comes back was either supplied and present on disk, or came from the
      download; and with the base `download_s3_data` the no-path case raises. */
  lemma ResolvedPathOrigin(ignore: bool, supplied: Option<Path>, isFile: Path -> bool,
                           download: Result<Option<Path>, DataSourceError>, dataType: SourceDataType)
    ensures var r := TransformedDataPath(ignore, supplied, isFile, download);
      r.Ok? && r.value.Some? ==>
        (supplied == r.value && isFile(r.value.value)) || (supplied.None? && download == r)
    ensures !ignore && supplied.None? ==>
      TransformedDataPath(ignore, supplied, isFile, BaseDownloadS3Data(dataType)) == Err(NotImplemented)
  {
  }
}
