/**
  * The response envelope shared by the data sources: a response carries an
  * optional content-addressed `id`, a `data` dict and the source's metadata.
  */
module Schemas {
  import opened Wrappers
  import opened Json

  /** The data sources a response can come from. */
  datatype Source = CancerHotspots | CBioPortal {
    function Label(): string {
      match this
      case CancerHotspots => "Cancer Hotspots"
      case CBioPortal => "cBioPortal"
    }
  }

  datatype SourceMeta = SourceMeta(source: Source, version: Option<string>)

  /** The kind of transformed data file a source loads. */
  datatype SourceDataType = MutationHotspots | CaseLists | Mutations {
    function Value(): string {
      match this
      case MutationHotspots => "mutation_hotspots"
      case CaseLists => "case_lists"
      case Mutations => "mutations"
    }
  }

  function OptionalText(s: Option<string>): Json {
    match s
    case None => Null
    case Some(t) => Str(t)
  }

  function SourceMetaJson(meta: SourceMeta): Json {
    Obj([("label", Str(meta.source.Label())), ("version", OptionalText(meta.version))])
  }

  /** The plain-dict form of a response, fields in declaration order (`model_dump()`). */
  function ResponseJson(id: Option<string>, data: Members, meta: SourceMeta): Json {
    Obj([("id", OptionalText(id)), ("data", Obj(data)), ("source_meta_", SourceMetaJson(meta))])
  }

  class Response {
    var id: Option<string>
    var data: Members
    var sourceMeta: SourceMeta

    /** `Response(data=..., source_meta_=...)`: the id defaults to None. */
    constructor (data: Members, sourceMeta: SourceMeta)
      ensures this.id == None && this.data == data && this.sourceMeta == sourceMeta
    {
      this.id := None;
      this.data := data;
      this.sourceMeta := sourceMeta;
    }
  }
}
