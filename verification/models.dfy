/** The two value types shared by the research pipeline: the kind of stream a
    URL or a flow is classified as, and the description of a detected stream. */
module Models {
  import opened Common

  datatype StreamType = DirectMedia | AdaptiveStream | DrmProtected | Unsupported

  /** A detected stream. `format`, `domain`, `estimatedSize` and `drmInfo` are
      nullable in the source and default to null. */
  datatype MediaStream = MediaStream(
    url: string,
    streamType: StreamType,
    format: Option<string>,
    domain: Option<string>,
    estimatedSize: Option<int>,
    drmInfo: Option<string>)
}
