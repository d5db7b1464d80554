/** The raw shapes handed to the adapter by the Mastodon client library: a
    status as the REST API reports it, its media attachments, and the result
    of advancing a paginator. Only the fields the adapter reads are kept;
    strings (ids, URLs, HTML, timestamps, blurhashes) are opaque. */
module Masto {
  import opened Wrappers

  /** The author of a status. */
  datatype Account = Account(displayName: string, avatar: string, url: string)

  /** `meta.original`: the size of the original media file, either part optional. */
  datatype Dims = Dims(width: Option<int>, height: Option<int>)

  /** `meta`: media metadata, whose `original` entry may be missing. */
  datatype Meta = Meta(original: Option<Dims>)

  /** One media attachment of a status; every kind of media has this shape. */
  datatype MediaAttachment = MediaAttachment(
    previewUrl: string,
    url: string,
    meta: Option<Meta>,
    blurhash: Option<string>)

  /** A status. `reblog` is the embedded status this one reposts, if any;
      `reblogged` is whether the current user has reposted this status. */
  datatype RawStatus = RawStatus(
    id: string,
    account: Account,
    createdAt: string,
    content: string,
    reblogsCount: int,
    repliesCount: int,
    favouritesCount: int,
    mediaAttachments: seq<MediaAttachment>,
    favourited: Option<bool>,
    bookmarked: Option<bool>,
    reblogged: Option<bool>,
    sensitive: Option<bool>,
    reblog: Option<RawStatus>)

  /** What `await paginator.next()` yields: either exhaustion or one page. */
  datatype PageResult = Done | Page(value: seq<RawStatus>)

  /** How many embedded reposts are nested inside a raw status. */
  function RawDepth(s: RawStatus): nat
  {
    match s.reblog
    case None => 0
    case Some(inner) => 1 + RawDepth(inner)
  }
}
