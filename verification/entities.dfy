/** The application's display entities: what the timeline and conversation
    views render. */
module Entities {
  import opened Wrappers

  /** One image of a post: the preview and full URLs, the optional size of the
      full image and the optional blurhash placeholder. */
  datatype StatusImage = StatusImage(
    previewUrl: string,
    fullUrl: string,
    fullWidth: Option<int>,
    fullHeight: Option<int>,
    hash: Option<string>)

  /** A post as displayed. `shared` says the current user reposted it;
      `reblogged` is the reposted post it embeds, if any. */
  datatype Status = Status(
    id: string,
    name: string,
    avatar: string,
    authorUrl: string,
    createdAt: string,
    text: string,
    sharesCount: int,
    commentsCount: int,
    likesCount: int,
    images: seq<StatusImage>,
    favourited: bool,
    bookmarked: bool,
    shared: bool,
    reblogged: Option<Status>,
    sensitive: bool)

  /** One fetched page of posts, in order. */
  datatype Feed = Feed(statuses: seq<Status>)

  /** How many reposted posts are nested inside a display post. */
  function Depth(s: Status): nat
  {
    match s.reblogged
    case None => 0
    case Some(inner) => 1 + Depth(inner)
  }
}
