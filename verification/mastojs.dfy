/** The adapter from the Mastodon client library's shapes to the display
    entities: one status at a time, and one paginator result at a time. */
module Mastojs {
  import opened Wrappers
  import opened Masto
  import opened Entities

  /** `media.meta?.original`: the original dimensions, absent when either
      link of the chain is absent. */
  function OriginalDims(media: MediaAttachment): (r: Option<Dims>)
    ensures r.Some? <==> media.meta.Some? && media.meta.value.original.Some?
    ensures media.meta.Some? ==> r == media.meta.value.original
  {
    match media.meta
    case None => None
    case Some(meta) => meta.original
  }

  /** `media.meta?.original?.width`. */
  function OriginalWidth(media: MediaAttachment): (r: Option<int>)
    ensures r.Some? <==>
      media.meta.Some? && media.meta.value.original.Some? && media.meta.value.original.value.width.Some?
    ensures r.Some? ==> r == media.meta.value.original.value.width
  {
    match OriginalDims(media)
    case None => None
    case Some(dims) => dims.width
  }

  /** `media.meta?.original?.height`. */
  function OriginalHeight(media: MediaAttachment): (r: Option<int>)
    ensures r.Some? <==>
      media.meta.Some? && media.meta.value.original.Some? && media.meta.value.original.value.height.Some?
    ensures r.Some? ==> r == media.meta.value.original.value.height
  {
    match OriginalDims(media)
    case None => None
    case Some(dims) => dims.height
  }

  /** The image shown for one media attachment. */
  function TransformMedia(media: MediaAttachment): (img: StatusImage)
    ensures img.previewUrl == media.previewUrl
    ensures img.fullUrl == media.url
    ensures img.hash == media.blurhash
    ensures img.fullWidth.Some? <==>
      media.meta.Some? && media.meta.value.original.Some? && media.meta.value.original.value.width.Some?
    ensures img.fullWidth.Some? ==> img.fullWidth == media.meta.value.original.value.width
    ensures img.fullHeight.Some? <==>
      media.meta.Some? && media.meta.value.original.Some? && media.meta.value.original.value.height.Some?
    ensures img.fullHeight.Some? ==> img.fullHeight == media.meta.value.original.value.height
  {
    StatusImage(
      media.previewUrl,
      media.url,
      OriginalWidth(media),
      OriginalHeight(media),
      media.blurhash)
  }

  /** The display post for one raw status; an embedded repost is adapted by
      the same mapping, to any depth. */
  function TransformStatus(s: RawStatus): (r: Status)
    ensures r.id == s.id && r.createdAt == s.createdAt && r.text == s.content
    ensures r.name == s.account.displayName && r.avatar == s.account.avatar && r.authorUrl == s.account.url
    ensures r.sharesCount == s.reblogsCount
    ensures r.commentsCount == s.repliesCount
    ensures r.likesCount == s.favouritesCount
    ensures |r.images| == |s.mediaAttachments|
    ensures forall i :: 0 <= i < |s.mediaAttachments| ==> r.images[i] == TransformMedia(s.mediaAttachments[i])
    ensures r.favourited <==> s.favourited == Some(true)
    ensures r.bookmarked <==> s.bookmarked == Some(true)
    ensures r.shared <==> s.reblogged == Some(true)
    ensures r.sensitive <==> s.sensitive == Some(true)
    ensures r.reblogged.Some? <==> s.reblog.Some?
    ensures s.reblog.Some? ==> r.reblogged == Some(TransformStatus(s.reblog.value))
    ensures Depth(r) == RawDepth(s)
  {
    var images := if |s.mediaAttachments| > 0 then MapSeq(TransformMedia, s.mediaAttachments) else [];
    var output := Status(
      s.id,
      s.account.displayName,
      s.account.avatar,
      s.account.url,
      s.createdAt,
      s.content,
      s.reblogsCount,
      s.repliesCount,
      s.favouritesCount,
      images,
      s.favourited.GetOr(false),
      s.bookmarked.GetOr(false),
      s.reblogged.GetOr(false),
      None,
      s.sensitive.GetOr(false));
    match s.reblog
    case None => output
    case Some(inner) => output.(reblogged := Some(TransformStatus(inner)))
  }

  /** The feed built from one paginator result: empty once the paginator is
      done, otherwise every status of the page adapted, in order. */
  function FetchFeedPage(results: PageResult): (feed: Feed)
    ensures results.Done? ==> feed.statuses == []
    ensures results.Page? ==> |feed.statuses| == |results.value|
    ensures results.Page? ==>
      forall i :: 0 <= i < |results.value| ==> feed.statuses[i] == TransformStatus(results.value[i])
  {
    Feed(if !results.Done? then MapSeq(TransformStatus, results.value) else [])
  }
}
