/** What the adapter keeps and what it forgets. `Normalize` rewrites a raw
    status into the canonical form that carries exactly the information the
    display post keeps; `Restore` rebuilds that canonical raw status from a
    display post. Together they show that the adapter forgets only the
    difference between an absent boolean and `false`, and between absent
    metadata links and absent dimensions — and nothing else. */
module MastojsProperties {
  import opened Wrappers
  import opened Masto
  import opened Entities
  import opened Mastojs

  // ---------------------------------------------------------------------------
  // Single-status facts
  // ---------------------------------------------------------------------------

  /** The `length > 0` guard before mapping the attachments changes nothing:
      the images are the attachments mapped one by one. */
  lemma MediaGuardRedundant(s: RawStatus)
    ensures TransformStatus(s).images == MapSeq(TransformMedia, s.mediaAttachments)
    ensures s.mediaAttachments == [] <==> TransformStatus(s).images == []
  {
  }

  /** An embedded repost is adapted by the very same mapping. */
  lemma RebloggedIsTransformed(s: RawStatus)
    ensures s.reblog.None? ==> TransformStatus(s).reblogged == None
    ensures s.reblog.Some? ==> TransformStatus(s).reblogged == Some(TransformStatus(s.reblog.value))
  {
  }

  /** `shared` depends on the `reblogged` flag only, never on the embedded
      `reblog`; and the embedded post does not depend on the flag. */
  lemma SharedIndependentOfReblog(s: RawStatus, other: Option<RawStatus>, flag: Option<bool>)
    ensures TransformStatus(s.(reblog := other)).shared == TransformStatus(s).shared
    ensures TransformStatus(s.(reblogged := flag)).reblogged == TransformStatus(s).reblogged
  {
  }

  /** The raw status reached by following `reblog` `k` times. */
  function RawUnwrap(s: RawStatus, k: nat): (r: RawStatus)
    requires k <= RawDepth(s)
    ensures RawDepth(r) == RawDepth(s) - k
  {
    if k == 0 then s else RawUnwrap(s.reblog.value, k - 1)
  }

  /** The display post reached by following `reblogged` `k` times. */
  function Unwrap(s: Status, k: nat): (r: Status)
    requires k <= Depth(s)
    ensures Depth(r) == Depth(s) - k
  {
    if k == 0 then s else Unwrap(s.reblogged.value, k - 1)
  }

  /** At every depth of a repost chain, the display post is the adaptation of
      the raw post at the same depth. */
  lemma {:induction false} TransformAtEveryDepth(s: RawStatus, k: nat)
    requires k <= RawDepth(s)
    ensures k <= Depth(TransformStatus(s))
    ensures Unwrap(TransformStatus(s), k) == TransformStatus(RawUnwrap(s, k))
  {
    if k > 0 {
      TransformAtEveryDepth(s.reblog.value, k - 1);
    }
  }

  // ---------------------------------------------------------------------------
  // Feed facts
  // ---------------------------------------------------------------------------

  /** Two consecutive pages adapted one after the other give the same posts,
      in the same order, as the two pages adapted together. */
  lemma FeedOfJoinedPages(a: seq<RawStatus>, b: seq<RawStatus>)
    ensures FetchFeedPage(Page(a + b)).statuses
         == FetchFeedPage(Page(a)).statuses + FetchFeedPage(Page(b)).statuses
  {
    MapSeqAppend(TransformStatus, a, b);
  }

  // ---------------------------------------------------------------------------
  // What the adapter forgets
  // ---------------------------------------------------------------------------

  /** The canonical form of an attachment: dimensions always stored under
      `meta.original`, each present exactly when the adapter would read it. */
  function NormalizeMedia(media: MediaAttachment): MediaAttachment
  {
    media.(meta := Some(Meta(Some(Dims(OriginalWidth(media), OriginalHeight(media))))))
  }

  /** The canonical form of a status: every optional boolean made present with
      the value the adapter defaults it to, recursively through reposts. */
  function Normalize(s: RawStatus): RawStatus
  {
    s.(mediaAttachments := MapSeq(NormalizeMedia, s.mediaAttachments),
       favourited := Some(s.favourited.GetOr(false)),
       bookmarked := Some(s.bookmarked.GetOr(false)),
       reblogged := Some(s.reblogged.GetOr(false)),
       sensitive := Some(s.sensitive.GetOr(false)),
       reblog := match s.reblog
                 case None => None
                 case Some(inner) => Some(Normalize(inner)))
  }

  /** The canonical attachment an image was adapted from. */
  function RestoreImage(img: StatusImage): MediaAttachment
  {
    MediaAttachment(img.previewUrl, img.fullUrl, Some(Meta(Some(Dims(img.fullWidth, img.fullHeight)))), img.hash)
  }

  /** The canonical raw status a display post was adapted from. */
  function Restore(st: Status): RawStatus
  {
    RawStatus(
      st.id,
      Account(st.name, st.avatar, st.authorUrl),
      st.createdAt,
      st.text,
      st.sharesCount,
      st.commentsCount,
      st.likesCount,
      MapSeq(RestoreImage, st.images),
      Some(st.favourited),
      Some(st.bookmarked),
      Some(st.shared),
      Some(st.sensitive),
      match st.reblogged
      case None => None
      case Some(inner) => Some(Restore(inner)))
  }

  /** Every display post is the adaptation of some raw status: `Restore` is a
      right inverse of the adapter. */
  lemma {:induction false} TransformRestore(st: Status)
    ensures TransformStatus(Restore(st)) == st
  {
    var r := TransformStatus(Restore(st));
    assert r.images == st.images;
    match st.reblogged
    case None =>
    case Some(inner) => TransformRestore(inner);
  }

  /** Restoring an adapted status yields the canonical form of the source. */
  lemma {:induction false} RestoreTransform(s: RawStatus)
    ensures Restore(TransformStatus(s)) == Normalize(s)
  {
    var r := Restore(TransformStatus(s));
    assert r.mediaAttachments == MapSeq(NormalizeMedia, s.mediaAttachments);
    match s.reblog
    case None =>
    case Some(inner) => RestoreTransform(inner);
  }

  /** The adapter cannot tell a status from its canonical form. */
  lemma {:induction false} TransformNormalize(s: RawStatus)
    ensures TransformStatus(Normalize(s)) == TransformStatus(s)
  {
    var n := Normalize(s);
    assert TransformStatus(n).images == TransformStatus(s).images by {
      forall i | 0 <= i < |s.mediaAttachments|
        ensures TransformMedia(n.mediaAttachments[i]) == TransformMedia(s.mediaAttachments[i])
      {
      }
    }
    match s.reblog
    case None =>
    case Some(inner) => TransformNormalize(inner);
  }

  /** Two raw statuses give the same display post exactly when their canonical
      forms agree: the adapter loses nothing beyond the defaults it applies. */
  lemma SameDisplayIffSameNormalForm(a: RawStatus, b: RawStatus)
    ensures TransformStatus(a) == TransformStatus(b) <==> Normalize(a) == Normalize(b)
  {
    RestoreTransform(a);
    RestoreTransform(b);
    TransformNormalize(a);
    TransformNormalize(b);
  }
}
