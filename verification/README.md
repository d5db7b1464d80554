# Mastodon status adapter

A Dafny model of the data-shape adapter of a Mastodon web client
(`lib/data/adapters/shared/mastojs.ts`). The adapter turns the raw shapes of
the Mastodon client library into the application's display entities:

- `transformMastojsStatus` maps one raw status to a display `Status`: it
  copies the account, content and count fields, maps every media attachment,
  in order, to a `StatusImage` (reading the optional size through
  `meta?.original?.width` / `height`), defaults the four optional booleans to
  `false` with `??`, and adapts an embedded repost (`reblog`) by calling
  itself, to any depth.
- `fetchFeedPage` turns one paginator result into a `Feed`: empty when the
  paginator is done, otherwise every status of the page adapted, in order.

Modules:

- `Wrappers` (`wrappers.dfy`): `Option` (absent stands for both `null` and
  `undefined`), `GetOr` for `??`, and `MapSeq` for `Array.prototype.map`.
- `Masto` (`masto.dfy`): the raw input shapes — `RawStatus` with its
  recursive optional `reblog`, `MediaAttachment`, `Meta`, `Dims`, and the
  paginator result `Done | Page(statuses)`.
- `Entities` (`entities.dfy`): the display shapes `Status`, `StatusImage`
  and `Feed`, with the fields the adapter writes.
- `Mastojs` (`mastojs.dfy`): the adapter itself.
- `MastojsProperties` (`mastojs_properties.dfy`): lemmas relating the
  adapter to independent definitions — a canonical form `Normalize` of raw
  statuses and a right inverse `Restore` — and facts about repost chains and
  pages.

Strings (ids, URLs, HTML content, timestamps, blurhashes) are opaque
`string` values; nothing inspects them. The entity files
`core/entities/Status` and `core/entities/Feed` are not part of this model;
the display datatypes are built from the fields the adapter writes.

Two facts about the code shape the model:

- The code puts no bound on repost depth, so `TransformStatus` recurses on
  the inductive datatype to any depth.
- Counts are copied unchecked; nothing makes them non-negative, so they are
  `int` values copied as they are.

## Model

| member | source | states |
|---|---|---|
| `Wrappers.GetOr` | lib/data/adapters/shared/mastojs.ts:34-38 | `x ?? d` is the value when it is present and the default when it is absent |
| `Wrappers.MapSeq` | lib/data/adapters/shared/mastojs.ts:12-20 | `map` keeps the length and puts the image of the i-th element at position i |
| `Wrappers.MapSeqAppend` | lib/data/adapters/shared/mastojs.ts:56 | mapping a concatenation equals concatenating the mapped parts |
| `Mastojs.OriginalDims` | lib/data/adapters/shared/mastojs.ts:16-17 | `meta?.original` is present exactly when both `meta` and `original` are present, and when `meta` is present it is `meta.original` |
| `Mastojs.OriginalWidth` | lib/data/adapters/shared/mastojs.ts:16 | `meta?.original?.width` is present exactly when `meta`, `meta.original` and the width are all present, and then equals the width |
| `Mastojs.OriginalHeight` | lib/data/adapters/shared/mastojs.ts:17 | `meta?.original?.height` is present exactly when `meta`, `meta.original` and the height are all present, and then equals the height |
| `Mastojs.TransformMedia` | lib/data/adapters/shared/mastojs.ts:13-19 | the preview URL, full URL and blurhash are copied; the width (height) is present exactly when `meta`, `meta.original` and the width (height) are all present, and then equals it |
| `Mastojs.TransformStatus` | lib/data/adapters/shared/mastojs.ts:7-46 | id, author name, avatar, author URL, timestamp and content are copied; shares/comments/likes come from reblogs/replies/favourites counts; one image per attachment in order; each of favourited, bookmarked, shared, sensitive is true exactly when its source flag is present and true; shared reads only the `reblogged` flag; `reblogged` is present exactly when `reblog` is, and is then the adaptation of `reblog`; the repost chain keeps its depth |
| `Mastojs.FetchFeedPage` | lib/data/adapters/shared/mastojs.ts:54-57 | a done result gives no statuses; a page of K statuses gives K statuses, the i-th the adaptation of the i-th |
| `MastojsProperties.MediaGuardRedundant` | lib/data/adapters/shared/mastojs.ts:10-21 | the images are the attachments mapped one by one, and are empty exactly when there are no attachments |
| `MastojsProperties.RebloggedIsTransformed` | lib/data/adapters/shared/mastojs.ts:37-43 | no `reblog` gives no `reblogged`; a `reblog` gives `reblogged` equal to its own adaptation |
| `MastojsProperties.SharedIndependentOfReblog` | lib/data/adapters/shared/mastojs.ts:36-43 | changing the embedded `reblog` leaves `shared` unchanged, and changing the `reblogged` flag leaves the embedded post unchanged |
| `MastojsProperties.RawUnwrap` | lib/data/adapters/shared/mastojs.ts:41-43 | helper for `TransformAtEveryDepth` that walks the raw repost chain: following `reblog` k times lowers the remaining raw repost depth by exactly k |
| `MastojsProperties.Unwrap` | lib/data/adapters/shared/mastojs.ts:41-43 | helper for `TransformAtEveryDepth` that walks the display repost chain: following `reblogged` k times lowers the remaining display repost depth by exactly k |
| `MastojsProperties.TransformAtEveryDepth` | lib/data/adapters/shared/mastojs.ts:41-43 | at every depth k of a repost chain, the display post k levels down is the adaptation of the raw post k levels down |
| `MastojsProperties.FeedOfJoinedPages` | lib/data/adapters/shared/mastojs.ts:55-57 | adapting two pages joined gives the two adapted pages joined, in order |
| `MastojsProperties.TransformRestore` | lib/data/adapters/shared/mastojs.ts:7-46 | every display post arises from some raw status: adapting `Restore(st)` gives back `st` |
| `MastojsProperties.RestoreTransform` | lib/data/adapters/shared/mastojs.ts:7-46 | restoring an adapted status gives the source's canonical form (booleans defaulted, dimensions under `meta.original`) |
| `MastojsProperties.TransformNormalize` | lib/data/adapters/shared/mastojs.ts:7-46 | a status and its canonical form adapt to the same display post |
| `MastojsProperties.SameDisplayIffSameNormalForm` | lib/data/adapters/shared/mastojs.ts:7-46 | two raw statuses adapt to the same display post if and only if their canonical forms are equal, so the adapter forgets nothing beyond its defaults |

## Left out

- `MastojsClientFactory.getClient` (lib/data/adapters/shared/mastojs.ts:60-90): cookie reading, base64 decoding, the asynchronous session lookup, construction of the library's REST client and the static client cache are all I/O and library plumbing.
- The `await paginator.next()` call in `fetchFeedPage`: the paginator's state and its transport errors belong to the client library; only its result is an input, `PageResult`.
- The conversation page view (`app/in/@right/dm/[id]/page.tsx`): rendering only, with no adaptation logic.
- The content of the opaque strings (HTML, URLs, ISO timestamps, blurhash encoding).
- JavaScript `number` fields (the reblogs, replies and favourites counts and the media width and height) are unbounded `int` values: the adapter only copies them, so no floating-point behaviour is lost.
- `null` and `undefined` are one absent value, `None`: the code copies `blurhash`, `width` and `height` as they are, so a `null` stays `null` and an `undefined` stays `undefined`, a distinction the model does not keep; the `??` defaults treat both alike.
- Raw fields the adapter never reads are not part of `RawStatus` or `MediaAttachment`.
