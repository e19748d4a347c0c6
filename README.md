# DarkRoom carousel index coordinator, in Dafny

DarkRoom is an iOS media viewer: a full-screen paging carousel of images and
videos with a thumbnail strip underneath multi-image sets. Almost all of it is
UIKit layout. This project models the part that keeps state: the
`displayedIndex` of `DarkRoomCarouselViewController`, the `didSet` observer
that shows the previously displayed source view again, tells the delegate and
hides the newly displayed source view, the page-neighbour guards that the page
view controller asks during a swipe, the tap handler of the thumbnail strip,
the highlight border of strip cells, and the bounds-guarded scroll and
"( i / n )" position label of `MediaPreviewView`.

Files:

- `wrappers.dfy`: the `Option` type standing for Swift optionals.
- `swift_int.dfy` (module `SwiftInt`): the decimal text Swift's string
  interpolation gives an `Int`, with a parser and the round-trip lemma that
  makes the position label unambiguous.
- `media_preview.dfy` (module `MediaPreview`): `LabelText`, its parser
  `ParseLabel`, and the class `MediaPreviewView` (item count, scroll target,
  label text) with `ScrollToItem`.
- `carousel_index.dfy` (module `CarouselIndex`): the value-level rules of the
  carousel controller: assets and the `"nil"` URL sentinel, the media-type
  codes, the page builders `InitialPage`, `Before`, `After`, the tap
  direction, the cell highlight, and how a change of index moves the single
  hidden source view.
- `carousel.dfy` (module `Carousel`): the class
  `DarkRoomCarouselViewController` with `displayedIndex` and the triggers
  that change it.

How the UIKit side is represented:

- The data source is `source: Option<seq<Asset>>`; `None` is a missing
  `mediaDatasource`. An index the data source has no asset for takes the
  source's final `else { return nil }` branch.
- Only alpha 0.0 and 1.0 are ever written to a source view, so the views'
  alphas are `hidden: array<bool>`, one entry per asset.
- The delegate is `hasDelegate`; every `carousel(didSlideToIndex:)` it
  receives is appended to `notified`.
- Every `setViewControllers` call is appended to `pageRequests`, as the
  composed page (`ImageViewer(index)` or `Player(index)`) and the direction.
- Every `failLoadMedia` alert is counted in `alerts`.
- The page that UIKit reports frontmost after a swipe is the `presented`
  parameter of `DidFinishAnimating`.
- The blocks posted with `DispatchQueue.main.async` (the tap handler, the
  strip scroll) run at once.

Behaviour kept as the code has it:

- A tapped thumbnail is presented without a `"nil"` URL check
  (DarkRoomCarouselViewController.swift:361-367), while the initial page
  (lines 270-284) and the swipe neighbours (lines 402-416 and 431-445) are
  checked. `TapRequests` presents any asset the data source has, and the
  index changes regardless.
- `preparePreviewView` scrolls the strip to item 0, not to the initial index,
  so before the first swipe or tap the label reads "( 1 / n )" whatever the
  initial index is. `PreparePreviewView` states exactly that.
- `After` tests `index <= n - 2` only, so for a negative index it may still
  yield a page. From any valid index (0 or more) there is no next page when
  n is at most 1 (`NoNextForSingleAsset`).

## Model

| member | source | states |
|---|---|---|
| `SwiftInt.IntText` | Sources/DarkRoom/VideoPlayer/Views/preview/MediaPreviewView.swift:102 | the interpolated text of an Int is canonical decimal: all digits exactly when the Int is not negative, otherwise a minus sign and digits, with no leading zero |
| `SwiftInt.NatTextValue` | Sources/DarkRoom/VideoPlayer/Views/preview/MediaPreviewView.swift:102 | the digits printed for a natural number have that number as their value |
| `SwiftInt.IntTextRoundTrip` | Sources/DarkRoom/VideoPlayer/Views/preview/MediaPreviewView.swift:102 | parsing the printed text of any Int gives that Int back |
| `SwiftInt.IntTextInjective` | Sources/DarkRoom/VideoPlayer/Views/preview/MediaPreviewView.swift:102 | two Ints print alike only when equal |
| `MediaPreview.LabelText` | Sources/DarkRoom/VideoPlayer/Views/preview/MediaPreviewView.swift:101-103 | the label "( i+1 / n )" reads back as exactly the position index+1 and the count n |
| `MediaPreview.MediaPreviewView.constructor` | Sources/DarkRoom/VideoPlayer/Views/preview/MediaPreviewView.swift:27-34 | a new strip has not scrolled and its label is the empty string |
| `MediaPreview.MediaPreviewView.ScrollToItem` | Sources/DarkRoom/VideoPlayer/Views/preview/MediaPreviewView.swift:89-99 | an index below 0 or at least the item count changes nothing; an in-range index becomes the scroll target and the label shows its position; the label always agrees with the target |
| `MediaPreview.MediaPreviewView.ShownPosition` | Sources/DarkRoom/VideoPlayer/Views/preview/MediaPreviewView.swift:91-102 | once scrolled, the label reads a position in [1, item count] and the item count |
| `CarouselIndex.MediaTypeFromRaw` | Sources/DarkRoom/Carousel/DarkRoomCarouselViewController.swift:29-35 | a raw type code names a media type exactly when it is 1 to 5, and that type's raw value is the code |
| `CarouselIndex.RawValueRoundTrip` | Sources/DarkRoom/Carousel/DarkRoomCarouselViewController.swift:29-35 | every media type is recovered from its raw value |
| `CarouselIndex.ShowsPreview` | Sources/DarkRoom/Carousel/DarkRoomCarouselViewController.swift:209-216 | the strip is built exactly when the type code is that of multiImage (2) |
| `CarouselIndex.AssetAt` | Sources/DarkRoom/Carousel/DarkRoomCarouselViewController.swift:313-316 | an asset is found exactly for the indices below the strip's item count, and it is the data source's asset at that index |
| `CarouselIndex.NumberOfItems` | Sources/DarkRoom/Carousel/DarkRoomCarouselViewController.swift:313-316 | the strip has as many items as the data source has assets, and none without a data source |
| `CarouselIndex.InitialPage` | Sources/DarkRoom/Carousel/DarkRoomCarouselViewController.swift:267-285 | the initial asset with URL "nil" yields a load failure and no page; any other existing asset yields the page of its kind at the initial index |
| `CarouselIndex.InitialRequests` | Sources/DarkRoom/Carousel/DarkRoomCarouselViewController.swift:267-285 | at most one page is presented at start, forward, at the initial index, and only for a loadable initial asset; it is the page of its kind, a player for a video and an image viewer for an image |
| `CarouselIndex.Before` | Sources/DarkRoom/Carousel/DarkRoomCarouselViewController.swift:390-417 | no previous page at index 0 or below or without a data source; a page found is index-1, within [0, n), of its asset's kind; for 0 < index <= n a result always comes, and it is a failure exactly when that asset's URL is "nil"; a failure only ever comes from an existing asset |
| `CarouselIndex.After` | Sources/DarkRoom/Carousel/DarkRoomCarouselViewController.swift:419-446 | no next page when index > n-2 or without a data source; a page found is index+1, within [0, n), of its asset's kind; for -1 <= index < n-1 a result always comes, a failure exactly when that asset's URL is "nil"; a failure only ever comes from an existing asset |
| `CarouselIndex.NoNextForSingleAsset` | Sources/DarkRoom/Carousel/DarkRoomCarouselViewController.swift:426 | with at most one asset no valid index has a next page |
| `CarouselIndex.EndsHaveNoNeighbour` | Sources/DarkRoom/Carousel/DarkRoomCarouselViewController.swift:397-428 | index 0 has no previous page and index n-1 has no next page |
| `CarouselIndex.AfterThenBefore` | Sources/DarkRoom/Carousel/DarkRoomCarouselViewController.swift:390-446 | the previous page of the next page is the loadable page one started from |
| `CarouselIndex.BeforeThenAfter` | Sources/DarkRoom/Carousel/DarkRoomCarouselViewController.swift:390-446 | the next page of the previous page is the loadable page one started from |
| `CarouselIndex.TapDirection` | Sources/DarkRoom/Carousel/DarkRoomCarouselViewController.swift:354-358 | a tap on the displayed index gives no transition; otherwise the direction is forward exactly when the tapped index is greater |
| `CarouselIndex.TapRequests` | Sources/DarkRoom/Carousel/DarkRoomCarouselViewController.swift:358-367 | a tap presents one page exactly when it is on another index that has an asset, with no "nil" check; the page is a player for a video and an image viewer for an image, carries the tapped index, and slides forward exactly when the tapped index is greater |
| `CarouselIndex.CellFor` | Sources/DarkRoom/Carousel/DarkRoomCarouselViewController.swift:318-349 | a strip cell is a thumbnail exactly for an existing asset whose URL is not "nil", and its border is highlighted exactly when its index is the displayed one |
| `CarouselIndex.AtMostOneHighlighted` | Sources/DarkRoom/Carousel/DarkRoomCarouselViewController.swift:324 | no two strip cells are highlighted at once |
| `CarouselIndex.Show` | Sources/DarkRoom/Carousel/DarkRoomCarouselViewController.swift:64-65 | setting alpha 1.0 on the view at i, if it exists, makes it visible and changes no other view |
| `CarouselIndex.Hide` | Sources/DarkRoom/Carousel/DarkRoomCarouselViewController.swift:67 | setting alpha 0.0 on the view at i, if it exists, hides it and changes no other view |
| `CarouselIndex.AfterSlide` | Sources/DarkRoom/Carousel/DarkRoomCarouselViewController.swift:61-68 | the same index changes no view; a change from o to k makes view o visible, hides view k, and leaves every other view as it was |
| `CarouselIndex.SlideKeepsHiddenAtMost` | Sources/DarkRoom/Carousel/DarkRoomCarouselViewController.swift:61-68 | if no view but the old index's was hidden, after any change no view but the new index's is hidden |
| `CarouselIndex.SlideMovesHiddenView` | Sources/DarkRoom/Carousel/DarkRoomCarouselViewController.swift:61-68 | if at most the old index's view was hidden, after a change to an in-range k exactly view k is hidden |
| `CarouselIndex.RestoreShowsAll` | Sources/DarkRoom/Carousel/DarkRoomCarouselViewController.swift:296-297 | restoring the displayed view leaves no view hidden when it was the only hidden one |
| `Carousel.DarkRoomCarouselViewController.constructor` | Sources/DarkRoom/Carousel/DarkRoomCarouselViewController.swift:117-146 | the displayed index starts at the initial index with no delegate call, no page, no alert and no strip |
| `Carousel.DarkRoomCarouselViewController.SourceViewIsTheHiddenView` | Sources/DarkRoom/Carousel/DarkRoomCarouselViewController.swift:513-515 | every hidden view is the source view (the view at the displayed index); once that view is hidden it is the only hidden one |
| `Carousel.DarkRoomCarouselViewController.SetDisplayedIndex` | Sources/DarkRoom/Carousel/DarkRoomCarouselViewController.swift:61-69 | assigning the current value changes nothing; assigning another k makes the old view visible, appends exactly one notification k (when a delegate is attached), hides view k, touches no other view; no view but the source view is ever hidden, and after a change to an in-range index exactly its view is hidden |
| `Carousel.DarkRoomCarouselViewController.RestoreSourceView` | Sources/DarkRoom/Carousel/DarkRoomCarouselViewController.swift:296-297 | dismissing shows the displayed index's view again, and since no other view can be hidden, none stays hidden |
| `Carousel.DarkRoomCarouselViewController.PreparePreviewView` | Sources/DarkRoom/Carousel/DarkRoomCarouselViewController.swift:209-239 | a multi-image carousel gets a new strip over all assets, scrolled to item 0 with label "( 1 / n )" (or unscrolled when there are none); other types get none |
| `Carousel.DarkRoomCarouselViewController.SetupInitialDataSource` | Sources/DarkRoom/Carousel/DarkRoomCarouselViewController.swift:267-285 | presents the initial page forward, or raises exactly one alert when its URL is "nil", or does nothing |
| `Carousel.DarkRoomCarouselViewController.ViewDidLoad` | Sources/DarkRoom/Carousel/DarkRoomCarouselViewController.swift:156-165 | builds the strip for multi-image carousels, scrolled to item 0 with label "( 1 / n )" whatever the initial index, then presents the initial page or raises the alert |
| `Carousel.DarkRoomCarouselViewController.Deliver` | Sources/DarkRoom/Carousel/DarkRoomCarouselViewController.swift:402-416 | a failed page load raises one alert and yields no page; a composed page is handed to UIKit |
| `Carousel.DarkRoomCarouselViewController.ViewControllerBefore` | Sources/DarkRoom/Carousel/DarkRoomCarouselViewController.swift:390-417 | yields the previous page as `Before` decides, raising one alert exactly when it is a load failure |
| `Carousel.DarkRoomCarouselViewController.ViewControllerAfter` | Sources/DarkRoom/Carousel/DarkRoomCarouselViewController.swift:419-446 | yields the next page as `After` decides, raising one alert exactly when it is a load failure |
| `Carousel.DarkRoomCarouselViewController.DidFinishAnimating` | Sources/DarkRoom/Carousel/DarkRoomCarouselViewController.swift:492-504 | a completed transition makes the presented page's index the displayed one, with the observer's effects; an incomplete one changes no index; either way the strip is re-scrolled to the displayed index |
| `Carousel.DarkRoomCarouselViewController.DidSelectItem` | Sources/DarkRoom/Carousel/DarkRoomCarouselViewController.swift:351-374 | without a data source or on the displayed index nothing changes; otherwise the tapped page is presented in the matching direction, the tapped index becomes the displayed one with the observer's effects, and the strip scrolls to it |

`Carousel.SettleOnThirdImage` is a client of these contracts. It starts a
three-image carousel at index 0, in which the strip starts at item 0, and
swipes to index 2. The displayed index,
the strip's scroll target and the label then all name index 2, the delegate
has received exactly one notification (2), and only view 2 is hidden.

## Left out

- Layout, frames, constraints, colours, corner radii, the status-bar height
  and the CGFloat inset and size of strip items (lines 75-101, 169-207,
  376-383): presentation only.
- `applyOptions`, `prepareNavBar`, `prepareBackgroundView` and
  `prepareBottomInfoView`: they build views and never read or change the
  index.
- `didTapRightNavBarItem` forwards a bar-button tap with the current page's
  index to the delegate. It does not change any state of the coordinator.
- `DarkRoomPlayerControlView`, `MediaUserInfoView` and `PreviewCell` are not
  part of this model. The border colour a cell receives through
  `updateBorderColor` is the highlight that `CellFor` decides.
- Image loading (`imageLoader.loadImage`), `DarkRoomPlayer.load` and the
  internals of the composed page controllers are foreign collaborators. A
  composed page is kept only as its kind and index.
- The alert itself, its confirm action and the dismiss animation: a failure
  is counted in `alerts`. `RestoreSourceView` models the alpha reset that
  `dismissMe` and `deinit` perform. `prepareForDismiss` on the displayed
  page is a foreign call.
- The transition views `sourceOverlayView`, `targetView` and
  `targetOverlayView` serve the presentation manager, whose source is not
  part of this model. So does hiding the source view when the carousel is
  first presented. The constructor therefore starts with every view visible.
  `Valid()` holds from construction on: no view but the source view is
  hidden. `Consistent()` (exactly the source view hidden) holds after any
  change of the index to another asset, and every change of the index to an
  asset keeps it. The other operations leave the index and the views alone.
  `RestoreSourceView` ends it by showing every view, and a change to an index
  outside the assets ends it too.
- The order of the observer's three effects: the old view is shown, then the
  delegate is told, then the new view is hidden. A delegate callback can see
  that intermediate state. `SetDisplayedIndex` performs the effects in that
  order, but `hidden` and `notified` are separate parts of the state, so no
  contract records the order.
- `DispatchQueue.main.async`: the deferred blocks run atomically.
  `reloadData` is not a separate step, because cells are recomputed from the
  displayed index by `CellFor`.
- `mediaDatasource` and `mediaDelegate` are weak references that may become
  nil later. The model fixes both at construction. The data source is
  assumed to supply a source view for every asset index.
- `MediaPreviewView.itemCount` is read once. The source re-reads
  `numberOfItems(inSection:)` on every scroll, but the answer cannot change
  while the data source is fixed.
- Swift `Int` is 64-bit. The model uses unbounded integers. The only
  arithmetic on indices is `index + 1`, `index - 1` and `n - 2`, and these
  cannot overflow for indices of a real collection.
