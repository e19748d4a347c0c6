/**
  The value-level rules of DarkRoomCarouselViewController.swift: what the data
  source answers, which page a swipe may reach, which way a tapped thumbnail
  slides, which thumbnail carries the highlight border, when the strip exists,
  and how a change of the displayed index shows and hides the source views.
 */
module CarouselIndex {
  import opened Wrappers

  /** A media item as the data source hands it out; `url` is the absoluteString of
      its imageUrl (image) or videoUrl (video). */
  datatype Asset = Image(url: string) | Video(url: string)

  /** The data source marks a missing item with the URL string "nil". */
  predicate IsUnresolvable(a: Asset) {
    a.url == "nil"
  }

  /** The carousel's `type` codes (DarkRoomMediaType). */
  datatype MediaType = SingleImage | MultiImage | SingleVideo | MultiVideo | MixedMedia

  function RawValue(t: MediaType): int {
    match t
    case SingleImage => 1
    case MultiImage => 2
    case SingleVideo => 3
    case MultiVideo => 4
    case MixedMedia => 5
  }

  /** DarkRoomMediaType(rawValue:), which fails on an unknown code. */
  function MediaTypeFromRaw(raw: int): (r: Option<MediaType>)
    ensures r.Some? <==> 1 <= raw <= 5
    ensures r.Some? ==> RawValue(r.value) == raw
  {
    if raw == 1 then Some(SingleImage)
    else if raw == 2 then Some(MultiImage)
    else if raw == 3 then Some(SingleVideo)
    else if raw == 4 then Some(MultiVideo)
    else if raw == 5 then Some(MixedMedia)
    else None
  }

  lemma RawValueRoundTrip(t: MediaType)
    ensures MediaTypeFromRaw(RawValue(t)) == Some(t)
  {
  }

  /** preparePreviewView builds the thumbnail strip only for a multi-image carousel. */
  function ShowsPreview(mediaType: int): (r: bool)
    ensures r <==> mediaType == RawValue(MultiImage)
  {
    match MediaTypeFromRaw(mediaType)
    case Some(MultiImage) => true
    case _ => false
  }

  /** collectionView(numberOfItemsInSection:): the number of assets, or 0 without a data source. */
  function NumberOfItems(source: Option<seq<Asset>>): (r: nat)
    ensures source.None? ==> r == 0
    ensures source.Some? ==> r == |source.value|
  {
    if source.None? then 0 else |source.value|
  }

  /** assetData(at:); an index the data source has no asset for falls through to the
      source's final `else` branch, modelled as None. */
  function AssetAt(source: Option<seq<Asset>>, i: int): (r: Option<Asset>)
    ensures r.Some? <==> 0 <= i < NumberOfItems(source)
    ensures r.Some? ==> r.value == source.value[i]
  {
    if source.Some? && 0 <= i < |source.value| then Some(source.value[i]) else None
  }

  /** A page of the carousel, known here only by the index it carries. */
  datatype MediaController = ImageViewer(index: int) | Player(index: int)

  /** composePlayerViewController for a video, composeImageViewerController for an image. */
  function Compose(a: Asset, index: int): MediaController {
    match a
    case Video(_) => Player(index)
    case Image(_) => ImageViewer(index)
  }

  /** What a request for a page yields: nothing, a load failure (the alert), or a page. */
  datatype PageOutcome = NoPage | LoadFailed | Composed(vc: MediaController)

  /** The shared body of the three page builders: sentinel check, then compose. */
  function Resolve(source: Option<seq<Asset>>, k: int): PageOutcome {
    match AssetAt(source, k)
    case None => NoPage
    case Some(a) => if IsUnresolvable(a) then LoadFailed else Composed(Compose(a, k))
  }

  /** setupInitialDataSource: the first page, or a load failure. */
  function InitialPage(source: Option<seq<Asset>>, initialIndex: int): (r: PageOutcome)
    ensures r.LoadFailed? <==>
      0 <= initialIndex < NumberOfItems(source) && IsUnresolvable(source.value[initialIndex])
    ensures r.Composed? <==>
      0 <= initialIndex < NumberOfItems(source) && !IsUnresolvable(source.value[initialIndex])
    ensures r.Composed? ==> r.vc == Compose(source.value[initialIndex], initialIndex)
  {
    if source.None? then NoPage else Resolve(source, initialIndex)
  }

  /** pageViewController(viewControllerBefore:) for the page showing `index`. */
  function Before(source: Option<seq<Asset>>, index: int): (r: PageOutcome)
    ensures source.None? || index <= 0 ==> r == NoPage
    ensures r.Composed? ==> r.vc.index == index - 1 && 0 <= r.vc.index < NumberOfItems(source)
    ensures r.Composed? ==> r.vc == Compose(source.value[index - 1], index - 1)
    ensures r.LoadFailed? ==> 0 <= index - 1 < NumberOfItems(source)
    ensures 0 < index <= NumberOfItems(source) ==>
      r != NoPage && (r == LoadFailed <==> IsUnresolvable(source.value[index - 1]))
  {
    if source.None? then NoPage
    else if index > 0 then Resolve(source, index - 1)
    else NoPage
  }

  /** pageViewController(viewControllerAfter:) for the page showing `index`. */
  function After(source: Option<seq<Asset>>, index: int): (r: PageOutcome)
    ensures source.None? || index > NumberOfItems(source) - 2 ==> r == NoPage
    ensures r.Composed? ==> r.vc.index == index + 1 && 0 <= r.vc.index < NumberOfItems(source)
    ensures r.Composed? ==> r.vc == Compose(source.value[index + 1], index + 1)
    ensures r.LoadFailed? ==> 0 <= index + 1 < NumberOfItems(source)
    ensures -1 <= index < NumberOfItems(source) - 1 ==>
      r != NoPage && (r == LoadFailed <==> IsUnresolvable(source.value[index + 1]))
  {
    if source.None? then NoPage
    else if index <= |source.value| - 2 then Resolve(source, index + 1)
    else NoPage
  }

  /** With at most one asset there is never a next page from a valid index. */
  lemma NoNextForSingleAsset(source: Option<seq<Asset>>, index: int)
    requires NumberOfItems(source) <= 1 && 0 <= index
    ensures After(source, index) == NoPage
  {
  }

  /** The first page has no previous page and the last has no next one. */
  lemma EndsHaveNoNeighbour(source: Option<seq<Asset>>)
    ensures Before(source, 0) == NoPage
    ensures NumberOfItems(source) > 0 ==> After(source, NumberOfItems(source) - 1) == NoPage
  {
  }

  /** Swiping forward and then back returns to the page one started from. */
  lemma AfterThenBefore(source: Option<seq<Asset>>, index: int)
    requires 0 <= index < NumberOfItems(source) && !IsUnresolvable(source.value[index])
    requires After(source, index).Composed?
    ensures Before(source, After(source, index).vc.index) == Composed(Compose(source.value[index], index))
  {
  }

  /** Swiping back and then forward returns to the page one started from. */
  lemma BeforeThenAfter(source: Option<seq<Asset>>, index: int)
    requires 0 <= index < NumberOfItems(source) && !IsUnresolvable(source.value[index])
    requires Before(source, index).Composed?
    ensures After(source, Before(source, index).vc.index) == Composed(Compose(source.value[index], index))
  {
  }

  datatype Direction = Forward | Reverse

  /** One setViewControllers([vc], direction:) call. */
  datatype PageRequest = PageRequest(vc: MediaController, direction: Direction)

  /** What setupInitialDataSource presents: the initial page, sliding forward, when it loads.
      A load failure presents nothing but the alert. */
  function InitialRequests(source: Option<seq<Asset>>, initialIndex: int): (r: seq<PageRequest>)
    ensures |r| <= 1
    ensures |r| == 1 <==> 0 <= initialIndex < NumberOfItems(source) && !IsUnresolvable(source.value[initialIndex])
    ensures |r| == 1 ==> r[0].vc.index == initialIndex && r[0].direction == Forward
    ensures |r| == 1 ==> r[0].vc == Compose(source.value[initialIndex], initialIndex)
  {
    match InitialPage(source, initialIndex)
    case Composed(vc) => [PageRequest(vc, Forward)]
    case _ => []
  }

  /** The slide direction for a tap on thumbnail `tapped` while `displayed` is shown;
      None for the displayed one, which the tap handler ignores. */
  function TapDirection(displayed: int, tapped: int): (r: Option<Direction>)
    ensures r.None? <==> tapped == displayed
    ensures r == Some(Forward) <==> tapped > displayed
    ensures r == Some(Reverse) <==> tapped < displayed
  {
    if displayed == tapped then None
    else if tapped > displayed then Some(Forward)
    else Some(Reverse)
  }

  /** The page a tap presents: no "nil" check on this path, only whether the data
      source has the asset at all. */
  function TapRequests(source: Option<seq<Asset>>, displayed: int, tapped: int): (r: seq<PageRequest>)
    ensures |r| <= 1
    ensures |r| == 1 <==> tapped != displayed && 0 <= tapped < NumberOfItems(source)
    ensures |r| == 1 ==> r[0].vc.index == tapped && (r[0].direction == Forward <==> tapped > displayed)
    ensures |r| == 1 ==> r[0].vc == Compose(source.value[tapped], tapped)
  {
    match (TapDirection(displayed, tapped), AssetAt(source, tapped))
    case (Some(d), Some(a)) => [PageRequest(Compose(a, tapped), d)]
    case _ => []
  }

  /** What cellForItemAt returns for a strip item. */
  datatype Cell = EmptyCell | Thumbnail(highlighted: bool)

  /** cellForItemAt: an empty cell for a missing or "nil" asset; otherwise a thumbnail
      whose border is white exactly for the displayed index. */
  function CellFor(source: Option<seq<Asset>>, index: int, displayed: int): (c: Cell)
    ensures c.Thumbnail? <==> 0 <= index < NumberOfItems(source) && !IsUnresolvable(source.value[index])
    ensures c.Thumbnail? ==> (c.highlighted <==> index == displayed)
  {
    var highlighted := index == displayed;
    match AssetAt(source, index)
    case Some(a) => if IsUnresolvable(a) then EmptyCell else Thumbnail(highlighted)
    case None => EmptyCell
  }

  /** At most one cell of the strip is highlighted, whatever the displayed index. */
  lemma AtMostOneHighlighted(source: Option<seq<Asset>>, displayed: int, i: int, j: int)
    requires CellFor(source, i, displayed) == Thumbnail(true)
    requires CellFor(source, j, displayed) == Thumbnail(true)
    ensures i == j
  {
  }

  // Source-view visibility: hidden[i] is true when the data source's imageView(at: i)
  // has alpha 0.0 and false when it has alpha 1.0.

  /** `view?.alpha = 1.0` for the view at `i`, if the data source has one. */
  function Show(hidden: seq<bool>, i: int): (r: seq<bool>)
    ensures |r| == |hidden|
    ensures forall j :: 0 <= j < |r| ==> r[j] == (hidden[j] && j != i)
  {
    if 0 <= i < |hidden| then hidden[i := false] else hidden
  }

  /** `view?.alpha = 0.0` for the view at `i`, if the data source has one. */
  function Hide(hidden: seq<bool>, i: int): (r: seq<bool>)
    ensures |r| == |hidden|
    ensures forall j :: 0 <= j < |r| ==> r[j] == (hidden[j] || j == i)
  {
    if 0 <= i < |hidden| then hidden[i := true] else hidden
  }

  /** The visibility part of displayedIndex's didSet when it changes from `o` to `k`. */
  function AfterSlide(hidden: seq<bool>, o: int, k: int): (r: seq<bool>)
    ensures |r| == |hidden|
    ensures o == k ==> r == hidden
    ensures o != k && 0 <= o < |r| ==> !r[o]
    ensures o != k && 0 <= k < |r| ==> r[k]
    ensures forall j :: 0 <= j < |r| && j != o && j != k ==> r[j] == hidden[j]
  {
    if o == k then hidden else Hide(Show(hidden, o), k)
  }

  /** Exactly the view at `d` is hidden. */
  predicate OnlyHidden(hidden: seq<bool>, d: int) {
    forall j :: 0 <= j < |hidden| ==> (hidden[j] <==> j == d)
  }

  /** No view other than the one at `d` is hidden. */
  predicate HiddenAtMost(hidden: seq<bool>, d: int) {
    forall j :: 0 <= j < |hidden| && hidden[j] ==> j == d
  }

  /** A change of the displayed index moves the single hidden view to the new index. */
  lemma SlideMovesHiddenView(hidden: seq<bool>, o: int, k: int)
    requires HiddenAtMost(hidden, o) && 0 <= k < |hidden|
    requires o == k ==> OnlyHidden(hidden, o)
    ensures OnlyHidden(AfterSlide(hidden, o, k), k)
  {
  }

  /** A change of the displayed index never leaves a view hidden other than the new one. */
  lemma SlideKeepsHiddenAtMost(hidden: seq<bool>, o: int, k: int)
    requires HiddenAtMost(hidden, o)
    ensures HiddenAtMost(AfterSlide(hidden, o, k), k)
  {
  }

  /** Restoring the displayed view (dismissMe, deinit) leaves every view visible. */
  lemma RestoreShowsAll(hidden: seq<bool>, d: int)
    requires HiddenAtMost(hidden, d)
    ensures forall j :: 0 <= j < |hidden| ==> !Show(hidden, d)[j]
  {
  }
}
