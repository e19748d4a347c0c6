/**
  The carousel index coordinator of DarkRoomCarouselViewController: the mutable
  displayedIndex, the didSet observer that fans every change out to the source
  views and the delegate, and the three triggers that change it (initial load,
  a finished swipe, a tapped thumbnail). UIKit objects appear only through the
  state this controller writes into them.
 */
module Carousel {
  import opened Wrappers
  import opened CarouselIndex
  import opened MediaPreview

  class DarkRoomCarouselViewController {
    /** mediaDatasource: its assets, or None when no data source is attached. */
    const source: Option<seq<Asset>>
    /** Whether a mediaDelegate is attached. */
    const hasDelegate: bool
    const initialIndex: int
    /** The raw `type` code given at construction. */
    const mediaType: int
    /** hidden[i]: the data source's imageView(at: i) has alpha 0.0 (otherwise 1.0). */
    const hidden: array<bool>

    var displayedIndex: int
    /** Every carousel(didSlideToIndex:) the delegate received, in order. */
    var notified: seq<int>
    /** Every setViewControllers call, in order. */
    var pageRequests: seq<PageRequest>
    /** How many load-failure alerts (failLoadMedia) were presented. */
    var alerts: nat
    /** previewView: the thumbnail strip, nil unless preparePreviewView built one. */
    var preview: MediaPreviewView?

    /** One view per asset, no hidden view but the source view, and a strip over all assets. */
    ghost predicate Valid()
      reads this, hidden, preview
    {
      hidden.Length == NumberOfItems(source) &&
      HiddenAtMost(hidden[..], displayedIndex) &&
      (preview != null ==> preview.Valid() && preview.itemCount == NumberOfItems(source))
    }

    /** The displayed index points at an asset and its source view is the only hidden one. */
    ghost predicate Consistent()
      reads this, hidden
    {
      0 <= displayedIndex < hidden.Length && OnlyHidden(hidden[..], displayedIndex)
    }

    constructor (source: Option<seq<Asset>>, hasDelegate: bool, initialIndex: int, mediaType: int)
      ensures Valid() && fresh(hidden)
      ensures this.source == source && this.hasDelegate == hasDelegate
      ensures this.initialIndex == initialIndex && this.mediaType == mediaType
      ensures displayedIndex == initialIndex
      ensures notified == [] && pageRequests == [] && alerts == 0 && preview == null
      ensures forall j :: 0 <= j < hidden.Length ==> !hidden[j]
    {
      this.source := source;
      this.hasDelegate := hasDelegate;
      this.initialIndex := initialIndex;
      this.mediaType := mediaType;
      hidden := new bool[NumberOfItems(source)](_ => false);
      displayedIndex := initialIndex;
      notified := [];
      pageRequests := [];
      alerts := 0;
      preview := null;
    }

    /** sourceView: the index of the data source's view for the displayed asset, if it has one. */
    function SourceView(): (r: Option<int>)
      reads this
      ensures r.Some? <==> 0 <= displayedIndex < hidden.Length
      ensures r.Some? ==> r.value == displayedIndex
    {
      if 0 <= displayedIndex < hidden.Length then Some(displayedIndex) else None
    }

    /** Whenever a source view is hidden it is the source view, and once the displayed
        index points at an asset whose view is hidden, that view is the only hidden one. */
    lemma SourceViewIsTheHiddenView()
      requires Valid()
      ensures forall j :: 0 <= j < hidden.Length && hidden[j] ==> SourceView() == Some(j)
      ensures Consistent() ==>
        SourceView().Some? && hidden[SourceView().value] && OnlyHidden(hidden[..], SourceView().value)
    {
      forall j | 0 <= j < hidden.Length && hidden[j]
        ensures SourceView() == Some(j)
      {
        assert hidden[..][j];
      }
    }

    /** The effect of assigning `k` to displayedIndex, observer included. */
    twostate predicate SlidTo(k: int)
      reads this, hidden
    {
      displayedIndex == k &&
      hidden[..] == AfterSlide(old(hidden[..]), old(displayedIndex), k) &&
      notified == old(notified) + (if old(displayedIndex) != k && hasDelegate then [k] else [])
    }

    /** `displayedIndex = k` with its didSet: nothing for the same index; otherwise the old
        view is shown again, the delegate hears of `k`, and the view at `k` is hidden. */
    method SetDisplayedIndex(k: int)
      requires Valid()
      modifies this, hidden
      ensures Valid() && SlidTo(k)
      ensures pageRequests == old(pageRequests) && alerts == old(alerts)
      ensures preview == old(preview)
      ensures 0 <= k < hidden.Length && (old(displayedIndex) != k || old(Consistent())) ==> Consistent()
    {
      var oldValue := displayedIndex;
      ghost var before := hidden[..];
      displayedIndex := k;
      if oldValue == k {
        return;
      }
      if 0 <= oldValue < hidden.Length {
        hidden[oldValue] := false;
      }
      if hasDelegate {
        notified := notified + [k];
      }
      if 0 <= k < hidden.Length {
        hidden[k] := true;
      }
      assert hidden[..] == AfterSlide(before, oldValue, k);
      SlideKeepsHiddenAtMost(before, oldValue, k);
      if 0 <= k < hidden.Length {
        SlideMovesHiddenView(before, oldValue, k);
      }
    }

    /** dismissMe and deinit: `sourceView?.alpha = 1.0`. */
    method RestoreSourceView()
      requires Valid()
      modifies hidden
      ensures Valid()
      ensures hidden[..] == Show(old(hidden[..]), displayedIndex)
      ensures forall j :: 0 <= j < hidden.Length ==> !hidden[j]
    {
      ghost var before := hidden[..];
      var v := SourceView();
      if v.Some? {
        hidden[v.value] := false;
      }
      assert hidden[..] == Show(before, displayedIndex);
      RestoreShowsAll(before, displayedIndex);
    }

    /** preparePreviewView: a strip over all assets, scrolled to item 0, for a multi-image
        carousel only. */
    method PreparePreviewView()
      requires Valid()
      modifies this`preview
      ensures Valid()
      ensures ShowsPreview(mediaType) ==> preview != null && fresh(preview)
      ensures ShowsPreview(mediaType) ==> preview.itemCount == NumberOfItems(source)
      ensures ShowsPreview(mediaType) ==>
        if 0 < NumberOfItems(source) then preview.scrollTarget == Some(0) && preview.labelText == LabelText(0, NumberOfItems(source))
        else preview.scrollTarget == None && preview.labelText == ""
      ensures !ShowsPreview(mediaType) ==> preview == old(preview)
    {
      if !ShowsPreview(mediaType) {
        return;
      }
      var view := new MediaPreviewView(NumberOfItems(source));
      preview := view;
      view.ScrollToItem(0);
    }

    /** setupInitialDataSource: present the initial page, or raise the load-failure alert. */
    method SetupInitialDataSource()
      modifies this`pageRequests, this`alerts
      ensures pageRequests == old(pageRequests) + InitialRequests(source, initialIndex)
      ensures alerts == old(alerts) + (if InitialPage(source, initialIndex).LoadFailed? then 1 else 0)
    {
      match InitialPage(source, initialIndex) {
        case Composed(vc) =>
          pageRequests := pageRequests + [PageRequest(vc, Forward)];
        case LoadFailed =>
          alerts := alerts + 1;
        case NoPage =>
      }
    }

    /** viewDidLoad, reduced to the two steps that touch the index state. */
    method ViewDidLoad()
      requires Valid()
      modifies this`preview, this`pageRequests, this`alerts
      ensures Valid()
      ensures ShowsPreview(mediaType) <==> preview != null && fresh(preview)
      ensures ShowsPreview(mediaType) ==> preview.itemCount == NumberOfItems(source)
      ensures ShowsPreview(mediaType) ==>
        if 0 < NumberOfItems(source) then preview.scrollTarget == Some(0) && preview.labelText == LabelText(0, NumberOfItems(source))
        else preview.scrollTarget == None && preview.labelText == ""
      ensures !ShowsPreview(mediaType) ==> preview == old(preview)
      ensures pageRequests == old(pageRequests) + InitialRequests(source, initialIndex)
      ensures alerts == old(alerts) + (if InitialPage(source, initialIndex).LoadFailed? then 1 else 0)
    {
      PreparePreviewView();
      SetupInitialDataSource();
    }

    /** The side of a page request shared by viewControllerBefore and viewControllerAfter:
        a failed load presents the alert and yields no page. */
    method Deliver(outcome: PageOutcome) returns (vc: Option<MediaController>)
      modifies this`alerts
      ensures vc == (if outcome.Composed? then Some(outcome.vc) else None)
      ensures alerts == old(alerts) + (if outcome.LoadFailed? then 1 else 0)
    {
      if outcome.LoadFailed? {
        alerts := alerts + 1;
      }
      vc := if outcome.Composed? then Some(outcome.vc) else None;
    }

    /** pageViewController(viewControllerBefore:) */
    method ViewControllerBefore(current: MediaController) returns (vc: Option<MediaController>)
      modifies this`alerts
      ensures vc == (if Before(source, current.index).Composed? then Some(Before(source, current.index).vc) else None)
      ensures alerts == old(alerts) + (if Before(source, current.index).LoadFailed? then 1 else 0)
    {
      vc := Deliver(Before(source, current.index));
    }

    /** pageViewController(viewControllerAfter:) */
    method ViewControllerAfter(current: MediaController) returns (vc: Option<MediaController>)
      modifies this`alerts
      ensures vc == (if After(source, current.index).Composed? then Some(After(source, current.index).vc) else None)
      ensures alerts == old(alerts) + (if After(source, current.index).LoadFailed? then 1 else 0)
    {
      vc := Deliver(After(source, current.index));
    }

    /** pageViewController(didFinishAnimating:…transitionCompleted:): a completed swipe makes
        the presented page's index the displayed one; the strip is re-scrolled either way. */
    method DidFinishAnimating(completed: bool, presented: Option<MediaController>)
      requires Valid()
      modifies this, hidden, preview
      ensures Valid() && preview == old(preview)
      ensures completed && presented.Some? ==> SlidTo(presented.value.index)
      ensures !(completed && presented.Some?) ==>
        displayedIndex == old(displayedIndex) && notified == old(notified) && hidden[..] == old(hidden[..])
      ensures pageRequests == old(pageRequests) && alerts == old(alerts)
      ensures preview != null ==> preview.ScrolledTo(displayedIndex)
      ensures old(Consistent()) && (completed && presented.Some? ==> 0 <= presented.value.index < hidden.Length)
        ==> Consistent()
      ensures (completed && presented.Some? && presented.value.index != old(displayedIndex)
               && 0 <= presented.value.index < hidden.Length) ==> Consistent()
    {
      if completed && presented.Some? {
        SetDisplayedIndex(presented.value.index);
      }
      if preview == null {
        return;
      }
      preview.ScrollToItem(displayedIndex);
    }

    /** collectionView(didSelectItemAt:), its deferred block run at once: a tap on another
        thumbnail slides to it in the matching direction, makes it the displayed index and
        scrolls the strip to it. */
    method DidSelectItem(row: int)
      requires Valid()
      modifies this, hidden, preview
      ensures Valid() && preview == old(preview)
      ensures source.None? || row == old(displayedIndex) ==>
        displayedIndex == old(displayedIndex) && notified == old(notified) && hidden[..] == old(hidden[..])
        && pageRequests == old(pageRequests) && (preview != null ==> unchanged(preview))
      ensures source.Some? && row != old(displayedIndex) ==>
        SlidTo(row)
        && pageRequests == old(pageRequests) + TapRequests(source, old(displayedIndex), row)
        && (preview != null ==> preview.ScrolledTo(row))
      ensures alerts == old(alerts)
      ensures old(Consistent()) && 0 <= row < hidden.Length ==> Consistent()
      ensures source.Some? && row != old(displayedIndex) && 0 <= row < hidden.Length ==> Consistent()
    {
      if source.None? {
        return;
      }
      var oldIndex := displayedIndex;
      var newIndex := row;
      if oldIndex == newIndex {
        return;
      }
      var direction := if newIndex > oldIndex then Forward else Reverse;
      match AssetAt(source, newIndex) {
        case Some(a) =>
          pageRequests := pageRequests + [PageRequest(Compose(a, newIndex), direction)];
        case None =>
      }
      SetDisplayedIndex(newIndex);
      if preview != null {
        preview.ScrollToItem(row);
      }
    }
  }

  /** Three images, starting at 0, swiped straight to the third: the displayed index, the
      strip and the delegate all end on index 2. */
  method SettleOnThirdImage()
  {
    var assets := [Image("a"), Image("b"), Image("c")];
    var carousel := new DarkRoomCarouselViewController(Some(assets), true, 0, RawValue(MultiImage));
    carousel.ViewDidLoad();
    assert carousel.pageRequests == [PageRequest(ImageViewer(0), Forward)];
    assert carousel.preview.scrollTarget == Some(0);
    carousel.DidFinishAnimating(true, Some(ImageViewer(2)));
    assert carousel.displayedIndex == 2;
    assert carousel.notified == [2];
    assert carousel.preview.scrollTarget == Some(2);
    assert carousel.preview.labelText == LabelText(2, 3);
    assert carousel.hidden[..] == [false, false, true];
  }
}
