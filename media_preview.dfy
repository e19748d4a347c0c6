/**
  The thumbnail strip under a multi-image carousel (MediaPreviewView.swift): a
  collection view whose item count comes from the carousel, a bounds-guarded
  scroll, and a position label "( i / n )". The deferred main-queue block inside
  scrollToItem is modelled as running at once.
 */
module MediaPreview {
  import opened Wrappers
  import opened SwiftInt

  /** Text of the position label for item `index` of `allCount` (updateBottomLabel).
      It names the 1-based position `index + 1` and the count, and nothing else. */
  function LabelText(index: int, allCount: int): (r: string)
    ensures ParseLabel(r) == Some((index + 1, allCount))
  {
    var m := IntText(index + 1) + " / " + IntText(allCount);
    var s := "( " + m + " )";
    assert s[..2] == "( " && s[|s| - 2..] == " )";
    assert s[2..|s| - 2] == m;
    ParseFractionOf(index + 1, allCount);
    s
  }

  /** Position of the first blank in `s`, or |s| when there is none. */
  function FirstBlank(s: string): (p: nat)
    ensures p <= |s|
    ensures forall i :: 0 <= i < p ==> s[i] != ' '
    ensures p < |s| ==> s[p] == ' '
  {
    if s == [] || s[0] == ' ' then 0 else 1 + FirstBlank(s[1..])
  }

  /** Reads a position label back into (shown position, item count). */
  function ParseLabel(s: string): Option<(int, int)> {
    if |s| < 4 || s[..2] != "( " || s[|s| - 2..] != " )" then None
    else ParseFraction(s[2..|s| - 2])
  }

  /** Reads "a / b": the part before the first blank and the part after " / ". */
  function ParseFraction(m: string): Option<(int, int)> {
    var p := FirstBlank(m);
    if |m| < p + 3 || m[p..p + 3] != " / " then None
    else
      match (ParseInt(m[..p]), ParseInt(m[p + 3..]))
      case (Some(a), Some(b)) => Some((a, b))
      case _ => None
  }

  lemma FirstBlankOf(a: string, rest: string)
    requires forall i :: 0 <= i < |a| ==> a[i] != ' '
    requires |rest| > 0 && rest[0] == ' '
    ensures FirstBlank(a + rest) == |a|
  {
    assert (a + rest)[|a|] == ' ';
  }

  lemma ParseFractionOf(x: int, y: int)
    ensures ParseFraction(IntText(x) + " / " + IntText(y)) == Some((x, y))
  {
    var a, b := IntText(x), IntText(y);
    var m := a + " / " + b;
    assert m == a + (" / " + b);
    FirstBlankOf(a, " / " + b);
    assert m[..|a|] == a;
    assert m[|a|..|a| + 3] == " / ";
    assert m[|a| + 3..] == b;
    IntTextRoundTrip(x);
    IntTextRoundTrip(y);
  }

  class MediaPreviewView {
    /** collectionview.numberOfItems(inSection: 0), answered by the carousel's data source. */
    const itemCount: nat
    /** The item the strip was last scrolled to (centred horizontally); None before any scroll. */
    var scrollTarget: Option<int>
    /** label.text */
    var labelText: string

    /** The label always shows the scroll target's position, and only in-range targets are kept. */
    ghost predicate Valid()
      reads this
    {
      match scrollTarget
      case None => labelText == ""
      case Some(i) => 0 <= i < itemCount && labelText == LabelText(i, itemCount)
    }

    constructor (itemCount: nat)
      ensures Valid()
      ensures this.itemCount == itemCount && scrollTarget == None && labelText == ""
    {
      this.itemCount := itemCount;
      scrollTarget := None;
      labelText := "";
    }

    /** The effect scrollToItem(index:) has: an in-range index is scrolled to and shown, any other is ignored. */
    twostate predicate ScrolledTo(index: int)
      reads this
    {
      if 0 <= index < itemCount then
        scrollTarget == Some(index) && labelText == LabelText(index, itemCount)
      else
        scrollTarget == old(scrollTarget) && labelText == old(labelText)
    }

    method ScrollToItem(index: int)
      requires Valid()
      modifies this
      ensures Valid()
      ensures ScrolledTo(index)
    {
      var numberOfItem := itemCount;
      if !(index >= 0 && numberOfItem > index) {
        return;
      }
      scrollTarget := Some(index);
      labelText := LabelText(index, numberOfItem);
    }

    /** Whatever was scrolled to, the label reads a position in [1, itemCount] and the item count. */
    lemma ShownPosition()
      requires Valid() && scrollTarget.Some?
      ensures var p := scrollTarget.value + 1;
        1 <= p <= itemCount && ParseLabel(labelText) == Some((p, itemCount as int))
    {
    }
  }
}
