/**
 * The package carousel of main.js (main.js:222-307): a module-level index
 * over the `.package-item` elements, moved by the prev/next buttons and set
 * by the indicator dots, and a refresh that re-marks every item and dot. The
 * module-level variables become the fields of one PackageCarousel object; the
 * test `window.innerWidth <= 768` becomes the parameter `narrow`.
 */
module Packages {
  import opened Cycling

  /** The `active` and `center` class markers of one package item. */
  datatype ItemClasses = ItemClasses(active: bool, center: bool)

  /** What an item should show when `current` is selected: the selected item
      is centred, it and its immediate neighbours by position are active, and
      nothing wraps from the last item to the first. */
  function ItemState(index: int, current: int): ItemClasses
  {
    ItemClasses(current - 1 <= index <= current + 1, index == current)
  }

  /** The markers of all `n` items after a refresh with `current` selected. */
  function ItemStates(current: int, n: nat): (r: seq<ItemClasses>)
    ensures |r| == n
    ensures forall i :: 0 <= i < n ==> r[i] == ItemState(i, current)
  {
    seq(n, i => ItemState(i, current))
  }

  /** The `active` marker of each of `n` indicator dots with `current`
      selected. */
  function IndicatorStates(current: int, n: nat): (r: seq<bool>)
    ensures |r| == n
    ensures forall i :: 0 <= i < n ==> (r[i] <==> i == current)
  {
    seq(n, i => i == current)
  }

  /** Exactly the selected item is centred, and the centred item is also
      active. */
  lemma CenteredItemIsUnique(current: int, n: nat, i: int, j: int)
    requires 0 <= i < n && 0 <= j < n
    requires ItemStates(current, n)[i].center && ItemStates(current, n)[j].center
    ensures i == j == current && ItemStates(current, n)[i].active
  {
  }

  /** The carousel does not wrap: with at least three items, the first and
      the last are never both active, and selecting one end leaves the other
      end unmarked. */
  lemma NoWrapAround(n: nat)
    requires n >= 3
    ensures !ItemStates(0, n)[n - 1].active
    ensures !ItemStates(n - 1, n)[0].active
  {
  }

  class PackageCarousel {
    /** The markers of the `.package-item` elements. */
    const items: array<ItemClasses>
    /** The `active` markers of the `.carousel-indicator` dots. */
    const indicators: array<bool>
    /** Whether the page has the `packageTrack` element. */
    const hasTrack: bool
    var currentPackageIndex: int

    /** The index is a valid position (0 while there are no items), and
        there is either no indicator or one per item (main.js:241-246). */
    ghost predicate Valid()
      reads this
    {
      && (items.Length == 0 ==> currentPackageIndex == 0)
      && (items.Length > 0 ==> 0 <= currentPackageIndex < items.Length)
      && (indicators.Length == 0 || indicators.Length == items.Length)
    }

    /** Whether a refresh re-marks the items: only on a wide viewport, with
        a track and at least one item (main.js:279, 284). */
    predicate Refreshes(narrow: bool)
      reads this
    {
      !narrow && hasTrack && items.Length > 0
    }

    /** The effect of `updatePackageCarousel` between two states: every item
        and every dot re-marked from the current index, or nothing changed
        when the refresh returns early. */
    twostate predicate Refreshed(narrow: bool)
      reads this, items, indicators
    {
      if Refreshes(narrow) then
        && items[..] == ItemStates(currentPackageIndex, items.Length)
        && indicators[..] == IndicatorStates(currentPackageIndex, indicators.Length)
      else
        && items[..] == old(items[..])
        && indicators[..] == old(indicators[..])
    }

    /** `initializePackageCarousel` (main.js:229-263) on a page whose items
        carry the markers `markup`. On a wide viewport it creates one dot per
        item (the first one active) when the dots' container exists, and
        refreshes; on a narrow one it only switches the carousel to native
        scrolling, which is not modelled. */
    constructor (markup: seq<ItemClasses>, narrow: bool, hasIndicatorsContainer: bool, hasTrack: bool)
      ensures Valid() && fresh(items) && fresh(indicators)
      ensures this.hasTrack == hasTrack
      ensures currentPackageIndex == 0
      ensures indicators.Length == (if !narrow && hasIndicatorsContainer && |markup| > 0 then |markup| else 0)
      ensures indicators[..] == IndicatorStates(0, indicators.Length)
      ensures items[..] == if !narrow && hasTrack && |markup| > 0 then ItemStates(0, |markup|) else markup
    {
      items := new ItemClasses[|markup|](i requires 0 <= i < |markup| => markup[i]);
      var dots := if !narrow && hasIndicatorsContainer && |markup| > 0 then |markup| else 0;
      indicators := new bool[dots](i => i == 0);
      this.hasTrack := hasTrack;
      currentPackageIndex := 0;
      new;
      assert items[..] == markup;
      assert indicators[..] == IndicatorStates(0, dots);
      if |markup| > 0 && !narrow {
        UpdatePackageCarousel(narrow);
      }
    }

    /** `changePackage(direction)` (main.js:265-270): one step around the
        cycle of items, then a refresh. */
    method ChangePackage(direction: int, narrow: bool)
      requires Valid() && items.Length >= 1
      requires direction == 1 || direction == -1
      modifies this, items, indicators
      ensures Valid()
      ensures currentPackageIndex == Cycle(old(currentPackageIndex), direction, items.Length)
      ensures Refreshed(narrow)
    {
      currentPackageIndex := JsRem(currentPackageIndex + direction + items.Length, items.Length);
      UpdatePackageCarousel(narrow);
    }

    /** `goToPackage(index)` (main.js:272-275), bound to the click of dot
        number `index`; dots exist only for item positions. */
    method GoToPackage(index: int, narrow: bool)
      requires Valid() && 0 <= index < items.Length
      modifies this, items, indicators
      ensures Valid()
      ensures currentPackageIndex == index
      ensures Refreshed(narrow)
    {
      currentPackageIndex := index;
      UpdatePackageCarousel(narrow);
    }

    /** `updatePackageCarousel` (main.js:277-307) without the track's pixel
        offset: each item loses both markers and regains them by its distance
        from the current index, and each dot is active iff its position is
        the current index. */
    method UpdatePackageCarousel(narrow: bool)
      requires Valid()
      modifies items, indicators
      ensures Refreshed(narrow)
    {
      if narrow || !hasTrack || items.Length == 0 {
        return;
      }
      var i := 0;
      while i < items.Length
        invariant 0 <= i <= items.Length
        invariant forall k :: 0 <= k < i ==> items[k] == ItemState(k, currentPackageIndex)
        invariant indicators[..] == old(indicators[..])
      {
        var classes := ItemClasses(false, false);
        if i == currentPackageIndex {
          classes := ItemClasses(true, true);
        } else if (if i - currentPackageIndex < 0 then currentPackageIndex - i else i - currentPackageIndex) <= 1 {
          classes := classes.(active := true);
        }
        items[i] := classes;
        i := i + 1;
      }
      var j := 0;
      while j < indicators.Length
        invariant 0 <= j <= indicators.Length
        invariant forall k :: 0 <= k < j ==> (indicators[k] <==> k == currentPackageIndex)
        invariant forall k :: 0 <= k < items.Length ==> items[k] == ItemState(k, currentPackageIndex)
      {
        indicators[j] := j == currentPackageIndex;
        j := j + 1;
      }
      assert items[..] == ItemStates(currentPackageIndex, items.Length);
      assert indicators[..] == IndicatorStates(currentPackageIndex, indicators.Length);
    }
  }
}
