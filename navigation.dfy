/**
 * Scroll-driven navigation markers of main.js: the active-section
 * highlighting of the nav links (main.js:518-542) and the navbar's `scrolled`
 * marker (main.js:482-490). Section geometry and scroll offsets are
 * parameters; the links' `active` markers are an array updated in place.
 */
module Navigation {
  import opened Wrappers

  /** A `section[id]`: its `offsetTop`, `offsetHeight` and `id`. */
  datatype Section = Section(top: int, height: int, id: string)

  /** The scroll position tested against the sections (main.js:525). */
  function ScrollPosition(scrollY: real): real
  {
    scrollY + 100.0
  }

  /** Whether the section's interval `[top, top + height)` holds `pos`
      (main.js:532). */
  predicate Holds(s: Section, pos: real)
  {
    pos >= s.top as real && pos < (s.top + s.height) as real
  }

  /** The last section, in document order, whose interval holds `pos`. */
  function LastMatch(sections: seq<Section>, pos: real): (r: Option<nat>)
    ensures r.Some? ==> r.value < |sections| && Holds(sections[r.value], pos)
    ensures r.Some? ==> forall j :: r.value < j < |sections| ==> !Holds(sections[j], pos)
    ensures r.None? ==> forall j :: 0 <= j < |sections| ==> !Holds(sections[j], pos)
  {
    if sections == [] then None
    else if Holds(sections[|sections| - 1], pos) then Some(|sections| - 1)
    else LastMatch(sections[..|sections| - 1], pos)
  }

  /** The link markers after highlighting the section `id`: a link is active
      exactly when its `href` is `#` followed by that id. */
  function LinkStates(hrefs: seq<string>, id: string): (r: seq<bool>)
    ensures |r| == |hrefs|
    ensures forall j :: 0 <= j < |hrefs| ==> (r[j] <==> hrefs[j] == "#" + id)
  {
    seq(|hrefs|, j requires 0 <= j < |hrefs| => hrefs[j] == "#" + id)
  }

  /** The scroll handler of `initializeNavigation` (main.js:524-541): for each
      section holding the scroll position, every link loses `active` and the
      one pointing at the section gains it. The last such section decides;
      when none holds the position the links keep their markers. */
  method HighlightActiveSection(scrollY: real, sections: seq<Section>, hrefs: seq<string>,
                                linkActive: array<bool>)
    requires linkActive.Length == |hrefs|
    modifies linkActive
    ensures match LastMatch(sections, ScrollPosition(scrollY))
            case None => linkActive[..] == old(linkActive[..])
            case Some(k) => linkActive[..] == LinkStates(hrefs, sections[k].id)
  {
    var scrollPos := ScrollPosition(scrollY);
    var i := 0;
    while i < |sections|
      invariant 0 <= i <= |sections|
      invariant match LastMatch(sections[..i], scrollPos)
                case None => linkActive[..] == old(linkActive[..])
                case Some(k) => k < i && linkActive[..] == LinkStates(hrefs, sections[k].id)
    {
      var section := sections[i];
      assert sections[..i + 1][..i] == sections[..i];
      if scrollPos >= section.top as real && scrollPos < (section.top + section.height) as real {
        var j := 0;
        while j < linkActive.Length
          invariant 0 <= j <= linkActive.Length
          invariant forall l :: 0 <= l < j ==> (linkActive[l] <==> hrefs[l] == "#" + section.id)
        {
          linkActive[j] := false;
          if hrefs[j] == "#" + section.id {
            linkActive[j] := true;
          }
          j := j + 1;
        }
        assert linkActive[..] == LinkStates(hrefs, section.id);
      }
      i := i + 1;
    }
    assert sections[..|sections|] == sections;
  }

  /** The offset the navbar rule reads: `pageYOffset`, or the document's
      `scrollTop` when that is 0 (main.js:483). */
  function ScrollTop(pageYOffset: real, documentScrollTop: real): real
  {
    if pageYOffset != 0.0 then pageYOffset else documentScrollTop
  }

  /** Whether the navbar carries `scrolled` after a scroll event: when the
      offset read by the rule is past 50 pixels (main.js:486-490). A page
      offset of 0 is falsy, so the document's offset decides then. */
  function NavbarScrolled(pageYOffset: real, documentScrollTop: real): (scrolled: bool)
    ensures scrolled <==> pageYOffset > 50.0 || (pageYOffset == 0.0 && documentScrollTop > 50.0)
  {
    ScrollTop(pageYOffset, documentScrollTop) > 50.0
  }

  /** The navbar rule is monotone in the offset it reads: scrolling further
      down, by either offset, never removes `scrolled`. */
  lemma NavbarScrolledMonotone(p1: real, d1: real, p2: real, d2: real)
    requires ScrollTop(p1, d1) <= ScrollTop(p2, d2)
    ensures NavbarScrolled(p1, d1) ==> NavbarScrolled(p2, d2)
  {
  }
}
