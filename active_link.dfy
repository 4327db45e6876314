/** The scroll listener that highlights the navigation link of the section
    under the scroll position. */
module ActiveLink {
  import opened Wrappers

  /** Sections start counting as current this many pixels above their top. */
  const BandOffset := 100

  /** A `section` element: `offsetTop`, `clientHeight` and its `id` attribute
      (absent when the element has none). */
  datatype Section = Section(offsetTop: int, clientHeight: int, id: Option<string>)

  /** The scroll position lies in `[offsetTop - 100, offsetTop - 100 + clientHeight)`. */
  predicate InBand(s: Section, scrollY: int) {
    s.offsetTop - BandOffset <= scrollY < s.offsetTop - BandOffset + s.clientHeight
  }

  /** `#${currentId}`: a missing id prints as "null". */
  function Anchor(id: Option<string>): string {
    match id
    case Some(name) => "#" + name
    case None => "#null"
  }

  /** The last section, in document order, whose band holds the scroll position. */
  function LastMatch(sections: seq<Section>, scrollY: int): (r: Option<nat>)
    ensures r == None <==> forall k :: 0 <= k < |sections| ==> !InBand(sections[k], scrollY)
    ensures r.Some? ==> r.value < |sections| && InBand(sections[r.value], scrollY)
    ensures r.Some? ==> forall k :: r.value < k < |sections| ==> !InBand(sections[k], scrollY)
    decreases |sections|
  {
    if sections == [] then None
    else if InBand(sections[|sections| - 1], scrollY) then Some(|sections| - 1)
    else LastMatch(sections[..|sections| - 1], scrollY)
  }

  /** The inner `navLinks.forEach`: every link loses "active", and the ones
      whose `href` attribute is `anchor` get it back. */
  method MarkLinks(hrefs: seq<Option<string>>, active: array<bool>, anchor: string)
    requires active.Length == |hrefs|
    modifies active
    ensures forall i :: 0 <= i < |hrefs| ==> active[i] == (hrefs[i] == Some(anchor))
  {
    for i := 0 to active.Length
      invariant forall m :: 0 <= m < i ==> active[m] == (hrefs[m] == Some(anchor))
    {
      active[i] := false;
      if hrefs[i] == Some(anchor) {
        active[i] := true;
      }
    }
  }

  /** One scroll tick: each section in turn, when its band holds `scrollY`,
      re-marks the links; so the last matching section decides, and with no
      match the links keep their flags. */
  method HighlightNavLinks(sections: seq<Section>, scrollY: int,
                           hrefs: seq<Option<string>>, active: array<bool>)
    requires active.Length == |hrefs|
    modifies active
    ensures LastMatch(sections, scrollY) == None ==> active[..] == old(active[..])
    ensures LastMatch(sections, scrollY).Some? ==>
      var current := sections[LastMatch(sections, scrollY).value];
      forall i :: 0 <= i < |hrefs| ==> active[i] == (hrefs[i] == Some(Anchor(current.id)))
  {
    for k := 0 to |sections|
      invariant LastMatch(sections[..k], scrollY) == None ==> active[..] == old(active[..])
      invariant LastMatch(sections[..k], scrollY).Some? ==>
        var current := sections[LastMatch(sections[..k], scrollY).value];
        forall i :: 0 <= i < |hrefs| ==> active[i] == (hrefs[i] == Some(Anchor(current.id)))
    {
      assert sections[..k + 1][..k] == sections[..k];
      if InBand(sections[k], scrollY) {
        MarkLinks(hrefs, active, Anchor(sections[k].id));
      }
    }
    assert sections[..|sections|] == sections;
  }
}
