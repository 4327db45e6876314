/** Two click handlers that only rewrite a few element properties: the
    project "Read More" button and the social links. */
module Toggles {

  /** A project description: the full and the short text's `style.display`,
      and the button's text. */
  datatype ReadMoreView = ReadMoreView(fullDisplay: string, shortDisplay: string, buttonText: string)

  /** The full text counts as hidden while its inline display is "none" or unset. */
  predicate Collapsed(v: ReadMoreView) {
    v.fullDisplay == "none" || v.fullDisplay == ""
  }

  /** A view the button itself has drawn: exactly one text shown, and the button
      offering the other. */
  predicate Drawn(v: ReadMoreView) {
    if Collapsed(v) then v == ReadMoreView("none", "block", "Read More")
    else v == ReadMoreView("block", "none", "Read Less")
  }

  /** A click on "Read More"/"Read Less": flips which text is shown and leaves
      a consistently drawn view. */
  function ClickReadMore(v: ReadMoreView): (r: ReadMoreView)
    ensures Collapsed(r) <==> !Collapsed(v)
    ensures Drawn(r)
  {
    if Collapsed(v) then ReadMoreView("block", "none", "Read Less")
    else ReadMoreView("none", "block", "Read More")
  }

  /** Two clicks restore any view the button has drawn; from the page's
      initial, unset display they end on an explicit "none". */
  lemma ClickTwice(v: ReadMoreView)
    ensures Collapsed(ClickReadMore(ClickReadMore(v))) == Collapsed(v)
    ensures Drawn(v) ==> ClickReadMore(ClickReadMore(v)) == v
  {
  }

  /** `mailto:` and `tel:` links keep their default behaviour. */
  predicate OpensInPlace(href: string) {
    "mailto:" <= href || "tel:" <= href
  }

  /** The new `target` after a click on a social link. */
  function SocialLinkTarget(href: string, target: string): (r: string)
    ensures OpensInPlace(href) ==> r == target
    ensures !OpensInPlace(href) ==> r == "_blank"
  {
    if OpensInPlace(href) then target
    else if target == "" || target != "_blank" then "_blank"
    else target
  }

  /** Clicking a social link again changes nothing more. */
  lemma SocialLinkIdempotent(href: string, target: string)
    ensures SocialLinkTarget(href, SocialLinkTarget(href, target)) == SocialLinkTarget(href, target)
  {
  }
}
