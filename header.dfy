/** The header restyling on scroll (script.js:71-83). */
module Header {

  datatype Style = Style(background: string, backdropFilter: string)

  /** Scroll offset, in pixels, past which the header turns opaque. */
  const Threshold: real := 100.0

  const Scrolled := Style("rgba(255, 255, 255, 0.98)", "blur(20px)")
  const AtTop := Style("rgba(255, 255, 255, 0.95)", "blur(10px)")

  function StyleFor(scrollY: real): Style {
    if scrollY > Threshold then Scrolled else AtTop
  }

  /** The two looks are told apart exactly by the threshold. */
  lemma StyleThreshold(scrollY: real)
    ensures StyleFor(scrollY) == Scrolled <==> scrollY > Threshold
    ensures StyleFor(scrollY) == AtTop <==> scrollY <= Threshold
  {
  }

  /** Scrolling further down never reverts the opaque look. */
  lemma StyleMonotone(y1: real, y2: real)
    requires y1 <= y2 && StyleFor(y1) == Scrolled
    ensures StyleFor(y2) == Scrolled
  {
  }
}
