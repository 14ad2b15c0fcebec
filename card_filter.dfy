/**
 * The clickable statistics cards of the admin pages: clicking the card of the
 * current view mode clears it, clicking another card selects that one.
 */
module CardFilter {

  /** `setViewMode(viewMode === clicked ? none : clicked)`. */
  function ClickCard<M(==)>(current: M, clicked: M, none: M): (next: M)
    ensures next == clicked || next == none
    ensures next == none <==> current == clicked || clicked == none
  {
    if current == clicked then none else clicked
  }

  /** Clicking the same card twice from any mode but its own lands on no filter. */
  lemma ClickTwiceClears<M>(current: M, clicked: M, none: M)
    requires current != clicked
    ensures ClickCard(ClickCard(current, clicked, none), clicked, none) == none
  {
  }

  /** From no filter, a card click followed by a click on the same card restores no filter. */
  lemma ClickTwiceFromNoneRestores<M>(clicked: M, none: M)
    ensures ClickCard(ClickCard(none, clicked, none), clicked, none) == none
  {
  }
}
