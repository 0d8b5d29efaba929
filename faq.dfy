/**
 * The FAQ accordions (src/components/FAQ.tsx and src/components/FAQ2.tsx). Both keep one
 * piece of state, `openIndex`, and share `toggleFAQ`; they differ only in the indicator:
 * FAQ turns a line by 90 degrees, FAQ2 turns a chevron by 180.
 */
module Faq {
  import opened Wrappers

  /** `toggleFAQ`'s new state: clicking the open item closes it, any other opens alone. */
  function Toggled(openIndex: Option<nat>, index: nat): (r: Option<nat>)
    ensures r == None <==> openIndex == Some(index)
    ensures r != None ==> r == Some(index)
  {
    if openIndex == Some(index) then None else Some(index)
  }

  /** Item `index`'s answer is rendered (`openIndex === index && ...`). */
  predicate AnswerShown(openIndex: Option<nat>, index: nat) {
    openIndex == Some(index)
  }

  /** FAQ's vertical line: 90 degrees when its item is open, else 0. */
  function LineRotation(openIndex: Option<nat>, index: nat): (deg: int)
    ensures deg == 90 <==> AnswerShown(openIndex, index)
    ensures deg == 0 || deg == 90
  {
    if openIndex == Some(index) then 90 else 0
  }

  /** FAQ2's chevron: 180 degrees when its item is open, else 0. */
  function ChevronRotation(openIndex: Option<nat>, index: nat): (deg: int)
    ensures deg == 180 <==> AnswerShown(openIndex, index)
    ensures deg == 0 || deg == 180
  {
    if openIndex == Some(index) then 180 else 0
  }

  /** At most one answer is rendered at any time. */
  lemma AtMostOneShown(openIndex: Option<nat>, i: nat, j: nat)
    requires AnswerShown(openIndex, i) && AnswerShown(openIndex, j)
    ensures i == j
  {
  }

  /** After a toggle of `index`, no other item is shown, and `index` is shown iff it was not. */
  lemma ToggleShows(openIndex: Option<nat>, index: nat, other: nat)
    ensures AnswerShown(Toggled(openIndex, index), index) <==> !AnswerShown(openIndex, index)
    ensures other != index ==> !AnswerShown(Toggled(openIndex, index), other)
  {
  }

  /** Toggling the same item twice from closed returns to closed, and from open to open. */
  lemma ToggleTwice(openIndex: Option<nat>, index: nat)
    ensures openIndex == None ==> Toggled(Toggled(openIndex, index), index) == None
    ensures openIndex == Some(index) ==> Toggled(Toggled(openIndex, index), index) == Some(index)
    ensures openIndex.Some? && openIndex.value != index ==>
      Toggled(Toggled(openIndex, index), index) == None
  {
  }

  /** One mounted accordion: `useState<number | null>(null)`. */
  class Accordion {
    var openIndex: Option<nat>

    constructor ()
      ensures openIndex == None
    {
      openIndex := None;
    }

    /** `toggleFAQ(index)`. */
    method Toggle(index: nat)
      modifies this
      ensures openIndex == Toggled(old(openIndex), index)
    {
      openIndex := if openIndex == Some(index) then None else Some(index);
    }

    /** The rendering of item `index`: whether its answer shows, and the two indicators. */
    method Render(index: nat) returns (shown: bool, line: int, chevron: int)
      ensures shown <==> openIndex == Some(index)
      ensures line == LineRotation(openIndex, index) && chevron == ChevronRotation(openIndex, index)
    {
      shown := openIndex == Some(index);
      line := if shown then 90 else 0;
      chevron := if shown then 180 else 0;
    }
  }

  /** Open item 2, then item 4, then item 4 again: all closed. */
  method OpenTwoThenFour() returns (a: Accordion, shownAfterFour: seq<bool>)
    ensures a.openIndex == None
    ensures shownAfterFour == [false, false, false, false, true]
  {
    a := new Accordion();
    a.Toggle(2);
    a.Toggle(4);
    var s0, _, _ := a.Render(0);
    var s1, _, _ := a.Render(1);
    var s2, _, _ := a.Render(2);
    var s3, _, _ := a.Render(3);
    var s4, _, _ := a.Render(4);
    shownAfterFour := [s0, s1, s2, s3, s4];
    a.Toggle(4);
  }
}
