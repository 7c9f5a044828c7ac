/** The FAQ accordion: one index drives which answer is shown. */
module Faq {
  import opened Wrappers
  import opened Selection

  /** Whether the answer at `idx` is shown for `activeIndex`. */
  predicate Shown(activeIndex: Option<int>, idx: int): (b: bool)
    ensures activeIndex.None? ==> !b
    ensures activeIndex.Some? ==> (b <==> idx == activeIndex.value)
  {
    activeIndex == Some(idx)
  }

  /** At most one answer is shown at any time. */
  lemma AtMostOneShown(activeIndex: Option<int>, i: int, j: int)
    requires Shown(activeIndex, i) && Shown(activeIndex, j)
    ensures i == j
  {
  }

  class Accordion {
    var activeIndex: Option<int>

    constructor ()
      ensures activeIndex.None?
      ensures forall i :: !Shown(activeIndex, i)
    {
      activeIndex := None;
    }

    /** `toogleFAQ(idx)`. */
    method ToggleFaq(idx: int)
      modifies this
      ensures activeIndex == Click(old(activeIndex), idx)
      ensures Shown(activeIndex, idx) <==> !Shown(old(activeIndex), idx)
      ensures forall j :: j != idx ==> !Shown(activeIndex, j)
    {
      activeIndex := if activeIndex == Some(idx) then None else Some(idx);
    }
  }
}
