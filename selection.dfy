/** A single optional selection toggled by clicking an item: the idiom
    `setX(x === item ? null : item)` shared by the navigation dropdowns and
    the FAQ accordion. */
module Selection {
  import opened Wrappers

  /** Clicking `item`: closes it if it is the selected one, otherwise makes
      it the (only) selected one. */
  function Click<T(==)>(current: Option<T>, item: T): (r: Option<T>)
    ensures r.None? <==> current == Some(item)
    ensures r.Some? ==> r.value == item
  {
    if current == Some(item) then None else Some(item)
  }

  /** Clicking the same item twice, from any state, gives back whether that
      item was selected. */
  lemma ClickTwice<T>(current: Option<T>, item: T)
    ensures (Click(Click(current, item), item) == Some(item)) == (current == Some(item))
  {
  }

  /** Clicking an item never selects a different one. */
  lemma ClickSelectsOnlyItem<T>(current: Option<T>, item: T, other: T)
    requires other != item
    ensures Click(current, item) != Some(other)
  {
  }
}
