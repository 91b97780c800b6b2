/**
 * `AnimatedNavigationTabs`: a row of buttons with an underline under the
 * active item and a highlight under the hovered one.
 *
 * Two state fields: `active`, written on click and initialised to the first
 * item, and `isHover`, written on mouse enter and cleared on mouse leave.
 * Which item shows which indicator is a comparison of ids.
 */
module AnimatedNavigationTabs {
  import opened Wrappers

  /** A navigation item: its id and its text (`tile`). */
  datatype Tab = Tab(id: int, tile: string)

  /** No two items share an id. */
  predicate UniqueIds(items: seq<Tab>) {
    forall i, j :: 0 <= i < j < |items| ==> items[i].id != items[j].id
  }

  /** The underline and the primary text colour are shown for `item`. With no
      items at all `active` is undefined, and nothing is drawn to test it. */
  predicate ShowsActive(active: Option<Tab>, item: Tab) {
    active.Some? && active.value.id == item.id
  }

  /** The hover background and the hover line are shown for `item`. */
  predicate ShowsHover(isHover: Option<Tab>, item: Tab) {
    isHover.Some? && isHover.value.id == item.id
  }

  /** The indicators drawn on one button. */
  datatype TabView = TabView(primaryText: bool, activeLine: bool, hoverBackground: bool, hoverLine: bool)

  function TabsView(items: seq<Tab>, active: Option<Tab>, isHover: Option<Tab>): (views: seq<TabView>)
    ensures |views| == |items|
    ensures forall j :: 0 <= j < |items| ==>
      views[j].primaryText == views[j].activeLine == ShowsActive(active, items[j])
      && views[j].hoverBackground == views[j].hoverLine == ShowsHover(isHover, items[j])
  {
    seq(|items|, j requires 0 <= j < |items| =>
      TabView(ShowsActive(active, items[j]), ShowsActive(active, items[j]),
              ShowsHover(isHover, items[j]), ShowsHover(isHover, items[j])))
  }

  /** With unique ids and the active item among the items, exactly one item
      shows the active underline: the active item's own button. */
  lemma ExactlyOneActive(items: seq<Tab>, active: Tab)
    requires UniqueIds(items) && active in items
    ensures exists k :: 0 <= k < |items| && items[k] == active
    ensures forall k, j :: 0 <= k < |items| && 0 <= j < |items| && items[k] == active ==>
      (ShowsActive(Some(active), items[j]) <==> j == k)
  {
  }

  /** With unique ids at most one item shows the hover indicators, and none
      when nothing is hovered. */
  lemma AtMostOneHovered(items: seq<Tab>, isHover: Option<Tab>, i: nat, j: nat)
    requires UniqueIds(items) && i < |items| && j < |items|
    requires ShowsHover(isHover, items[i]) && ShowsHover(isHover, items[j])
    ensures i == j && isHover.Some?
  {
  }

  /** A mounted `AnimatedNavigationTabs`. */
  class NavigationTabs {
    const items: seq<Tab>
    var active: Option<Tab>
    var isHover: Option<Tab>

    /** `active` is defined exactly when there are items, and both fields only
        ever hold items of the list. */
    ghost predicate Valid()
      reads this
    {
      && (active.Some? <==> |items| > 0)
      && (active.Some? ==> active.value in items)
      && (isHover.Some? ==> isHover.value in items)
    }

    /** Mount: the first item is active and nothing is hovered. */
    constructor (items: seq<Tab>)
      ensures this.items == items && Valid()
      ensures active == (if |items| > 0 then Some(items[0]) else None)
      ensures isHover == None
    {
      this.items := items;
      active := if |items| > 0 then Some(items[0]) else None;
      isHover := None;
    }

    /** Click on item `k`: it becomes active; the hover is left alone. */
    method Click(k: nat)
      requires Valid() && k < |items|
      modifies this
      ensures Valid() && active == Some(items[k]) && isHover == old(isHover)
    {
      active := Some(items[k]);
    }

    /** The mouse enters item `k`. */
    method MouseEnter(k: nat)
      requires Valid() && k < |items|
      modifies this
      ensures Valid() && isHover == Some(items[k]) && active == old(active)
    {
      isHover := Some(items[k]);
    }

    /** The mouse leaves item `k`: nothing is hovered, whichever item it was. */
    method MouseLeave(k: nat)
      requires Valid() && k < |items|
      modifies this
      ensures Valid() && isHover == None && active == old(active)
    {
      isHover := None;
    }
  }
}
