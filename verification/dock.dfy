/**
 * `Dock`: a row of icon items with status dots, progress rings and a tooltip
 * for the hovered item, plus an optional add button.
 *
 * The only state is `hoveredIndex`, written by each item's hover handlers;
 * everything drawn for an item is a pure function of the item and of
 * `hoveredIndex`. Icons, labels' styling and the add button's click callback
 * are not modelled.
 */
module Dock {
  import opened Wrappers

  datatype Status = Synced | Training | Active | Online | Alert | Idle

  /** A dock entry (its `label` is `labelText`, `label` being a Dafny keyword);
      `status`, `count` and `progress` may be absent. */
  datatype DockItem = DockItem(labelText: string, status: Option<Status>, count: Option<string>, progress: Option<real>)

  // ---------------------------------------------------------------------------
  // Status dot
  // ---------------------------------------------------------------------------

  /** The colour class of each status. */
  function StatusColor(s: Status): string {
    match s
    case Training => "bg-primary animate-pulse"
    case Alert => "bg-destructive"
    case Active => "bg-[hsl(var(--chart-2))]"
    case Online => "bg-[hsl(var(--chart-1))]"
    case Synced => "bg-[hsl(var(--chart-4))]"
    case Idle => "bg-muted-foreground"
  }

  /** The table gives every status a colour of its own. */
  lemma StatusColorsDistinct(a: Status, b: Status)
    ensures StatusColor(a) == StatusColor(b) ==> a == b
  {
  }

  /** The status dot: drawn exactly when the item has a status, in that
      status's colour. */
  function StatusDot(item: DockItem): (dot: Option<string>)
    ensures dot.Some? <==> item.status.Some?
    ensures dot.Some? ==> forall s :: StatusColor(s) == dot.value <==> s == item.status.value
  {
    match item.status
    case Some(s) => Some(StatusColor(s))
    case None => None
  }

  // ---------------------------------------------------------------------------
  // Progress ring
  // ---------------------------------------------------------------------------

  /** Length of the ring's dash pattern. */
  const RingLength: real := 94.0

  /** How much of the ring is left undrawn at a given percentage. */
  function DashOffset(progress: real): (offset: real)
    ensures progress == 0.0 ==> offset == RingLength
    ensures progress == 100.0 ==> offset == 0.0
    ensures 0.0 < progress <= 100.0 ==> 0.0 <= offset < RingLength
    ensures offset + RingLength * progress / 100.0 == RingLength
  {
    RingLength - (RingLength * progress) / 100.0
  }

  /** More progress leaves less of the ring undrawn. */
  lemma DashOffsetDecreasing(p: real, q: real)
    requires p < q
    ensures DashOffset(q) < DashOffset(p)
  {
  }

  /** What the `{item.progress && …}` slot produces. */
  datatype ProgressSlot = NoRing | Ring(dashOffset: real) | Digit(text: string)

  /** The slot as written: JavaScript's `&&` yields its left operand when that
      is falsy, and React draws the number 0 as the text "0". Without a
      progress nothing is drawn; any other progress draws the ring. */
  function ProgressSlotAsWritten(progress: Option<real>): (slot: ProgressSlot)
    ensures slot.NoRing? <==> progress.None?
    ensures slot.Digit? <==> progress == Some(0.0)
    ensures slot.Digit? ==> slot.text == "0"
    ensures slot.Ring? ==> slot.dashOffset + RingLength * progress.value / 100.0 == RingLength
  {
    match progress
    case None => NoRing
    case Some(p) => if p == 0.0 then Digit("0") else Ring(DashOffset(p))
  }

  /** An item at 0% shows a stray "0" where the ring would be. */
  lemma ZeroProgressShowsDigit()
    ensures ProgressSlotAsWritten(Some(0.0)) == Digit("0")
  {
  }

  /** The ring as intended: drawn exactly when the progress is present and
      non-zero, with the offset for that progress, and nothing otherwise. */
  function ProgressRing(progress: Option<real>): (offset: Option<real>)
    ensures offset.Some? <==> progress.Some? && progress.value != 0.0
    ensures offset.Some? ==> offset.value + RingLength * progress.value / 100.0 == RingLength
  {
    match progress
    case Some(p) => if p == 0.0 then None else Some(DashOffset(p))
    case None => None
  }

  /** Apart from the stray digit, the slot as written draws what the intended
      ring draws. */
  lemma ProgressRingMatchesAsWritten(progress: Option<real>)
    ensures ProgressSlotAsWritten(progress).Digit? <==> progress == Some(0.0)
    ensures ProgressSlotAsWritten(progress).Ring? <==> ProgressRing(progress).Some?
    ensures ProgressRing(progress).Some? ==>
      ProgressSlotAsWritten(progress) == Ring(ProgressRing(progress).value)
  {
  }

  // ---------------------------------------------------------------------------
  // Tooltip, count line, add button
  // ---------------------------------------------------------------------------

  /** Item `index`'s tooltip is shown when it is the hovered item. */
  predicate TooltipShown(hoveredIndex: Option<nat>, index: nat) {
    hoveredIndex == Some(index)
  }

  /** The tooltip's animation target: opacity and vertical offset. */
  datatype TooltipPose = TooltipPose(opacity: int, y: int)

  function TooltipPoseFor(hoveredIndex: Option<nat>, index: nat): (pose: TooltipPose)
    ensures pose.opacity == 1 <==> TooltipShown(hoveredIndex, index)
    ensures pose.opacity == 0 <==> !TooltipShown(hoveredIndex, index)
    ensures pose.y == 0 <==> TooltipShown(hoveredIndex, index)
    ensures !TooltipShown(hoveredIndex, index) ==> pose.y == 20
  {
    if hoveredIndex == Some(index) then TooltipPose(1, 0) else TooltipPose(0, 20)
  }

  /** The items, among the first `itemCount`, whose tooltip is shown: at most one. */
  function VisibleTooltips(hoveredIndex: Option<nat>, itemCount: nat): (shown: set<nat>)
    ensures forall j: nat :: j in shown <==> j < itemCount && TooltipShown(hoveredIndex, j)
    ensures |shown| <= 1
  {
    if hoveredIndex.Some? && hoveredIndex.value < itemCount then {hoveredIndex.value} else {}
  }

  /** The count line under the label: drawn when the count is present and,
      since an empty string is falsy, non-empty. */
  function CountLine(item: DockItem): (line: Option<string>)
    ensures line.Some? <==> item.count.Some? && item.count.value != ""
    ensures line.Some? ==> line == item.count
  {
    match item.count
    case Some(c) => if c == "" then None else Some(c)
    case None => None
  }

  /** Whether the add button is drawn; the prop defaults to true. */
  function ShowAddButton(showAddButton: Option<bool>): (shown: bool)
    ensures showAddButton.None? ==> shown
    ensures showAddButton.Some? ==> shown == showAddButton.value
  {
    showAddButton.GetOr(true)
  }

  /** What is drawn for one item, with the intended progress ring (see
      `ProgressSlotAsWritten` for the stray digit the code draws at 0%). */
  datatype ItemView = ItemView(
    statusDot: Option<string>,
    ringOffset: Option<real>,
    tooltip: TooltipPose,
    labelText: string,
    countLine: Option<string>)

  function ItemViewFor(item: DockItem, index: nat, hoveredIndex: Option<nat>): (v: ItemView)
    ensures v.statusDot.Some? <==> item.status.Some?
    ensures v.ringOffset.Some? <==> item.progress.Some? && item.progress.value != 0.0
    ensures v.ringOffset.Some? <==> ProgressSlotAsWritten(item.progress).Ring?
    ensures v.tooltip.opacity == 1 <==> hoveredIndex == Some(index)
    ensures v.labelText == item.labelText
    ensures v.countLine.Some? <==> item.count.Some? && item.count.value != ""
  {
    ItemView(StatusDot(item), ProgressRing(item.progress), TooltipPoseFor(hoveredIndex, index),
             item.labelText, CountLine(item))
  }

  /** The whole row: one view per item, in order. */
  function DockView(items: seq<DockItem>, hoveredIndex: Option<nat>): (views: seq<ItemView>)
    ensures |views| == |items|
    ensures forall j :: 0 <= j < |items| ==> views[j] == ItemViewFor(items[j], j, hoveredIndex)
  {
    seq(|items|, j requires 0 <= j < |items| => ItemViewFor(items[j], j, hoveredIndex))
  }

  /** In the row, the tooltips at full opacity are exactly the visible ones:
      the hovered item's, or none. */
  lemma OneTooltipInRow(items: seq<DockItem>, hoveredIndex: Option<nat>)
    ensures forall j :: 0 <= j < |items| ==>
      (DockView(items, hoveredIndex)[j].tooltip.opacity == 1 <==> j in VisibleTooltips(hoveredIndex, |items|))
    ensures |VisibleTooltips(hoveredIndex, |items|)| <= 1
  {
  }

  // ---------------------------------------------------------------------------
  // The component instance
  // ---------------------------------------------------------------------------

  /** A mounted `Dock` and its hover state. */
  class DockState {
    const items: seq<DockItem>
    var hoveredIndex: Option<nat>

    ghost predicate Valid()
      reads this
    {
      hoveredIndex.Some? ==> hoveredIndex.value < |items|
    }

    /** Mount: nothing hovered. */
    constructor (items: seq<DockItem>)
      ensures this.items == items && hoveredIndex == None && Valid()
    {
      this.items := items;
      hoveredIndex := None;
    }

    /** Hover starts on item `index`. */
    method HoverStart(index: nat)
      requires Valid() && index < |items|
      modifies this
      ensures Valid() && hoveredIndex == Some(index)
      ensures VisibleTooltips(hoveredIndex, |items|) == {index}
    {
      hoveredIndex := Some(index);
    }

    /** Hover ends on item `index`: whichever item was hovered, none is now. */
    method HoverEnd(index: nat)
      requires Valid() && index < |items|
      modifies this
      ensures Valid() && hoveredIndex == None
      ensures VisibleTooltips(hoveredIndex, |items|) == {}
    {
      hoveredIndex := None;
    }
  }
}
