# A Dafny model of five interactive UI components

This project models the logic inside five React components of a collection
of visual components. Most of each component is markup. What remains, and
what is modelled here, is:

- **`AnimatedFuseText`** (module `AnimatedFuseText`): the fuse / light-bulb
  sequence. It has three state flags: `isHit`, `isSwingComplete` and
  `isFlickering`.
  - The projectile's animation-complete callback sets `isHit`.
  - The pendulum's animation-complete callback sets `isSwingComplete`.
  - An effect keyed on `[isHit]` starts the flicker. It also schedules a
    one-shot 4000 ms timeout that clears the flicker.
  - Everything drawn is a pure function of the three flags.

  The model keeps the flags as fields of the class `FuseText`. The state
  machine is stated on a value, `FuseState`, with one `Step` per event and
  `Run` over any sequence of events. The lemmas are about `Step` and `Run`,
  and every method is tied to `Step`. React's re-render is an event of its
  own, `Commit`. During a `Commit` the effect runs only if `isHit` differs
  from the value the effect last saw. This is how React treats an effect's
  dependency list. The model also covers two callbacks whose state updates
  React renders together.
- **`CompactPagination`** (module `CompactPagination`): the previous and
  next handlers, and the `aria-disabled` flags of the two links.
- **`Dock`** (module `Dock`): the hovered item, its tooltip, the status dot
  colour table, the progress ring's dash offset, the count line and the add
  button.
- **`AnimatedNavigationTabs`** (module `AnimatedNavigationTabs`): the active
  and hovered items and which buttons show which indicator.
- **`InfiniteScroll`** (module `InfiniteScroll`): the tile list built from
  `Array(repeat).fill(images).flat()`, the prop defaults and the two variant
  tables.

Time is not modelled. Animation-complete callbacks and the timeout are
abstract events that may arrive in any order, and durations appear only as
constants. Numbers that are JavaScript `number`s are modelled as `int` where
the code uses whole numbers (pages, indices, `repeat`). They are modelled as
`real` where it does not (progress, opacity, brightness).

Three facts of the fuse code shape the model:

- there is no phase variable, only the three flags;
- `setIsSwingComplete(true)` is unguarded, so the swing callback may fire at
  any time, before the hit included;
- nothing ever clears the timeout, not even when the component is torn down.

## Model

| member | source | states |
|---|---|---|
| `AnimatedFuseText.Mount` | components/ui/animated-fuse-text.tsx:6-8 | The state at mount: all three flags false and no timeout scheduled, which satisfies the invariant `Consistent`. |
| `AnimatedFuseText.Step` | components/ui/animated-fuse-text.tsx:49-54 | `isHit` and `isSwingComplete` are only ever set to true. A timeout is scheduled exactly when a render first sees the hit while the swing is unfinished, and flickering starts only then. The timeout clears `isFlickering` and leaves the other flags alone. Each step preserves the reachability invariant `Consistent`. |
| `AnimatedFuseText.RunKeepsConsistent` | components/ui/animated-fuse-text.tsx:49-54 | After any sequence of events the invariant holds: at most one timeout scheduled, and flickering exactly while it is pending. |
| `AnimatedFuseText.Run` | components/ui/animated-fuse-text.tsx:49-92 | The state after a sequence of events, one `Step` each. What it promises is stated by `RunKeepsConsistent`, `HitAndSwingStaySet`, `SwingFirstNeverFlickers` and `SettledIsFinal`. |
| `AnimatedFuseText.FlickerAtMostOncePerMount` | components/ui/animated-fuse-text.tsx:49-54 | From mount, whatever happens, the flicker timeout is scheduled at most once, and the bulb flickers exactly while it is pending. |
| `AnimatedFuseText.HitAndSwingStaySet` | components/ui/animated-fuse-text.tsx:80-92 | Once set, `isHit` and `isSwingComplete` stay set along any sequence of events. |
| `AnimatedFuseText.SwingFirstNeverFlickers` | components/ui/animated-fuse-text.tsx:92 | If the unguarded swing callback fires before the effect sees the hit, no timeout is ever scheduled and the bulb never flickers. |
| `AnimatedFuseText.CommitAfterHitChangesNothing` | components/ui/animated-fuse-text.tsx:54 | Once the effect has run for the hit, later renders run no effect. |
| `AnimatedFuseText.SwingAndResetCommute` | components/ui/animated-fuse-text.tsx:52 | The swing-complete event and the flicker timeout can fire in either order. Both orders give the same state, which is hit, swung, not flickering and settled. |
| `AnimatedFuseText.SettledIsFinal` | components/ui/animated-fuse-text.tsx:49-54 | No event moves a settled state. |
| `AnimatedFuseText.FlickerTransition` | components/ui/animated-fuse-text.tsx:99-102 | The bulb's transition repeats only while flickering. |
| `AnimatedFuseText.BulbFor` | components/ui/animated-fuse-text.tsx:56-64 | When not flickering, the bulb is steadily gold at brightness 1.5 if the swing is over, and grey at brightness 1 otherwise. While flickering, the colour alternates grey and gold starting grey, the brightness only takes 1 and 1.5, and the opacity keyframes stay in (0, 1] and start and end at 1. |
| `AnimatedFuseText.GlowFor` | components/ui/animated-fuse-text.tsx:106-118 | The glow is present if and only if the bulb is flickering or the swing is over. It repeats only while flickering, and it is steady at 0.7 otherwise. |
| `AnimatedFuseText.HeadingFor` | components/ui/animated-fuse-text.tsx:127-131 | The heading is white with a text shadow if and only if the swing is over. Otherwise it is grey with no shadow. |
| `AnimatedFuseText.ViewOf` | components/ui/animated-fuse-text.tsx:68-91 | The projectile is drawn if and only if it has not hit. The pendulum animation is requested if and only if it has hit and the swing is unfinished. |
| `AnimatedFuseText.ViewDependsOnFlagsOnly` | components/ui/animated-fuse-text.tsx:56-131 | What is drawn depends on the three flags only. |
| `AnimatedFuseText.MountView` | components/ui/animated-fuse-text.tsx:6-8 | At mount the projectile flies, the pendulum is still, the bulb and heading are grey and there is no glow. |
| `AnimatedFuseText.SettledView` | components/ui/animated-fuse-text.tsx:56-131 | A settled state draws a steady gold bulb at 1.5, a glow at 0.7 and the white heading with its shadow. It draws no projectile and no swing. |
| `AnimatedFuseText.FlickerAlwaysEnds` | components/ui/animated-fuse-text.tsx:49-64 | A flicker on screen always has its timeout pending, and that timeout stops it. After the timeout the glow remains only if the swing is over. |
| `AnimatedFuseText.ProjectileGoneHeadingLit` | components/ui/animated-fuse-text.tsx:68-131 | After a hit the projectile is never drawn again. After the swing the heading stays white. |
| `AnimatedFuseText.PendulumTableDamped` | components/ui/animated-fuse-text.tsx:40-47 | The rotation and time tables both have 10 entries. The times rise strictly from 0 to 1. The rotation starts and ends at 0 and alternates side between swings. Its amplitude never grows after the first swing. The swing lasts as long as the flicker timeout. |
| `AnimatedFuseText.FuseText.constructor` | components/ui/animated-fuse-text.tsx:6-8 | Mount: all flags false, no timeout scheduled. |
| `AnimatedFuseText.FuseText.OnProjectileComplete` | components/ui/animated-fuse-text.tsx:80 | Sets `isHit` and nothing else, as `Step` does for this event. |
| `AnimatedFuseText.FuseText.OnSwingComplete` | components/ui/animated-fuse-text.tsx:92 | Sets `isSwingComplete` and nothing else, with no guard. |
| `AnimatedFuseText.FuseText.CommitRender` | components/ui/animated-fuse-text.tsx:49-54 | Runs the effect when `isHit` changed since its last run. The effect starts the flicker and schedules the timeout only if the swing is unfinished. |
| `AnimatedFuseText.FuseText.OnResetTimer` | components/ui/animated-fuse-text.tsx:52 | Clears `isFlickering`. Leaves `isHit` and `isSwingComplete` unchanged. |
| `CompactPagination.PrevClick` | components/ui/compact-pagination.tsx:20-25 | Previous requests a page if and only if the current page is above 1, and then the page one back. |
| `CompactPagination.NextClick` | components/ui/compact-pagination.tsx:27-32 | Next requests a page if and only if the current page is below the last, and then the page one forward. |
| `CompactPagination.PrevMarkedDisabled` | components/ui/compact-pagination.tsx:43 | As written, previous is marked disabled exactly at page 1. `DisabledLinksAreInert` and `DisabledIffInertInRange` relate it to the handler. |
| `CompactPagination.NextMarkedDisabled` | components/ui/compact-pagination.tsx:60 | As written, next is marked disabled exactly when the page equals `totalPages` (see Findings). `DisabledLinksAreInert` and `DisabledIffInertInRange` relate it to the handler. |
| `CompactPagination.RequestsStayInRange` | components/ui/compact-pagination.tsx:20-32 | From a page in 1..totalPages, every requested page is in 1..totalPages. |
| `CompactPagination.DisabledLinksAreInert` | components/ui/compact-pagination.tsx:43-60 | A link marked disabled never requests a page, on any input. |
| `CompactPagination.DisabledIffInertInRange` | components/ui/compact-pagination.tsx:20-60 | For a page in range, a link is marked disabled if and only if clicking it requests nothing. |
| `CompactPagination.NextThenPrevReturns` | components/ui/compact-pagination.tsx:20-32 | Next followed by previous returns to the starting page. |
| `CompactPagination.PrevThenNextReturns` | components/ui/compact-pagination.tsx:20-32 | Previous followed by next returns to the starting page. |
| `CompactPagination.EmptyListNextLooksEnabled` | components/ui/compact-pagination.tsx:60 | For "Page 1 of 0" the next link is not marked disabled, yet clicking it requests nothing. |
| `CompactPagination.InertFlagsMatchHandlers` | components/ui/compact-pagination.tsx:20-60 | Flags derived from the handlers' guards mark a link disabled if and only if clicking it does nothing, on every input. In range they agree with the flags as written. |
| `Dock.StatusColor` | components/ui/dock.tsx:20-27 | The six-entry colour table; `StatusColorsDistinct` states that it gives each status its own class. |
| `Dock.StatusColorsDistinct` | components/ui/dock.tsx:20-27 | Each of the six statuses has its own colour class. |
| `Dock.StatusDot` | components/ui/dock.tsx:69-76 | A status dot is drawn if and only if the item has a status. Its colour identifies that status. |
| `Dock.DashOffset` | components/ui/dock.tsx:92-93 | Offset plus the drawn length is the whole ring. The offset is 0 at 100%, the whole ring at 0%, and in [0, 94) for progress in (0, 100]. |
| `Dock.DashOffsetDecreasing` | components/ui/dock.tsx:93 | More progress gives a strictly smaller offset. |
| `Dock.ProgressSlotAsWritten` | components/ui/dock.tsx:78-93 | As written, the slot draws nothing without a progress, the text "0" exactly at 0%, and otherwise the ring with the offset for that progress. |
| `Dock.ZeroProgressShowsDigit` | components/ui/dock.tsx:78 | As written, an item at 0% draws the text "0" in the ring's place. |
| `Dock.ProgressRing` | components/ui/dock.tsx:78-93 | The ring is drawn if and only if the progress is present and non-zero, with the offset for that progress. |
| `Dock.ProgressRingMatchesAsWritten` | components/ui/dock.tsx:78-93 | The slot as written and the ring agree everywhere except at 0%, where only the written slot draws the stray digit. |
| `Dock.TooltipShown` | components/ui/dock.tsx:108-109 | An item's tooltip is shown exactly when its index is the hovered index. `VisibleTooltips` and `OneTooltipInRow` state that at most one is. |
| `Dock.TooltipPoseFor` | components/ui/dock.tsx:107-110 | A tooltip is at full opacity and in place if and only if its item is the hovered one. Otherwise it is hidden (opacity 0) and lowered by 20. |
| `Dock.VisibleTooltips` | components/ui/dock.tsx:107-110 | The set of shown tooltips holds exactly the hovered item among the existing ones, so it has at most one element. |
| `Dock.CountLine` | components/ui/dock.tsx:123-127 | The count line is drawn if and only if the count is present and non-empty. |
| `Dock.ShowAddButton` | components/ui/dock.tsx:30 | The add button is drawn when `showAddButton` is true, and also when it is left out. |
| `Dock.ItemViewFor` | components/ui/dock.tsx:50-129 | One item's view: a status dot if and only if it has a status, the ring if and only if its progress is present and non-zero (the same progresses for which the code draws a ring), the tooltip at full opacity if and only if it is hovered, its label, and the count line if and only if the count is non-empty. |
| `Dock.DockView` | components/ui/dock.tsx:50-129 | One view per item, in order, each built from that item, its index and the hovered index. It draws the intended ring, not the stray digit (see Left out). |
| `Dock.OneTooltipInRow` | components/ui/dock.tsx:107-110 | In the row, the tooltips at full opacity are exactly the visible set, which has at most one element. |
| `Dock.DockState.constructor` | components/ui/dock.tsx:31 | Initially nothing is hovered. |
| `Dock.DockState.HoverStart` | components/ui/dock.tsx:54 | Hovering item `i` makes `i` the hovered item. Its tooltip alone is shown. |
| `Dock.DockState.HoverEnd` | components/ui/dock.tsx:55 | Any hover end clears the hovered item, whichever item it was. No tooltip is shown. |
| `AnimatedNavigationTabs.ShowsActive` | components/ui/animated-navigation-tabs.tsx:16-35 | A button shows the active indicators exactly when an item is active and its id is the button's id. `ExactlyOneActive` states that one button does. |
| `AnimatedNavigationTabs.ShowsHover` | components/ui/animated-navigation-tabs.tsx:25-41 | A button shows the hover indicators exactly when an item is hovered and its id is the button's id. `AtMostOneHovered` states that at most one button does. |
| `AnimatedNavigationTabs.TabsView` | components/ui/animated-navigation-tabs.tsx:12-47 | A button shows the primary colour and underline if and only if its id is the active id. It shows the hover background and line if and only if its id is the hovered id. |
| `AnimatedNavigationTabs.ExactlyOneActive` | components/ui/animated-navigation-tabs.tsx:35 | With unique ids and the active item among the items, exactly one button, the active item's, shows the underline. |
| `AnimatedNavigationTabs.AtMostOneHovered` | components/ui/animated-navigation-tabs.tsx:41 | With unique ids, at most one button shows the hover indicators, and none when nothing is hovered. |
| `AnimatedNavigationTabs.NavigationTabs.constructor` | components/ui/animated-navigation-tabs.tsx:6-7 | The first item is active, or nothing when there are no items, and nothing is hovered. |
| `AnimatedNavigationTabs.NavigationTabs.Click` | components/ui/animated-navigation-tabs.tsx:19 | Clicking makes the item active and leaves the hover alone. |
| `AnimatedNavigationTabs.NavigationTabs.MouseEnter` | components/ui/animated-navigation-tabs.tsx:20 | Mouse enter makes the item the hovered one and leaves `active` alone. |
| `AnimatedNavigationTabs.NavigationTabs.MouseLeave` | components/ui/animated-navigation-tabs.tsx:21 | Mouse leave clears the hover and leaves `active` alone. |
| `InfiniteScroll.Fill` | components/ui/infinite-scroll.tsx:110-111 | `Array(n).fill(images)` has `n` slots, each holding the whole image list. |
| `InfiniteScroll.Flat` | components/ui/infinite-scroll.tsx:112 | `.flat()` joins the slots end to end; on `n` filled slots `RepeatedImagesAt` gives its length and every entry. |
| `InfiniteScroll.RepeatedImagesAt` | components/ui/infinite-scroll.tsx:110-112 | `n` copies of the `m` images joined end to end have `n * m` entries. Entry `i` is image `i mod m`. |
| `InfiniteScroll.Tiles` | components/ui/infinite-scroll.tsx:110-124 | `Array(repeat)` throws exactly for a negative length or one above 2^32 - 1. |
| `InfiniteScroll.TileHeight` | components/ui/infinite-scroll.tsx:73 | Each tile's height is `imageHeight`, or 31vh when it is left out. |
| `InfiniteScroll.TilesFor` | components/ui/infinite-scroll.tsx:74-124 | With `repeat` left out the list is that of `repeat = 2`; otherwise that of the given value. It throws exactly when a given `repeat` is negative or above 2^32 - 1. |
| `InfiniteScroll.TileListShape` | components/ui/infinite-scroll.tsx:110-124 | With `m` images, a valid `repeat` gives `repeat * m` tiles. Tile `i` shows image `i mod m`, has key `i` and has alt number `i + 1`. |
| `InfiniteScroll.TileListEmpty` | components/ui/infinite-scroll.tsx:110-112 | With `repeat` 0 or no images, there are no tiles. |
| `InfiniteScroll.TileListIsCopies` | components/ui/infinite-scroll.tsx:110-113 | With `m` images, tile `c * m + k` shows image `k`. The list is `repeat` whole copies of the images, in order. |
| `InfiniteScroll.KeysAndAltNumbersDistinct` | components/ui/infinite-scroll.tsx:114-123 | Keys are pairwise distinct. Alt numbers strictly increase and lie in 1..n. |
| `InfiniteScroll.DefaultRepeatIsTwoCopies` | components/ui/infinite-scroll.tsx:74 | With `repeat` left out, there are `2 * m` tiles: the images twice, in order, tile `i` showing image `i mod m` with key `i` and alt number `i + 1`. |
| `InfiniteScroll.NegativeRepeatThrows` | components/ui/infinite-scroll.tsx:110 | `repeat = -1` throws instead of drawing. |
| `InfiniteScroll.SizeClass` | components/ui/infinite-scroll.tsx:14-18 | The size table; `VariantTablesInjective` states each key has its own class. |
| `InfiniteScroll.PaddingClass` | components/ui/infinite-scroll.tsx:19-24 | The padding table; `VariantTablesInjective` states each key has its own class. |
| `InfiniteScroll.ColumnsClass` | components/ui/infinite-scroll.tsx:37-41 | The column table for 2, 3 and 4 columns; `VariantTablesInjective` states each key has its own class. |
| `InfiniteScroll.GapClass` | components/ui/infinite-scroll.tsx:42-46 | The gap table; `VariantTablesInjective` states each key has its own class. |
| `InfiniteScroll.ContainerClasses` | components/ui/infinite-scroll.tsx:10-31 | Three classes: the container base, the given size's class or h-[70vh] when left out, and the given padding's class or p-8 when left out. |
| `InfiniteScroll.GridClasses` | components/ui/infinite-scroll.tsx:33-53 | Three classes: the grid base, the given column count's class or grid-cols-3 when left out, and the given gap's class or gap-[2vh] when left out. |
| `InfiniteScroll.VariantTablesInjective` | components/ui/infinite-scroll.tsx:14-46 | Every size, padding, column and gap key has a class of its own. |
| `InfiniteScroll.ExplicitVariantWins` | components/ui/infinite-scroll.tsx:10-29 | The class drawn is that of the given variant, or of the default when the variant is left out. |

## Left out

- Wall-clock time, durations, easing and interpolation. The animation-complete callbacks and the 4000 ms timeout are unordered abstract events. Durations and repeat counts appear as constants only.
- Unmounting. The code never clears the timeout, so a timeout that fires after unmount would update an unmounted component. The model has no unmount event.
- Whether the pendulum's callback fires for the empty target `{}` is up to the animation library, which is not part of this model. The model lets `SwingFinished` arrive at any time, since the callback is unguarded.
- The projectile's callback can fire only while the projectile is drawn. The model lets it fire at any time. This is harmless, because it only sets `isHit` to true.
- A timeout with nothing pending cannot fire. In `Step` that event is a no-op, and `FuseText.OnResetTimer` requires a pending timeout.
- `AnimatePresence`'s exit animation, the `initial` props, and all fixed styles (support, thread, bulb container).
- Pages, indices and `repeat` that are not whole numbers. For `repeat` these would also throw a RangeError. NaN progress is not modelled either.
- `e.preventDefault()`, `onPageChange`'s effect on the caller, and the pagination markup.
- Dock.ItemViewFor: the item's view carries the intended progress ring (`ProgressRing`), so at 0% it draws nothing where the code draws the text "0". The code's own slot is `ProgressSlotAsWritten`, and `ProgressRingMatchesAsWritten` states that the two differ only there.
- Dock.DockView: built from `ItemViewFor`, so the row too draws nothing at 0% where the code draws the text "0".
- The dock's icons, the add button's `onAddClick`, and class strings other than the status colour table. The class-name merger `cn` is not part of this model.
- Changes to `items` after mount. `useState` keeps the first item as active even if the list changes. Layout animations (`layoutId`) are not modelled either.
- The smooth-scrolling engine and its `requestAnimationFrame` loop in `InfiniteScroll`.
- How `class-variance-authority` treats an explicit `null` variant, which drops that class. It is not part of this model. Variants are either given or left out.
- How the classes are joined into one string, and the `Image` element's other props.
- `InfiniteScroll.Tile`: the alt text is modelled by its number (`altNumber`), not as the decimal string "infinite scroll image n".
- `theme-text.tsx` (a network text-generation call and HTML sanitising), `glass-effect.tsx`, `destructive-button.tsx` and `tailwind.config.ts`. These are markup, configuration or foreign calls, and are not part of this model.

## Findings

| source | as written | input that shows it | evidently intended | confidence | as-written member | corrected member |
|---|---|---|---|---|---|---|
| components/ui/dock.tsx:78 | `{item.progress && …}` evaluates to the number 0 for an item at 0%, and React draws that number as the text "0" | `progress = 0` | nothing drawn when there is no progress (the ring is drawn only for non-zero progress) | not executed; high (JavaScript `&&` returns its falsy left operand, and React renders numbers) | `Dock.ZeroProgressShowsDigit` | `Dock.ProgressRing` |
| components/ui/compact-pagination.tsx:60 | the next link is marked disabled only when `currentPage === totalPages`, but its handler does nothing whenever `currentPage >= totalPages` | `currentPage = 1, totalPages = 0` (an empty list) | the link is marked disabled exactly when its handler does nothing | not executed; medium (it needs a caller that passes zero pages) | `CompactPagination.EmptyListNextLooksEnabled` | `CompactPagination.InertFlagsMatchHandlers` |
