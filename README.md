# Emoji picker state model

A Dafny model of the bookkeeping inside the `Picker` component of an emoji
picker (`src/components/picker.js`). The picker shows a scrollable grid of
emoji categories: the synthetic `Search` and `Recent` categories first, then
the data set's categories. An anchor bar highlights the category in view. A
search box hides the regular categories while results are shown. The skin
tone is kept in sync with a persisted preference store.

The model has three modules:

- `Options`: the optional value used for everything JavaScript may leave
  `null` or `undefined`.
- `Categories`: the category table (`CATEGORIES`, with `Search` anchored to
  `Recent`) and the specification of one scroll pass:
  - `ScanOrder` is the order a pass visits the slots in.
  - `MountedIn` is the children a pass asks.
  - `FirstActive` is the active category a pass resolves.
  - Lemmas give these functions their meaning.
- `EmojiPicker`: the class `Picker` holds the fields the component updates in
  place:
  - `waitingForPaint`;
  - `this.scrollTop`, modelled as `lastScrollTop`;
  - the scroll container's offset, `scrollPosition`;
  - the anchor bar's `selected`;
  - `state.skin`;
  - the stored `skin`.

  The module also holds the render width formula and a pure model of
  scroll-pass coalescing (`Frames`, `Step`, `Run`).

Child components are inputs.
- `slots[i]` is the ref `category-i`. It is `None` while that child is not
  mounted. Otherwise it holds the child's cached `top` and its DOM node's
  inline display. The node itself can be absent.
- What each child's `handleScroll(scrollTop)` answers in a pass is the
  `reports` parameter.
- The children a pass calls and the children `updateCategoriesSize`
  re-measures are returned as sequences of slot indices.

`requestAnimationFrame` is modelled as a count of queued paint callbacks,
`queuedFrames`. `RunAnimationFrame` is the browser running one of them.

Three behaviours of the code may look surprising; the model follows the code:
- Search hiding: the code hides the regular categories for any result list,
  including an empty one, because an empty array is truthy in JavaScript. It
  shows them again only when the result is `null`.
- Persisted skin: a stored skin of `0` is falsy. So a later picker uses its
  own `skin` prop instead, and `SkinSurvivesNewPicker` requires a non-zero
  skin.
- Anchor click: the `Recent` test looks at the clicked category's name. The
  offset comes from the child in slot `i`.

## Model

| member | source | states |
|---|---|---|
| `Categories.SearchCategory` | src/components/picker.js:11 | The `Search` category is named `Search`, carries the given result list and is anchored to `Recent`. |
| `Categories.Table` | src/components/picker.js:13-16 | The category list has `Search` holding the given results first, then `Recent`, then the data set's categories unchanged. `Table(None, data)` is the list at module load. |
| `Categories.SearchResolvesToRecent` | src/components/picker.js:102-105 | Anchor resolution maps an active `Search` to `Recent` and leaves `Recent` itself. |
| `Categories.Resolve` | src/components/picker.js:103 | Replaces a category by its anchor, one level only. No contract of its own; `SearchResolvesToRecent`, `FirstActiveIsFirstHit` and `ActiveIsNeverSearch` state what it does in a pass. |
| `Categories.ScanOrder` | src/components/picker.js:95-96 | A pass over `n` slots visits `n` positions, each a slot index below `n`. |
| `Categories.ScanOrderVisitsEachSlotOnce` | src/components/picker.js:95-98 | Each scan visits every slot index below `n` exactly once and nothing else. The upward scan is strictly ascending, and the scrolling-down scan is the upward scan reversed. |
| `Categories.MountedIn` | src/components/picker.js:98-101 | The mounted slots of a scan, in scan order: the children whose `handleScroll` a pass calls. No contract of its own; `MountedInCounts` and `EachMountedSlotAskedOnce` state its meaning. |
| `Categories.MountedInCounts` | src/components/picker.js:98-101 | In a repetition-free scan, each mounted slot of the scan is asked once. No other index is asked. |
| `Categories.EachMountedSlotAskedOnce` | src/components/picker.js:95-107 | In either direction, a pass calls `handleScroll` on every mounted child exactly once, even after an active one is found. It never calls an unmounted slot. |
| `Categories.FirstActive` | src/components/picker.js:95-105 | The active category of a pass. No contract of its own; `FirstActiveNoneIffNoHit` and `FirstActiveIsFirstHit` state its meaning. |
| `Categories.FirstActiveNoneIffNoHit` | src/components/picker.js:100-105 | A scan yields no active category iff no slot in it is mounted and reports active. |
| `Categories.FirstActiveIsFirstHit` | src/components/picker.js:100-105 | If slot `order[j]` is the first slot in scan order that is mounted and reports active, the active category is that slot's category resolved through its anchor. Later reports are ignored. |
| `Categories.NoActiveIffNoReport` | src/components/picker.js:100-109 | A pass finds no active category exactly when no mounted child reports active. |
| `Categories.PassFacts` | src/components/picker.js:95-109 | For a whole pass, in either direction: every mounted child is asked exactly once and no other slot is, and there is no active category exactly when no mounted child reports active. |
| `Categories.ActiveIsNeverSearch` | src/components/picker.js:11-16 | Suppose no data category resolves to a category named `Search`. Then no pass resolves to `Search`: an active `Search` slot highlights `Recent`. |
| `EmojiPicker.Width` | src/components/picker.js:172 | The render width expression `perLine * (emojiSize + 12) + 12 + 2`. No contract of its own; `WidthIsRowOfCells` and `DefaultWidth` state its meaning. |
| `EmojiPicker.WidthIsRowOfCells` | src/components/picker.js:172 | For every non-negative `perLine`, the render width equals a row built cell by cell: 12 pixels of gutter and 2 of border, plus one `emojiSize` cell and its 12-pixel gutter per emoji. |
| `EmojiPicker.DefaultWidth` | src/components/picker.js:233-238 | With the default props (9 per line, size 24) the picker is 338 pixels wide. |
| `EmojiPicker.InitialSkin` | src/components/picker.js:24 | `store.get('skin') || props.skin` with JavaScript truthiness. No contract of its own; the constructor and `SkinSurvivesNewPicker` state its meaning. |
| `EmojiPicker.IsScrollingDown` | src/components/picker.js:92 | A pass scrolls down iff the new offset exceeds the previous one, a missing previous one counting as 0. No contract of its own; used by `HandleScrollPaint` and `RunAnimationFrame`. |
| `EmojiPicker.Step` | src/components/picker.js:80-88 | A scroll event always leaves a paint pending, and a frame that runs a queued callback clears the flag. From a state where the flag is set exactly when one callback is queued, the next state is such a state as well, with at most one callback queued. |
| `EmojiPicker.Run` | src/components/picker.js:80-88 | Applies `Step` to a sequence of events. No contract of its own; `AtMostOnePendingPaint` and `ScrollBurstQueuesOnePaint` state its meaning. |
| `EmojiPicker.AtMostOnePendingPaint` | src/components/picker.js:80-88 | Start from a state where the pending flag is set exactly when one paint callback is queued. After any sequence of scroll events and animation frames, this still holds, so at most one paint pass is ever pending. |
| `EmojiPicker.ScrollBurstQueuesOnePaint` | src/components/picker.js:80-85 | Any non-empty burst of scroll events from an idle state queues exactly one paint pass and sets the pending flag. |
| `EmojiPicker.SearchedView` | src/components/picker.js:124-133 | Search hiding keeps each slot mounted or not, keeps its `top` and never touches the `Search` slot. A mounted non-`Search` node becomes hidden iff there is a result list, even an empty one. |
| `EmojiPicker.SearchDisplay` | src/components/picker.js:129 | A category node is hidden iff there is a result list, even an empty one, and shown when the result is null. |
| `EmojiPicker.Picker.constructor` | src/components/picker.js:19-26 | The initial skin is the stored skin when that is truthy, and the `skin` prop otherwise. The category list carries whatever results the shared `Search` category holds when the picker is built. The anchor bar keeps the selection it starts with. No paint is pending and no previous offset is recorded. |
| `EmojiPicker.Picker.ComponentWillReceiveProps` | src/components/picker.js:28-32 | A new `skin` prop is adopted only when it is truthy and no truthy skin is stored. Otherwise the skin is unchanged. |
| `EmojiPicker.Picker.ComponentDidUpdate` | src/components/picker.js:34-37 | After an update, every mounted child is re-measured in table order, and a paint pass is requested unless one is pending. |
| `EmojiPicker.Picker.HandleScroll` | src/components/picker.js:80-85 | A scroll event queues a paint callback iff none is pending. Afterwards one is pending, so a second call schedules nothing. |
| `EmojiPicker.Picker.RunAnimationFrame` | src/components/picker.js:83 | Running a frame consumes one queued paint callback, if there is one, and then does exactly what `HandleScrollPaint` does: the same children asked, the same anchor update and the same recorded offset. With no callback queued it changes nothing. |
| `EmojiPicker.Picker.ScanCategories` | src/components/picker.js:95-107 | The loop asks every mounted child exactly once, in scan order. It returns the first one that reports active, resolved through its anchor, and none iff no mounted child reports active. |
| `EmojiPicker.Picker.HandleScrollPaint` | src/components/picker.js:87-119 | A pass clears the pending flag. It scans backwards iff the offset grew since the last pass, counting a missing last offset as 0. It updates the anchor bar iff an active category exists and its name differs from the current selection. It records the offset it read. |
| `EmojiPicker.Picker.HandleSearch` | src/components/picker.js:121-136 | The results are stored on the `Search` category. Every slot ends as `SearchedView` says. |
| `EmojiPicker.Picker.HandleAnchorClick` | src/components/picker.js:138-153 | For a mounted slot: `Recent` scrolls to 0 and any other category to its cached `top + 1`. If slot `i` is not mounted, the offset is unchanged. |
| `EmojiPicker.Picker.HandleSkinChange` | src/components/picker.js:155-160 | The new skin is set in state and written to the store. |
| `EmojiPicker.Picker.UpdateCategoriesSize` | src/components/picker.js:162-167 | Every mounted child is asked to re-measure exactly once, in table order. Unmounted slots are skipped. |
| `EmojiPicker.SkinSurvivesNewPicker` | src/components/picker.js:24 | Whatever the store held before, a non-zero skin chosen in one picker becomes the skin of a later picker built over the same store, whatever skin prop that picker gets. |

## Left out

- Hover preview (src/components/picker.js:48-59): it is driven by wall-clock `setTimeout`/`clearTimeout` timers.
- Sticky-position feature probe (src/components/picker.js:39-46): a DOM/CSS capability test that no modelled rule depends on.
- Emoji click (src/components/picker.js:61-78) is not modelled. This includes the host callback, the recents collaborator and the deferred re-measure. That frame calls `handleScrollPaint` directly, clearing `waitingForPaint` while a scroll frame may still be queued. `AtMostOnePendingPaint` therefore covers only scroll events and frames. Also, that path repaints only when category 1's `maxMargin` changed.
- Rendering, `forceUpdate` and `propTypes` (src/components/picker.js:135, 169-231) are not modelled, except the width expression and the default `perLine` and `emojiSize`. The default skin of 1 is applied by React before the constructor receives `skinProp`.
- React replacing `this.props` after `componentWillReceiveProps` is framework behaviour. The model keeps only the skin rule.
- Child components' internals are not part of this model: `Category.handleScroll`, `memoizeSize`, `top`, `maxMargin`, `Anchors`, `Search`, `Preview`. Their answers are the `reports` parameter and the `slots` field. `UpdateCategoriesSize` records which children were asked to re-measure, not what they measured.
- Browser scrolling is not modelled: clamping of `scrollTop` and the scroll event fired after an anchor jump. The environment writes `scrollPosition` and `slots` directly.
- The anchor bar ref is assumed mounted, as the source assumes. Its initial selection is set by the anchor bar itself, so it is a constructor argument.
- constructor, HandleSearch: `SEARCH_CATEGORY` and `CATEGORIES` are module-level objects shared by every picker (src/components/picker.js:11-16). The model keeps a copy of the list in each picker. A new picker receives the current `Search` results as a constructor argument. But one picker's `HandleSearch` does not reach the copy held by another picker that is already alive.
- Valid: the clause `Truthy(storedSkin) ==> skin == storedSkin.value` relies on this picker being the only writer of the store. In the source the store is shared. A second picker's `handleSkinChange` changes the stored skin and leaves this picker's `state.skin` stale.
- The `Search` test in `handleSearch` reads `component.props.name`. The model reads the name of the category at the same index, which is what the render at src/components/picker.js:188-192 passes.
- The preference store, the emoji data set and `ReactDOM.findDOMNode` are external. The store is the field `storedSkin`, which a new picker receives as a constructor argument. The data set is the constructor's `data` argument. A DOM node that `findDOMNode` does not return is `node == None`.
- Numbers are unbounded integers. `NaN` and fractional pixel offsets are not modelled.
