/** The state kept by the emoji picker component (src/components/picker.js):
    scroll-pass coalescing, the highlighted anchor, search hiding, anchor jumps
    and the skin tone with its persisted copy. Child components are inputs:
    which category slots are mounted, what each one answers when asked whether
    it is active, and each one's cached `top`. */
module EmojiPicker {
  import opened Options
  import opened Categories

  const DefaultPerLine: int := 9
  const DefaultEmojiSize: int := 24

  /** Pixel width of the picker, as the render computes it. */
  function Width(perLine: int, emojiSize: int): int
  {
    (perLine * (emojiSize + 12)) + 12 + 2
  }

  /** The width of a row built up cell by cell: 12 pixels of closing gutter and
      2 of border, then one `emojiSize` cell with its 12-pixel gutter per emoji. */
  function RowWidth(cells: nat, emojiSize: int): int
  {
    if cells == 0 then 12 + 2 else RowWidth(cells - 1, emojiSize) + emojiSize + 12
  }

  /** The render's width is exactly a row of `perLine` cells with their gutters
      and the border. */
  lemma {:induction false} WidthIsRowOfCells(perLine: nat, emojiSize: int)
    ensures Width(perLine, emojiSize) == RowWidth(perLine, emojiSize)
  {
    if perLine > 0 {
      WidthIsRowOfCells(perLine - 1, emojiSize);
      assert perLine * (emojiSize + 12) == (perLine - 1) * (emojiSize + 12) + (emojiSize + 12);
    }
  }

  lemma DefaultWidth()
    ensures Width(DefaultPerLine, DefaultEmojiSize) == 338
  {
  }

  /** JavaScript truthiness of a stored number: absent and 0 are both falsy. */
  predicate Truthy(v: Option<int>)
  {
    v.Some? && v.value != 0
  }

  /** `store.get('skin') || props.skin`. */
  function InitialSkin(stored: Option<int>, skinProp: int): int
  {
    if Truthy(stored) then stored.value else skinProp
  }

  /** Whether a scroll pass counts as scrolling down: the offset grew since the
      last pass, a pass that never ran counting as offset 0. */
  predicate IsScrollingDown(lastScrollTop: Option<int>, scrollTop: int)
  {
    scrollTop > (if lastScrollTop.Some? then lastScrollTop.value else 0)
  }

  /** The events that drive scroll coalescing: a raw scroll event, and the
      browser running one queued animation-frame callback. */
  datatype FrameEvent = ScrollEvent | AnimationFrame

  /** The picker's `waitingForPaint` flag and the number of paint callbacks it
      has queued with the browser and that have not run yet. */
  datatype Frames = Frames(waiting: bool, queued: nat)

  /** One event: a scroll queues a paint callback only when none is pending;
      a frame runs one queued callback, which clears the flag. */
  function Step(s: Frames, e: FrameEvent): (r: Frames)
    ensures Coherent(s) ==> Coherent(r) && r.queued <= 1
    ensures e == ScrollEvent ==> r.waiting
    ensures e == AnimationFrame && s.queued > 0 ==> !r.waiting
  {
    match e
    case ScrollEvent => if s.waiting then s else Frames(true, s.queued + 1)
    case AnimationFrame => if s.queued == 0 then s else Frames(false, s.queued - 1)
  }

  function Run(s: Frames, events: seq<FrameEvent>): Frames
    decreases |events|
  {
    if events == [] then s else Run(Step(s, events[0]), events[1..])
  }

  /** The flag is set exactly when one paint callback is queued. */
  predicate Coherent(s: Frames)
  {
    s.queued == if s.waiting then 1 else 0
  }

  /** Whatever mix of scroll events and frames arrives, a coherent state stays
      coherent: at most one paint pass is ever pending. */
  lemma {:induction false} AtMostOnePendingPaint(s: Frames, events: seq<FrameEvent>)
    requires Coherent(s)
    ensures Coherent(Run(s, events)) && Run(s, events).queued <= 1
    decreases |events|
  {
    if events != [] {
      AtMostOnePendingPaint(Step(s, events[0]), events[1..]);
    }
  }

  /** Any number of scroll events in a row, from a state with nothing pending,
      queue exactly one paint pass. */
  lemma {:induction false} ScrollBurstQueuesOnePaint(s: Frames, n: nat)
    requires s.queued == 0 && !s.waiting
    ensures n > 0 ==> Run(s, seq(n, _ => ScrollEvent)) == Frames(true, 1)
  {
    if n > 1 {
      var burst := seq(n, _ => ScrollEvent);
      assert burst[1..] == seq(n - 1, _ => ScrollEvent);
      ScrollBurstQueuedStaysOne(n - 1);
    }
  }

  lemma {:induction false} ScrollBurstQueuedStaysOne(n: nat)
    ensures Run(Frames(true, 1), seq(n, _ => ScrollEvent)) == Frames(true, 1)
  {
    if n > 0 {
      assert seq(n, _ => ScrollEvent)[1..] == seq(n - 1, _ => ScrollEvent);
      ScrollBurstQueuedStaysOne(n - 1);
    }
  }

  /** The display a mounted category's DOM node gets when the search results
      are `results`: hidden for any list, even an empty one, shown for none. */
  function SearchDisplay(results: Option<seq<EmojiId>>): (d: Display)
    ensures d == Hidden <==> results.Some?
  {
    if results.Some? then Hidden else Shown
  }

  /** What `handleSearch` leaves in one slot: a mounted non-`Search` child with a
      DOM node gets the search display; everything else is untouched. */
  function SearchedView(view: Option<CategoryView>, name: string, results: Option<seq<EmojiId>>)
    : (r: Option<CategoryView>)
    ensures r.Some? <==> view.Some?
    ensures name == SearchName ==> r == view
    ensures view.Some? ==> r.value.top == view.value.top
    ensures view.Some? ==> (r.value.node.Some? <==> view.value.node.Some?)
    ensures view.Some? && name != SearchName && view.value.node.Some? ==>
              (r.value.node == Some(Hidden) <==> results.Some?)
  {
    if view.Some? && name != SearchName && view.value.node.Some? then
      Some(view.value.(node := Some(SearchDisplay(results))))
    else view
  }

  class Picker {
    /** `CATEGORIES`: `Search`, `Recent`, then the data set's categories. */
    var categories: seq<Category>
    /** The refs `category-0`, `category-1`, ...; `None` while a child is not mounted. */
    var slots: seq<Option<CategoryView>>
    /** The scroll container's current `scrollTop`. */
    var scrollPosition: int
    /** `this.scrollTop`: the offset read by the previous scroll pass, if any. */
    var lastScrollTop: Option<int>
    /** `this.waitingForPaint`. */
    var waitingForPaint: bool
    /** Paint callbacks requested with `requestAnimationFrame` that have not run. */
    var queuedFrames: nat
    /** The anchor bar's `state.selected`. */
    var selected: Option<string>
    /** `this.state.skin`. */
    var skin: int
    /** The `skin` key of the persisted preference store. */
    var storedSkin: Option<int>

    ghost predicate Valid()
      reads this
    {
      && |categories| >= 2
      && categories[0] == SearchCategory(categories[0].emojis)
      && categories[1] == RecentCategory
      && |slots| == |categories|
      && (Truthy(storedSkin) ==> skin == storedSkin.value)
    }

    function FrameState(): Frames
      reads this
    {
      Frames(waitingForPaint, queuedFrames)
    }

    /** `searchResults` is what the module-level `Search` category holds when
        this picker is built; `anchorSelection` is the anchor bar's initial
        selection, which the anchor bar sets itself. */
    constructor (data: seq<Category>, skinProp: int, stored: Option<int>,
                 searchResults: Option<seq<EmojiId>>, anchorSelection: Option<string>)
      ensures Valid()
      ensures categories == Table(searchResults, data)
      ensures slots == seq(|data| + 2, _ => None)
      ensures Truthy(stored) ==> skin == stored.value
      ensures !Truthy(stored) ==> skin == skinProp
      ensures storedSkin == stored
      ensures !waitingForPaint && queuedFrames == 0 && lastScrollTop == None
      ensures scrollPosition == 0 && selected == anchorSelection
    {
      categories := Table(searchResults, data);
      slots := seq(|data| + 2, _ => None);
      scrollPosition := 0;
      lastScrollTop := None;
      waitingForPaint := false;
      queuedFrames := 0;
      selected := anchorSelection;
      skin := InitialSkin(stored, skinProp);
      storedSkin := stored;
    }

    /** A new `skin` prop is adopted only when it is truthy and nothing is stored. */
    method ComponentWillReceiveProps(skinProp: int)
      requires Valid()
      modifies this`skin
      ensures Valid()
      ensures skin == if skinProp != 0 && !Truthy(storedSkin) then skinProp else old(skin)
    {
      if skinProp != 0 && !Truthy(storedSkin) {
        skin := skinProp;
      }
    }

    /** Re-measures the mounted categories and asks for a scroll pass. */
    method ComponentDidUpdate() returns (measured: seq<nat>, scheduled: bool)
      requires Valid()
      modifies this`waitingForPaint, this`queuedFrames
      ensures Valid()
      ensures measured == MountedIn(slots, ScanOrder(|slots|, false))
      ensures FrameState() == Step(old(FrameState()), ScrollEvent)
      ensures scheduled == !old(waitingForPaint)
    {
      measured := UpdateCategoriesSize();
      scheduled := HandleScroll();
    }

    /** Queues one paint pass unless one is already pending. */
    method HandleScroll() returns (scheduled: bool)
      requires Valid()
      modifies this`waitingForPaint, this`queuedFrames
      ensures Valid()
      ensures scheduled == !old(waitingForPaint) && waitingForPaint
      ensures FrameState() == Step(old(FrameState()), ScrollEvent)
    {
      scheduled := !waitingForPaint;
      if scheduled {
        waitingForPaint := true;
        queuedFrames := queuedFrames + 1;
      }
    }

    /** The browser runs one queued paint callback, if there is one. */
    method RunAnimationFrame(reports: seq<bool>) returns (ran: bool, asked: seq<nat>, anchorsUpdated: bool)
      requires Valid() && |reports| == |categories|
      modifies this`waitingForPaint, this`queuedFrames, this`lastScrollTop, this`selected
      ensures Valid()
      ensures ran == (old(queuedFrames) > 0)
      ensures FrameState() == Step(old(FrameState()), AnimationFrame)
      ensures ran ==> lastScrollTop == Some(scrollPosition)
      ensures ran ==>
                var order := ScanOrder(|categories|, IsScrollingDown(old(lastScrollTop), scrollPosition));
                var active := FirstActive(categories, slots, reports, order);
                && asked == MountedIn(slots, order)
                && anchorsUpdated == (active.Some? && old(selected) != Some(active.value.name))
                && selected == (if active.Some? then Some(active.value.name) else old(selected))
      ensures !ran ==> lastScrollTop == old(lastScrollTop) && selected == old(selected)
      ensures !ran ==> asked == [] && !anchorsUpdated
    {
      ran := queuedFrames > 0;
      asked, anchorsUpdated := [], false;
      if ran {
        queuedFrames := queuedFrames - 1;
        asked, anchorsUpdated := HandleScrollPaint(reports);
      }
    }

    /** Visits every slot in scan order, asks each mounted child whether it is
        active, and keeps the first one that is, replaced by its anchor. */
    method ScanCategories(scrollingDown: bool, reports: seq<bool>) returns (asked: seq<nat>, active: Option<Category>)
      requires Valid() && |reports| == |categories|
      ensures asked == MountedIn(slots, ScanOrder(|categories|, scrollingDown))
      ensures forall k: nat :: multiset(asked)[k] == if k < |slots| && slots[k].Some? then 1 else 0
      ensures active == FirstActive(categories, slots, reports, ScanOrder(|categories|, scrollingDown))
      ensures active.None? <==> forall k :: 0 <= k < |slots| ==> !Hit(slots, reports, k)
    {
      var cats, views := categories, slots;
      var n := |cats|;
      ghost var order := ScanOrder(n, scrollingDown);
      asked, active := [], None;
      var i := 0;
      while i < n
        invariant 0 <= i <= n
        invariant asked == MountedIn(views, order[..i])
        invariant InTable(cats, order[..i]) && active == FirstActive(cats, views, reports, order[..i])
      {
        var ii := if scrollingDown then n - 1 - i else i;
        var category := cats[ii];
        assert ii == order[i];
        ScanPrefixStep(cats, views, reports, order, i);
        if views[ii].Some? {
          asked := asked + [ii];
          var isActive := reports[ii];
          if isActive && active.None? {
            if category.anchor.Some? {
              category := category.anchor.value;
            }
            active := Some(category);
          }
        }
        i := i + 1;
      }
      assert order[..n] == order;
      PassFacts(cats, views, reports, scrollingDown);
    }

    /** One scroll pass: clears the pending flag, scans the categories in the
        direction of scrolling, moves the anchor highlight to the active category
        when its name differs, and remembers the offset it read. */
    method HandleScrollPaint(reports: seq<bool>) returns (asked: seq<nat>, anchorsUpdated: bool)
      requires Valid() && |reports| == |categories|
      modifies this`waitingForPaint, this`lastScrollTop, this`selected
      ensures Valid()
      ensures !waitingForPaint
      ensures lastScrollTop == Some(scrollPosition)
      ensures var order := ScanOrder(|categories|, IsScrollingDown(old(lastScrollTop), scrollPosition));
              var active := FirstActive(categories, slots, reports, order);
              && asked == MountedIn(slots, order)
              && anchorsUpdated == (active.Some? && old(selected) != Some(active.value.name))
              && selected == (if active.Some? then Some(active.value.name) else old(selected))
    {
      waitingForPaint := false;
      var scrollTop := scrollPosition;
      var scrollingDown := scrollTop > (if lastScrollTop.Some? then lastScrollTop.value else 0);
      assert scrollingDown == IsScrollingDown(old(lastScrollTop), scrollPosition);
      var active;
      asked, active := ScanCategories(scrollingDown, reports);
      anchorsUpdated := false;
      if active.Some? {
        var categoryName := active.value.name;
        if selected != Some(categoryName) {
          selected := Some(categoryName);
          anchorsUpdated := true;
        }
      }
      lastScrollTop := Some(scrollTop);
    }

    /** Stores the results on the `Search` category and hides every mounted
        non-`Search` category while there are results (even an empty list),
        showing them again when there are none. */
    method HandleSearch(results: Option<seq<EmojiId>>)
      requires Valid()
      modifies this`categories, this`slots
      ensures Valid()
      ensures categories == old(categories)[0 := SearchCategory(results)]
      ensures |slots| == |old(slots)|
      ensures forall i :: 0 <= i < |slots| ==> slots[i] == SearchedView(old(slots)[i], categories[i].name, results)
    {
      categories := categories[0 := SearchCategory(results)];
      var i := 0;
      while i < |categories|
        invariant 0 <= i <= |categories| && |slots| == |old(slots)| == |categories|
        invariant categories == old(categories)[0 := SearchCategory(results)]
        invariant forall j :: 0 <= j < i ==> slots[j] == SearchedView(old(slots)[j], categories[j].name, results)
        invariant forall j :: i <= j < |slots| ==> slots[j] == old(slots)[j]
      {
        var component := slots[i];
        if component.Some? && categories[i].name != SearchName {
          var display := SearchDisplay(results);
          if component.value.node.Some? {
            slots := slots[i := Some(component.value.(node := Some(display)))];
          }
        }
        i := i + 1;
      }
    }

    /** Jumps to the category of anchor `i`: `Recent` to the very top, any other
        category one pixel below its cached top; nothing when `i` is not mounted. */
    method HandleAnchorClick(category: Category, i: int)
      requires Valid()
      modifies this`scrollPosition
      ensures Valid()
      ensures 0 <= i < |slots| && slots[i].Some? && category.name == RecentName ==> scrollPosition == 0
      ensures 0 <= i < |slots| && slots[i].Some? && category.name != RecentName ==>
                scrollPosition == slots[i].value.top + 1
      ensures !(0 <= i < |slots| && slots[i].Some?) ==> scrollPosition == old(scrollPosition)
    {
      if 0 <= i < |slots| && slots[i].Some? {
        var top := slots[i].value.top;
        if category.name == RecentName {
          top := 0;
        } else {
          top := top + 1;
        }
        scrollPosition := top;
      }
    }

    /** Sets the skin tone and writes it through to the store. */
    method HandleSkinChange(newSkin: int)
      requires Valid()
      modifies this`skin, this`storedSkin
      ensures Valid()
      ensures skin == newSkin && storedSkin == Some(newSkin)
    {
      skin := newSkin;
      storedSkin := Some(newSkin);
    }

    /** Asks every mounted category child, in table order, to re-measure itself. */
    method UpdateCategoriesSize() returns (measured: seq<nat>)
      requires Valid()
      ensures measured == MountedIn(slots, ScanOrder(|slots|, false))
      ensures forall k: nat :: multiset(measured)[k] == if k < |slots| && slots[k].Some? then 1 else 0
    {
      var n := |categories|;
      ghost var order := ScanOrder(n, false);
      measured := [];
      var i := 0;
      while i < n
        invariant 0 <= i <= n
        invariant measured == MountedIn(slots, order[..i])
      {
        assert order[..i + 1] == order[..i] + [i];
        MountedInAppend(slots, order[..i], i);
        if slots[i].Some? {
          measured := measured + [i];
        }
        i := i + 1;
      }
      assert order[..n] == order;
      forall k: nat
        ensures multiset(measured)[k] == if k < |slots| && slots[k].Some? then 1 else 0
      {
        EachMountedSlotAskedOnce(slots, false, k);
      }
    }
  }

  /** A skin chosen in one picker, once written to the store, is the skin of
      the next picker built over that store, whatever skin that one is given. */
  method SkinSurvivesNewPicker(data: seq<Category>, earlierStore: Option<int>, firstSkin: int, chosen: int,
                               laterSkin: int)
    returns (later: Picker)
    requires chosen != 0
    ensures later.skin == chosen
  {
    var first := new Picker(data, firstSkin, earlierStore, None, None);
    first.HandleSkinChange(chosen);
    later := new Picker(data, laterSkin, first.storedSkin, first.categories[0].emojis, first.selected);
  }
}
