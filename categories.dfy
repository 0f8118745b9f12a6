/** The category table of the picker and the rule that picks the active
    category during a scroll pass (src/components/picker.js). */
module Categories {
  import opened Options

  /** An opaque reference into the emoji data set. */
  type EmojiId = string

  /** A category of the picker. `emojis` is `None` when the category carries no
      list of its own (`null`), and `anchor` is the category whose anchor-bar
      entry stands for this one. */
  datatype Category = Category(name: string, emojis: Option<seq<EmojiId>>, anchor: Option<Category>)

  /** The inline `display` style of a category's DOM node: cleared (`null`) or `'none'`. */
  datatype Display = Shown | Hidden

  /** What the picker sees of a mounted category child: its cached `top` offset
      and its DOM node, if it has one. */
  datatype CategoryView = CategoryView(top: int, node: Option<Display>)

  const SearchName: string := "Search"
  const RecentName: string := "Recent"

  /** The synthetic `Recent` category: no list of its own, no anchor. */
  const RecentCategory: Category := Category(RecentName, None, None)

  /** The synthetic `Search` category holding the current search results; its
      anchor is `Recent`. */
  function SearchCategory(results: Option<seq<EmojiId>>): (c: Category)
    ensures c.name == SearchName && c.emojis == results
    ensures c.anchor == Some(RecentCategory)
  {
    Category(SearchName, results, Some(RecentCategory))
  }

  /** The category list: `Search` holding `results`, then `Recent`, then the
      data set's categories. At module load `results` is `None`. */
  function Table(results: Option<seq<EmojiId>>, data: seq<Category>): (cats: seq<Category>)
    ensures |cats| == |data| + 2
    ensures cats[0] == SearchCategory(results) && cats[1] == RecentCategory
    ensures cats[2..] == data
  {
    [SearchCategory(results), RecentCategory] + data
  }

  /** The category whose anchor entry is highlighted when `c` is active:
      its anchor if it has one, followed one level only. */
  function Resolve(c: Category): Category
  {
    if c.anchor.Some? then c.anchor.value else c
  }

  lemma SearchResolvesToRecent(results: Option<seq<EmojiId>>)
    ensures Resolve(SearchCategory(results)) == RecentCategory
    ensures Resolve(RecentCategory) == RecentCategory
  {
  }

  /** The order in which a pass of `n` categories visits the slots: backwards
      when scrolling down, forwards otherwise. */
  function ScanOrder(n: nat, scrollingDown: bool): (order: seq<nat>)
    ensures |order| == n
    ensures forall i :: 0 <= i < n ==> order[i] < n
  {
    seq(n, i requires 0 <= i < n => if scrollingDown then n - 1 - i else i)
  }

  predicate NoDuplicates(s: seq<nat>)
  {
    forall i, j :: 0 <= i < j < |s| ==> s[i] != s[j]
  }

  /** Each slot index below `n` occurs exactly once in a scan, in either direction,
      and the backward scan is the forward scan reversed. */
  lemma ScanOrderVisitsEachSlotOnce(n: nat, scrollingDown: bool)
    ensures NoDuplicates(ScanOrder(n, scrollingDown))
    ensures forall k: nat :: k in ScanOrder(n, scrollingDown) <==> k < n
    ensures forall i, j :: 0 <= i < j < n ==> ScanOrder(n, false)[i] < ScanOrder(n, false)[j]
    ensures forall i :: 0 <= i < n ==> ScanOrder(n, true)[i] == ScanOrder(n, false)[n - 1 - i]
  {
    var order := ScanOrder(n, scrollingDown);
    forall k: nat | k < n
      ensures k in order
    {
      assert order[if scrollingDown then n - 1 - k else k] == k;
    }
  }

  /** The slots of `order` that are mounted, in scan order: the children whose
      `handleScroll` a pass calls. */
  function MountedIn(slots: seq<Option<CategoryView>>, order: seq<nat>): seq<nat>
  {
    if order == [] then []
    else (if order[0] < |slots| && slots[order[0]].Some? then [order[0]] else [])
         + MountedIn(slots, order[1..])
  }

  lemma {:induction false} MountedInAppend(slots: seq<Option<CategoryView>>, order: seq<nat>, k: nat)
    ensures MountedIn(slots, order + [k])
         == MountedIn(slots, order) + (if k < |slots| && slots[k].Some? then [k] else [])
  {
    if order == [] {
      assert [] + [k] == [k];
    } else {
      assert (order + [k])[1..] == order[1..] + [k];
      MountedInAppend(slots, order[1..], k);
    }
  }

  lemma TailHasNoDuplicates(order: seq<nat>)
    requires order != [] && NoDuplicates(order)
    ensures NoDuplicates(order[1..]) && order[0] !in order[1..]
  {
  }

  /** In a scan without repetitions, a mounted slot of the scan is asked exactly
      once and every other index never. */
  lemma {:induction false} MountedInCounts(slots: seq<Option<CategoryView>>, order: seq<nat>, k: nat)
    requires NoDuplicates(order)
    ensures multiset(MountedIn(slots, order))[k]
         == if k in order && k < |slots| && slots[k].Some? then 1 else 0
  {
    if order != [] {
      var tail := order[1..];
      var head := if order[0] < |slots| && slots[order[0]].Some? then [order[0]] else [];
      TailHasNoDuplicates(order);
      MountedInCounts(slots, tail, k);
      assert MountedIn(slots, order) == head + MountedIn(slots, tail);
      assert multiset(MountedIn(slots, order)) == multiset(head) + multiset(MountedIn(slots, tail));
      assert order == [order[0]] + tail;
      assert k in order <==> k == order[0] || k in tail;
    }
  }

  /** Whether the slot `k` is mounted and its child reports itself active. */
  predicate Hit(slots: seq<Option<CategoryView>>, reports: seq<bool>, k: nat)
  {
    k < |slots| && k < |reports| && slots[k].Some? && reports[k]
  }

  predicate InTable(cats: seq<Category>, order: seq<nat>)
  {
    forall j :: 0 <= j < |order| ==> order[j] < |cats|
  }

  /** The active category of a pass: the first slot in `order` that is mounted and
      reports active, replaced by its anchor; `None` when no slot reports active. */
  function FirstActive(cats: seq<Category>, slots: seq<Option<CategoryView>>, reports: seq<bool>,
                       order: seq<nat>): Option<Category>
    requires InTable(cats, order)
  {
    if order == [] then None
    else if Hit(slots, reports, order[0]) then Some(Resolve(cats[order[0]]))
    else FirstActive(cats, slots, reports, order[1..])
  }

  lemma {:induction false} FirstActiveAppend(cats: seq<Category>, slots: seq<Option<CategoryView>>,
                                             reports: seq<bool>, order: seq<nat>, k: nat)
    requires InTable(cats, order) && k < |cats|
    ensures InTable(cats, order + [k])
    ensures FirstActive(cats, slots, reports, order + [k])
         == if FirstActive(cats, slots, reports, order).Some? then FirstActive(cats, slots, reports, order)
            else if Hit(slots, reports, k) then Some(Resolve(cats[k]))
            else None
  {
    if order != [] {
      assert (order + [k])[1..] == order[1..] + [k];
      FirstActiveAppend(cats, slots, reports, order[1..], k);
    }
  }

  /** Extending a scan prefix by one slot: what the loop of a pass does per slot. */
  lemma ScanPrefixStep(cats: seq<Category>, slots: seq<Option<CategoryView>>, reports: seq<bool>,
                       order: seq<nat>, i: nat)
    requires i < |order| && InTable(cats, order)
    ensures order[..i + 1] == order[..i] + [order[i]]
    ensures InTable(cats, order[..i]) && InTable(cats, order[..i + 1])
    ensures MountedIn(slots, order[..i + 1])
         == MountedIn(slots, order[..i]) + (if order[i] < |slots| && slots[order[i]].Some? then [order[i]] else [])
    ensures FirstActive(cats, slots, reports, order[..i + 1])
         == if FirstActive(cats, slots, reports, order[..i]).Some? then FirstActive(cats, slots, reports, order[..i])
            else if Hit(slots, reports, order[i]) then Some(Resolve(cats[order[i]]))
            else None
  {
    assert order[..i + 1] == order[..i] + [order[i]];
    MountedInAppend(slots, order[..i], order[i]);
    FirstActiveAppend(cats, slots, reports, order[..i], order[i]);
  }

  /** There is no active category iff no slot of the scan reports active. */
  lemma {:induction false} FirstActiveNoneIffNoHit(cats: seq<Category>, slots: seq<Option<CategoryView>>,
                                                   reports: seq<bool>, order: seq<nat>)
    requires InTable(cats, order)
    ensures FirstActive(cats, slots, reports, order).None?
        <==> forall j :: 0 <= j < |order| ==> !Hit(slots, reports, order[j])
  {
    if order != [] && !Hit(slots, reports, order[0]) {
      FirstActiveNoneIffNoHit(cats, slots, reports, order[1..]);
      assert (forall j :: 0 <= j < |order| ==> !Hit(slots, reports, order[j]))
         <==> (forall j :: 0 <= j < |order[1..]| ==> !Hit(slots, reports, order[1..][j]));
    }
  }

  /** The active category is the anchor-resolved category of the first slot of
      the scan that reports active. */
  lemma {:induction false} FirstActiveIsFirstHit(cats: seq<Category>, slots: seq<Option<CategoryView>>,
                                                 reports: seq<bool>, order: seq<nat>, j: nat)
    requires InTable(cats, order) && j < |order| && Hit(slots, reports, order[j])
    requires forall i :: 0 <= i < j ==> !Hit(slots, reports, order[i])
    ensures FirstActive(cats, slots, reports, order) == Some(Resolve(cats[order[j]]))
  {
    if j > 0 {
      assert !Hit(slots, reports, order[0]);
      assert order[1..][j - 1] == order[j];
      forall i | 0 <= i < j - 1
        ensures !Hit(slots, reports, order[1..][i])
      {
        assert order[1..][i] == order[i + 1];
      }
      FirstActiveIsFirstHit(cats, slots, reports, order[1..], j - 1);
    }
  }

  /** A pass asks every mounted child exactly once and no other slot, whichever
      the direction. */
  lemma EachMountedSlotAskedOnce(slots: seq<Option<CategoryView>>, scrollingDown: bool, k: nat)
    ensures multiset(MountedIn(slots, ScanOrder(|slots|, scrollingDown)))[k]
         == if k < |slots| && slots[k].Some? then 1 else 0
  {
    ScanOrderVisitsEachSlotOnce(|slots|, scrollingDown);
    MountedInCounts(slots, ScanOrder(|slots|, scrollingDown), k);
  }

  /** A pass finds no active category exactly when no mounted child reports active. */
  lemma NoActiveIffNoReport(cats: seq<Category>, slots: seq<Option<CategoryView>>, reports: seq<bool>,
                            scrollingDown: bool)
    requires |slots| == |cats|
    ensures FirstActive(cats, slots, reports, ScanOrder(|cats|, scrollingDown)).None?
        <==> forall k :: 0 <= k < |slots| ==> !Hit(slots, reports, k)
  {
    var order := ScanOrder(|cats|, scrollingDown);
    ScanOrderVisitsEachSlotOnce(|cats|, scrollingDown);
    FirstActiveNoneIffNoHit(cats, slots, reports, order);
    if forall j :: 0 <= j < |order| ==> !Hit(slots, reports, order[j]) {
      forall k | 0 <= k < |slots|
        ensures !Hit(slots, reports, k)
      {
        assert order[if scrollingDown then |cats| - 1 - k else k] == k;
      }
    }
  }

  /** What a whole pass guarantees: every mounted child asked exactly once, and
      no active category exactly when no mounted child reports active. */
  lemma PassFacts(cats: seq<Category>, slots: seq<Option<CategoryView>>, reports: seq<bool>, scrollingDown: bool)
    requires |slots| == |cats|
    ensures forall k: nat :: multiset(MountedIn(slots, ScanOrder(|cats|, scrollingDown)))[k]
                          == if k < |slots| && slots[k].Some? then 1 else 0
    ensures FirstActive(cats, slots, reports, ScanOrder(|cats|, scrollingDown)).None?
        <==> forall k :: 0 <= k < |slots| ==> !Hit(slots, reports, k)
  {
    forall k: nat
      ensures multiset(MountedIn(slots, ScanOrder(|cats|, scrollingDown)))[k]
           == if k < |slots| && slots[k].Some? then 1 else 0
    {
      EachMountedSlotAskedOnce(slots, scrollingDown, k);
    }
    NoActiveIffNoReport(cats, slots, reports, scrollingDown);
  }

  lemma {:induction false} FirstActiveAvoidsName(cats: seq<Category>, slots: seq<Option<CategoryView>>,
                                                 reports: seq<bool>, order: seq<nat>, name: string)
    requires InTable(cats, order)
    requires forall j :: 0 <= j < |order| ==> Resolve(cats[order[j]]).name != name
    ensures FirstActive(cats, slots, reports, order).Some? ==>
              FirstActive(cats, slots, reports, order).value.name != name
  {
    if order != [] && !Hit(slots, reports, order[0]) {
      forall j | 0 <= j < |order[1..]|
        ensures Resolve(cats[order[1..][j]]).name != name
      {
        assert order[1..][j] == order[j + 1];
      }
      FirstActiveAvoidsName(cats, slots, reports, order[1..], name);
    }
  }

  /** While the data set neither names a category `Search` nor anchors one to a
      category named `Search`, no pass resolves to `Search`: an active `Search`
      slot highlights `Recent`. */
  lemma ActiveIsNeverSearch(data: seq<Category>, results: Option<seq<EmojiId>>,
                            slots: seq<Option<CategoryView>>, reports: seq<bool>, scrollingDown: bool)
    requires forall c :: c in data ==> Resolve(c).name != SearchName
    ensures var cats := Table(results, data);
            var active := FirstActive(cats, slots, reports, ScanOrder(|cats|, scrollingDown));
            active.Some? ==> active.value.name != SearchName
  {
    var cats := Table(results, data);
    var order := ScanOrder(|cats|, scrollingDown);
    forall j | 0 <= j < |order|
      ensures Resolve(cats[order[j]]).name != SearchName
    {
      var k := order[j];
      if k >= 2 {
        assert cats[k] == data[k - 2];
      }
    }
    FirstActiveAvoidsName(cats, slots, reports, order, SearchName);
  }
}
