/** The browser's "recently viewed farms" list, kept as JSON under one
 *  localStorage key: newest first, one entry per farm, at most ten. */
module RecentlyViewed {
  import opened Base

  const MAX_ITEMS: nat := 10

  /** The farm fields a page passes in (`Omit<RecentlyViewedItem, 'viewedAt'>`). */
  datatype FarmRef = FarmRef(id: int, publicId: Option<string>, name: string, imageUrl: Option<string>, location: string)

  /** A stored entry: the farm and the time it was viewed (`Date.now()`). */
  datatype Item = Item(farm: FarmRef, viewedAt: int)

  /** What `localStorage.getItem` yields for the key: nothing (or the empty
   *  string), a list that parses, or text that does not parse. */
  datatype Slot = Empty | Holds(items: seq<Item>) | Unparsable

  /** `list.filter(i => i.id !== id)` */
  function Without(s: seq<Item>, id: int): (r: seq<Item>)
    ensures |r| <= |s|
    ensures forall i :: 0 <= i < |r| ==> r[i].farm.id != id
    ensures SubsequenceOf(r, s)
    ensures (forall i :: 0 <= i < |s| ==> s[i].farm.id != id) ==> r == s
  {
    if |s| == 0 then []
    else if s[0].farm.id == id then Without(s[1..], id)
    else [s[0]] + Without(s[1..], id)
  }

  /** The list `addToRecentlyViewed` stores: the old entries without the
   *  farm, the farm in front, cut to `MAX_ITEMS`. */
  function Added(list: seq<Item>, farm: FarmRef, now: int): seq<Item>
  {
    var front := [Item(farm, now)] + Without(list, farm.id);
    front[..Min(|front|, MAX_ITEMS)]
  }

  /** After an add the farm heads the list with the new time and occurs
   *  nowhere else; the list is never longer than ten; the other entries
   *  are old entries in their old order, the newest ones kept. */
  lemma AddedProperties(list: seq<Item>, farm: FarmRef, now: int)
    ensures var r := Added(list, farm, now);
            && 1 <= |r| <= MAX_ITEMS
            && r[0] == Item(farm, now)
            && (forall i :: 1 <= i < |r| ==> r[i].farm.id != farm.id)
            && SubsequenceOf(r[1..], list)
            && r[1..] == Without(list, farm.id)[..|r| - 1]
            && |r| == Min(|Without(list, farm.id)| + 1, MAX_ITEMS)
  {
    var w := Without(list, farm.id);
    var r := Added(list, farm, now);
    assert r[1..] == w[..|r| - 1];
    PrefixOfSubsequence(w, list, |r| - 1);
  }

  /** Viewing the farm at the head again only refreshes its time. */
  lemma AddedAgainRefreshes(list: seq<Item>, farm: FarmRef, now: int, later: int)
    ensures Added(Added(list, farm, now), farm, later) == Added(list, farm, later)
  {
    var r := Added(list, farm, now);
    var w := Without(list, farm.id);
    AddedProperties(list, farm, now);
    assert Without(r, farm.id) == r[1..] by {
      assert r == [r[0]] + r[1..];
      assert Without(r[1..], farm.id) == r[1..];
    }
    assert r[1..] == w[..|r| - 1];
  }

  /** The store behind the list.  `inBrowser` is false during server
   *  rendering, where every call does nothing. */
  class RecentlyViewedStore {
    const inBrowser: bool
    var slot: Slot

    constructor (inBrowser: bool, slot: Slot)
      ensures this.inBrowser == inBrowser && this.slot == slot
    {
      this.inBrowser := inBrowser;
      this.slot := slot;
    }

    /** `getRecentlyViewed`: the stored list, or the empty list when there
     *  is no window, nothing stored, or the text does not parse. */
    function Get(): (r: seq<Item>)
      reads this
      ensures r != [] ==> inBrowser && slot.Holds? && r == slot.items
      ensures inBrowser && slot.Holds? ==> r == slot.items
    {
      if inBrowser && slot.Holds? then slot.items else []
    }

    /** `addToRecentlyViewed` */
    method Add(farm: FarmRef, now: int)
      modifies this
      ensures inBrowser ==> slot == Holds(Added(old(Get()), farm, now))
      ensures !inBrowser ==> slot == old(slot)
    {
      if !inBrowser {
        return;
      }
      var list := Get();
      var filtered := Without(list, farm.id);
      filtered := [Item(farm, now)] + filtered;
      var trimmed := filtered[..Min(|filtered|, MAX_ITEMS)];
      slot := Holds(trimmed);
    }

    /** `clearRecentlyViewed` */
    method Clear()
      modifies this
      ensures inBrowser ==> slot == Empty
      ensures !inBrowser ==> slot == old(slot)
      ensures Get() == []
    {
      if inBrowser {
        slot := Empty;
      }
    }
  }
}
