/** The area drop-down of the search bar: every known location is filed
 *  under a region of Japan, and the regions are shown in a fixed order. */
module LocationFilter {
  import opened Base

  /** A region and its prefectures (`regionGroups`, in declaration order,
   *  which is the order `Object.entries` visits them). */
  type RegionGroup = (string, seq<string>)

  const REGION_GROUPS: seq<RegionGroup> := [
    ("北海道", ["北海道"]),
    ("東北", ["青森県", "岩手県", "宮城県", "秋田県", "山形県", "福島県"]),
    ("関東", ["東京都", "神奈川県", "埼玉県", "千葉県", "茨城県", "栃木県", "群馬県"]),
    ("中部", ["新潟県", "富山県", "石川県", "福井県", "山梨県", "長野県", "岐阜県", "静岡県", "愛知県"]),
    ("近畿", ["三重県", "滋賀県", "京都府", "大阪府", "兵庫県", "奈良県", "和歌山県"]),
    ("中国", ["鳥取県", "島根県", "岡山県", "広島県", "山口県"]),
    ("四国", ["徳島県", "香川県", "愛媛県", "高知県"]),
    ("九州・沖縄", ["福岡県", "佐賀県", "長崎県", "熊本県", "大分県", "宮崎県", "鹿児島県", "沖縄県"])
  ]

  /** The region of a location no prefecture matches. */
  const OTHER: string := "その他"

  /** `regionOrder`: the order the regions are shown in. */
  const REGION_ORDER: seq<string> := ["北海道", "東北", "関東", "中部", "近畿", "中国", "四国", "九州・沖縄", "その他"]

  /** `sub` occurs in `s` starting at index `i`. */
  predicate OccursAt(s: string, sub: string, i: int)
  {
    0 <= i && i + |sub| <= |s| && s[i..i + |sub|] == sub
  }

  /** `s.includes(sub)` */
  predicate Contains(s: string, sub: string)
  {
    exists i :: 0 <= i <= |s| - |sub| && OccursAt(s, sub, i)
  }

  /** `s.startsWith(p)` */
  predicate StartsWith(s: string, p: string)
  {
    |p| <= |s| && s[..|p|] == p
  }

  /** `p.slice(0, -1)`: all but the last character. */
  function DropLast(p: string): (r: string)
    ensures |p| > 0 ==> p == r + [p[|p| - 1]]
    ensures |p| == 0 ==> r == []
  {
    if |p| == 0 then [] else p[..|p| - 1]
  }

  /** The test `getRegion` applies to one prefecture: the location names
   *  it, or starts with it less its last character (県, 府, 都 or 道). */
  predicate Names(location: string, pref: string)
  {
    Contains(location, pref) || StartsWith(location, DropLast(pref))
  }

  /** `prefectures.some(...)` */
  predicate AnyNames(location: string, prefs: seq<string>)
  {
    exists p :: p in prefs && Names(location, p)
  }

  /** The region of the first group, in the order of `groups`, that has a
   *  prefecture the location names; `OTHER` when there is none. */
  function FirstRegion(location: string, groups: seq<RegionGroup>): string
  {
    if |groups| == 0 then OTHER
    else if AnyNames(location, groups[0].1) then groups[0].0
    else FirstRegion(location, groups[1..])
  }

  /** The region `getRegion` assigns to a location. */
  function Region(location: string): string
  {
    FirstRegion(location, REGION_GROUPS)
  }

  /** The region names of `groups`, in order. */
  function Keys(groups: seq<RegionGroup>): (r: seq<string>)
    ensures |r| == |groups| && forall k :: 0 <= k < |groups| ==> r[k] == groups[k].0
  {
    seq(|groups|, k requires 0 <= k < |groups| => groups[k].0)
  }

  /** Group `k` is the first group with a prefecture the location names. */
  predicate FirstMatch(location: string, groups: seq<RegionGroup>, k: nat)
    requires k < |groups|
  {
    AnyNames(location, groups[k].1) && forall j :: 0 <= j < k ==> !AnyNames(location, groups[j].1)
  }

  /** `FirstRegion` is `OTHER` exactly when no group matches, and otherwise
   *  the region of the first group that does (no region is called `OTHER`). */
  lemma {:induction false} FirstRegionIsFirstMatch(location: string, groups: seq<RegionGroup>)
    requires OTHER !in Keys(groups)
    ensures FirstRegion(location, groups) == OTHER <==>
            (forall k :: 0 <= k < |groups| ==> !AnyNames(location, groups[k].1))
    ensures forall k :: 0 <= k < |groups| && FirstMatch(location, groups, k) ==>
              FirstRegion(location, groups) == groups[k].0
  {
    if |groups| > 0 {
      assert groups[0].0 in Keys(groups);
      assert Keys(groups[1..]) == Keys(groups)[1..];
      FirstRegionIsFirstMatch(location, groups[1..]);
      forall k | 0 < k < |groups| && FirstMatch(location, groups, k)
        ensures FirstRegion(location, groups) == groups[k].0
      {
        assert FirstMatch(location, groups[1..], k - 1);
      }
    }
  }

  /** The region names are the ones `regionOrder` lists, followed by `OTHER`. */
  lemma RegionOrderIsKeysThenOther()
    ensures REGION_ORDER == Keys(REGION_GROUPS) + [OTHER]
  {
    var ks := Keys(REGION_GROUPS);
    forall k | 0 <= k < |REGION_ORDER|
      ensures REGION_ORDER[k] == (ks + [OTHER])[k]
    {
      if k < |ks| {
        assert (ks + [OTHER])[k] == REGION_GROUPS[k].0;
      }
    }
  }

  /** No region is called `OTHER`. */
  lemma OtherIsNoKey()
    ensures OTHER !in Keys(REGION_GROUPS)
  {
    var ks := Keys(REGION_GROUPS);
    forall k | 0 <= k < |ks|
      ensures ks[k] != OTHER
    {
      assert ks[k] == REGION_GROUPS[k].0;
    }
  }

  /** `getRegion` always answers a region that `regionOrder` lists. */
  lemma {:induction false} RegionIsListed(location: string)
    ensures Region(location) in REGION_ORDER
  {
    RegionOrderIsKeysThenOther();
    FirstRegionIsKeyOrOther(location, REGION_GROUPS);
  }

  lemma {:induction false} FirstRegionIsKeyOrOther(location: string, groups: seq<RegionGroup>)
    ensures FirstRegion(location, groups) in Keys(groups) + [OTHER]
  {
    if |groups| > 0 && !AnyNames(location, groups[0].1) {
      FirstRegionIsKeyOrOther(location, groups[1..]);
      assert Keys(groups[1..]) == Keys(groups)[1..];
    }
  }

  /** `getRegion`: the groups are tried in order and the first that names
   *  the location wins. */
  method GetRegion(location: string) returns (region: string)
    ensures region == Region(location)
  {
    for k := 0 to |REGION_GROUPS|
      invariant FirstRegion(location, REGION_GROUPS[k..]) == Region(location)
    {
      assert REGION_GROUPS[k..][1..] == REGION_GROUPS[k + 1..];
      if AnyNames(location, REGION_GROUPS[k].1) {
        return REGION_GROUPS[k].0;
      }
    }
    return OTHER;
  }

  /** The locations, in input order, that `regionOf` files under `r`. */
  function InRegion(locations: seq<string>, regionOf: string -> string, r: string): (g: seq<string>)
    ensures forall x :: x in g <==> x in locations && regionOf(x) == r
  {
    if |locations| == 0 then []
    else
      var last := locations[|locations| - 1];
      assert locations == locations[..|locations| - 1] + [last];
      InRegion(locations[..|locations| - 1], regionOf, r) + (if regionOf(last) == r then [last] else [])
  }

  /** A region no location falls in has an empty group. */
  lemma {:induction false} InRegionEmpty(locations: seq<string>, regionOf: string -> string, r: string)
    requires forall i :: 0 <= i < |locations| ==> regionOf(locations[i]) != r
    ensures InRegion(locations, regionOf, r) == []
  {
    if |locations| > 0 {
      InRegionEmpty(locations[..|locations| - 1], regionOf, r);
    }
  }

  /** A group keeps the input order of its locations. */
  lemma {:induction false} InRegionKeepsOrder(locations: seq<string>, regionOf: string -> string, r: string)
    ensures SubsequenceOf(InRegion(locations, regionOf, r), locations)
  {
    if |locations| > 0 {
      var init, last := locations[..|locations| - 1], locations[|locations| - 1];
      assert locations == init + [last];
      InRegionKeepsOrder(init, regionOf, r);
      var g := InRegion(init, regionOf, r);
      if regionOf(last) == r {
        SubsequenceAppend(g, init, last);
        assert InRegion(locations, regionOf, r) == g + [last];
      } else {
        SubsequenceWiden(g, init, last);
        assert InRegion(locations, regionOf, r) == g;
      }
    }
  }

  /** What `groupLocationsByRegion` builds from `locations`: one entry per
   *  region some location falls in, holding that region's locations. */
  ghost predicate Grouping(grouped: map<string, seq<string>>, locations: seq<string>, regionOf: string -> string)
  {
    && (forall r :: r in grouped <==> exists i :: 0 <= i < |locations| && regionOf(locations[i]) == r)
    && (forall r :: r in grouped ==> grouped[r] == InRegion(locations, regionOf, r))
  }

  /** Appending a location adds it to the end of its own region's group
   *  and changes no other group. */
  lemma InRegionAppend(locations: seq<string>, regionOf: string -> string, x: string, r: string)
    ensures InRegion(locations + [x], regionOf, r) ==
            InRegion(locations, regionOf, r) + (if regionOf(x) == r then [x] else [])
  {
    assert (locations + [x])[..|locations|] == locations;
  }

  /** Pushing one more location onto its region's list (created empty when
   *  missing) keeps the map a grouping of the longer input. */
  lemma GroupingStep(grouped: map<string, seq<string>>, locations: seq<string>, regionOf: string -> string, x: string)
    requires Grouping(grouped, locations, regionOf)
    ensures var region := regionOf(x);
            Grouping(grouped[region := (if region in grouped then grouped[region] else []) + [x]], locations + [x], regionOf)
  {
    var region := regionOf(x);
    var after := grouped[region := (if region in grouped then grouped[region] else []) + [x]];
    forall r
      ensures r in after <==> exists i :: 0 <= i < |locations + [x]| && regionOf((locations + [x])[i]) == r
    {
      GroupingStepKey(grouped, locations, regionOf, x, r);
    }
    forall r | r in after
      ensures after[r] == InRegion(locations + [x], regionOf, r)
    {
      InRegionAppend(locations, regionOf, x, r);
      if r == region && region !in grouped {
        InRegionEmpty(locations, regionOf, r);
      }
    }
  }

  /** A region is one of the longer grouping exactly when it is an old one
   *  or the region of the new location. */
  lemma GroupingStepKey(grouped: map<string, seq<string>>, locations: seq<string>, regionOf: string -> string, x: string, r: string)
    requires Grouping(grouped, locations, regionOf)
    ensures r in grouped || r == regionOf(x) <==>
            exists i :: 0 <= i < |locations + [x]| && regionOf((locations + [x])[i]) == r
  {
    var longer := locations + [x];
    if r == regionOf(x) {
      assert regionOf(longer[|locations|]) == r;
    } else if r in grouped {
      var i :| 0 <= i < |locations| && regionOf(locations[i]) == r;
      assert regionOf(longer[i]) == r;
    }
  }

  /** A grouping has no empty group, and files each location in the group
   *  of its region and in no other. */
  lemma GroupsPartition(grouped: map<string, seq<string>>, locations: seq<string>, regionOf: string -> string)
    requires Grouping(grouped, locations, regionOf)
    ensures forall r :: r in grouped ==> grouped[r] != []
    ensures forall i :: 0 <= i < |locations| ==> regionOf(locations[i]) in grouped
    ensures forall i, r :: 0 <= i < |locations| && r in grouped ==>
              (locations[i] in grouped[r] <==> r == regionOf(locations[i]))
  {
    forall r | r in grouped
      ensures grouped[r] != []
    {
      var i :| 0 <= i < |locations| && regionOf(locations[i]) == r;
      assert locations[i] in InRegion(locations, regionOf, r);
    }
  }

  /** `groupLocationsByRegion`: each location is pushed onto the list of its
   *  region, the list being created on the region's first location. */
  method GroupLocationsByRegion(locations: seq<string>) returns (grouped: map<string, seq<string>>)
    ensures Grouping(grouped, locations, Region)
  {
    grouped := map[];
    for i := 0 to |locations|
      invariant Grouping(grouped, locations[..i], Region)
    {
      grouped := PushLocation(grouped, locations[..i], locations[i]);
      assert locations[..i + 1] == locations[..i] + [locations[i]];
    }
    assert locations[..|locations|] == locations;
  }

  /** The body of the loop: the location is pushed onto the list of its
   *  region, which is created empty when missing. */
  method PushLocation(grouped: map<string, seq<string>>, ghost done: seq<string>, location: string)
    returns (grouped': map<string, seq<string>>)
    requires Grouping(grouped, done, Region)
    ensures Grouping(grouped', done + [location], Region)
  {
    var region := GetRegion(location);
    var list := if region in grouped then grouped[region] else [];
    GroupingStep(grouped, done, Region, location);
    grouped' := grouped[region := list + [location]];
  }

  /** No entry of `s` occurs twice. */
  predicate NoDuplicates(s: seq<string>)
  {
    forall i, j :: 0 <= i < j < |s| ==> s[i] != s[j]
  }

  /** `regionOrder` names each region once. */
  lemma RegionOrderNoDuplicates()
    ensures NoDuplicates(REGION_ORDER)
  {
  }

  /** The options of the drop-down: the groups of `order`, in that order,
   *  a missing group contributing nothing. */
  function Listed(grouped: map<string, seq<string>>, order: seq<string>): seq<string>
  {
    if |order| == 0 then []
    else (if order[0] in grouped then grouped[order[0]] else []) + Listed(grouped, order[1..])
  }

  /** The groups of `order`, each computed afresh from `locations`. */
  function Gather(locations: seq<string>, regionOf: string -> string, order: seq<string>): seq<string>
  {
    if |order| == 0 then []
    else InRegion(locations, regionOf, order[0]) + Gather(locations, regionOf, order[1..])
  }

  lemma {:induction false} ListedIsGathered(grouped: map<string, seq<string>>, locations: seq<string>,
                                            regionOf: string -> string, order: seq<string>)
    requires Grouping(grouped, locations, regionOf)
    ensures Listed(grouped, order) == Gather(locations, regionOf, order)
  {
    if |order| > 0 {
      ListedIsGathered(grouped, locations, regionOf, order[1..]);
      if order[0] !in grouped {
        InRegionEmpty(locations, regionOf, order[0]);
      }
    }
  }

  /** One more location adds one copy of it to the gathered groups when
   *  its region is among `order`, and nothing otherwise. */
  lemma {:induction false} GatherAppend(locations: seq<string>, regionOf: string -> string, x: string, order: seq<string>)
    requires NoDuplicates(order)
    ensures multiset(Gather(locations + [x], regionOf, order)) ==
            multiset(Gather(locations, regionOf, order)) + (if regionOf(x) in order then multiset{x} else multiset{})
  {
    if |order| > 0 {
      assert NoDuplicates(order[1..]);
      GatherAppend(locations, regionOf, x, order[1..]);
      InRegionAppend(locations, regionOf, x, order[0]);
      assert regionOf(x) in order <==> regionOf(x) == order[0] || regionOf(x) in order[1..];
      assert regionOf(x) == order[0] ==> regionOf(x) !in order[1..];
    }
  }

  /** When `order` names every location's region once, the gathered groups
   *  hold every location exactly as often as the input does. */
  lemma {:induction false} GatherAll(locations: seq<string>, regionOf: string -> string, order: seq<string>)
    requires NoDuplicates(order)
    requires forall i :: 0 <= i < |locations| ==> regionOf(locations[i]) in order
    ensures multiset(Gather(locations, regionOf, order)) == multiset(locations)
  {
    if |locations| == 0 {
      GatherEmpty(regionOf, order);
    } else {
      var init, last := locations[..|locations| - 1], locations[|locations| - 1];
      assert locations == init + [last];
      GatherAll(init, regionOf, order);
      GatherAppend(init, regionOf, last, order);
    }
  }

  lemma {:induction false} GatherEmpty(regionOf: string -> string, order: seq<string>)
    ensures Gather([], regionOf, order) == []
  {
    if |order| > 0 {
      GatherEmpty(regionOf, order[1..]);
    }
  }

  /** The drop-down built from `groupLocationsByRegion` and `regionOrder`
   *  shows every location exactly as often as it was given: none is lost
   *  to a region the order leaves out, none is shown twice. */
  lemma EveryLocationListedOnce(grouped: map<string, seq<string>>, locations: seq<string>)
    requires Grouping(grouped, locations, Region)
    ensures multiset(Listed(grouped, REGION_ORDER)) == multiset(locations)
  {
    ListedIsGathered(grouped, locations, Region, REGION_ORDER);
    RegionOrderNoDuplicates();
    forall i | 0 <= i < |locations|
      ensures Region(locations[i]) in REGION_ORDER
    {
      RegionIsListed(locations[i]);
    }
    GatherAll(locations, Region, REGION_ORDER);
  }
}
