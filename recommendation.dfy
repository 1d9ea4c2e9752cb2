/** Farm recommendations on the home page: a score per farm from the
 *  prefectures in the viewing history, its reviews, and whether it was
 *  viewed or is a favourite; farms are ranked by score, or by rating when
 *  there is no history. */
module Recommendation {
  import opened Base
  import RV = RecentlyViewed
  import opened Sorting

  /** The fields of a farm the ranking reads. */
  datatype Farm = Farm(id: int, name: string, location: string)

  /** Review summary of a farm: its mean rating and how many reviews. */
  datatype RatingInfo = RatingInfo(avgRating: real, count: nat)

  datatype FarmWithScore = FarmWithScore(farm: Farm, score: real)

  // ---------------------------------------------------------------------
  // extractPrefecture: /^(.+?[都道府県])/

  const PREFECTURE_SUFFIXES: string := "都道府県"

  /** The regular expression matches the first `n` characters of `s`: at
   *  least one character that is not a line break, then a suffix. */
  predicate PrefectureMatch(s: string, n: int)
  {
    2 <= n <= |s| && s[n - 1] in PREFECTURE_SUFFIXES && forall j :: 0 <= j < n - 1 ==> !LineTerminator(s[j])
  }

  /** The lazy `.+?` tries the lengths in increasing order from `k + 1`,
   *  no shorter length having matched. */
  function PrefectureFrom(s: string, k: nat): (r: Option<string>)
    requires 1 <= k <= |s| + 1
    requires forall j :: 0 <= j < k - 1 ==> !LineTerminator(s[j])
    requires forall m :: 2 <= m <= k ==> !PrefectureMatch(s, m)
    ensures r.Some? ==> && |r.value| <= |s| && r.value == s[..|r.value|] && PrefectureMatch(s, |r.value|)
                        && forall m :: 2 <= m < |r.value| ==> !PrefectureMatch(s, m)
    ensures r.None? ==> forall m :: !PrefectureMatch(s, m)
    decreases |s| - k
  {
    if k >= |s| then None
    else if LineTerminator(s[k - 1]) then None
    else if s[k] in PREFECTURE_SUFFIXES then Some(s[..k + 1])
    else PrefectureFrom(s, k + 1)
  }

  /** `extractPrefecture`: the shortest match, or none ("埼玉県秩父市" gives
   *  "埼玉県"). */
  function ExtractPrefecture(location: string): (r: Option<string>)
    ensures r.Some? ==> && |r.value| <= |location| && r.value == location[..|r.value|]
                        && PrefectureMatch(location, |r.value|)
                        && forall m :: 2 <= m < |r.value| ==> !PrefectureMatch(location, m)
    ensures r.None? ==> forall m :: !PrefectureMatch(location, m)
  {
    PrefectureFrom(location, 1)
  }

  /** A found prefecture has at least two characters and ends in a suffix;
   *  it is found whenever some prefix matches. */
  lemma ExtractPrefectureIff(location: string)
    ensures ExtractPrefecture(location).Some? <==> exists n :: PrefectureMatch(location, n)
    ensures ExtractPrefecture(location).Some? ==>
              var p := ExtractPrefecture(location).value;
              |p| >= 2 && p[|p| - 1] in PREFECTURE_SUFFIXES
  {
  }

  // ---------------------------------------------------------------------
  // extractLocationPreferences

  /** The prefecture of each viewed item, if it has one. */
  function PrefecturesOf(v: seq<RV.Item>): (ps: seq<Option<string>>)
    ensures |ps| == |v| && forall i :: 0 <= i < |v| ==> ps[i] == ExtractPrefecture(v[i].farm.location)
  {
    seq(|v|, i requires 0 <= i < |v| => ExtractPrefecture(v[i].farm.location))
  }

  /** How many entries are `p`. */
  function Occurrences(ps: seq<Option<string>>, p: string): nat
  {
    if |ps| == 0 then 0 else Occurrences(ps[..|ps| - 1], p) + (if ps[|ps| - 1] == Some(p) then 1 else 0)
  }

  /** The prefectures that occur. */
  function Seen(ps: seq<Option<string>>): set<string>
  {
    set i | 0 <= i < |ps| && ps[i].Some? :: ps[i].value
  }

  /** Each prefecture that occurs, with its number of occurrences. */
  function Tally(ps: seq<Option<string>>): (m: map<string, nat>)
    ensures m.Keys == Seen(ps)
  {
    map p | p in Seen(ps) :: Occurrences(ps, p)
  }

  /** The preference map of a history. */
  function PreferenceCounts(v: seq<RV.Item>): map<string, nat>
  {
    Tally(PrefecturesOf(v))
  }

  lemma {:induction false} OccurrencesZero(ps: seq<Option<string>>, p: string)
    requires p !in Seen(ps)
    ensures Occurrences(ps, p) == 0
  {
    if |ps| > 0 {
      var w := ps[..|ps| - 1];
      assert Seen(w) <= Seen(ps) by {
        forall q | q in Seen(w)
          ensures q in Seen(ps)
        {
          var i :| 0 <= i < |w| && w[i].Some? && w[i].value == q;
          assert ps[i] == w[i];
        }
      }
      OccurrencesZero(w, p);
      assert ps[|ps| - 1] != Some(p);
    }
  }

  lemma {:induction false} OccurrencesPositive(ps: seq<Option<string>>, p: string, i: nat)
    requires i < |ps| && ps[i] == Some(p)
    ensures Occurrences(ps, p) >= 1
  {
    if i < |ps| - 1 {
      var w := ps[..|ps| - 1];
      assert w[i] == ps[i];
      OccurrencesPositive(w, p, i);
    }
  }

  /** Every prefecture in the map was seen at least once, and exactly the
   *  prefectures of viewed items are in it. */
  lemma PreferenceCountsMeaning(v: seq<RV.Item>, p: string)
    ensures p in PreferenceCounts(v) <==> exists i :: 0 <= i < |v| && ExtractPrefecture(v[i].farm.location) == Some(p)
    ensures p in PreferenceCounts(v) ==> PreferenceCounts(v)[p] >= 1
  {
    var ps := PrefecturesOf(v);
    if p in PreferenceCounts(v) {
      var i :| 0 <= i < |ps| && ps[i].Some? && ps[i].value == p;
      OccurrencesPositive(ps, p, i);
    }
    if i :| 0 <= i < |v| && ExtractPrefecture(v[i].farm.location) == Some(p) {
      assert ps[i] == Some(p);
    }
  }

  /** One more entry adds one to its own prefecture and nothing else. */
  lemma TallyStep(ps: seq<Option<string>>, i: nat)
    requires i < |ps|
    ensures var before := Tally(ps[..i]);
            Tally(ps[..i + 1]) ==
              if ps[i].None? then before
              else before[ps[i].value := (if ps[i].value in before then before[ps[i].value] else 0) + 1]
  {
    var w, u := ps[..i], ps[..i + 1];
    assert u[..|u| - 1] == w && u[|u| - 1] == ps[i];
    var p := ps[i];
    assert Seen(u) == Seen(w) + (if p.Some? then {p.value} else {}) by {
      forall q
        ensures q in Seen(u) <==> q in Seen(w) + (if p.Some? then {p.value} else {})
      {
        if q in Seen(u) {
          var j :| 0 <= j < |u| && u[j].Some? && u[j].value == q;
          if j < i {
            assert w[j] == u[j];
          }
        }
        if q in Seen(w) {
          var j :| 0 <= j < |w| && w[j].Some? && w[j].value == q;
          assert u[j] == w[j];
        }
      }
    }
    if p.Some? && p.value !in Seen(w) {
      OccurrencesZero(w, p.value);
    }
  }

  /** `extractLocationPreferences`: the `forEach` over the history. */
  method ExtractLocationPreferences(recentlyViewed: seq<RV.Item>) returns (locationCounts: map<string, nat>)
    ensures locationCounts == PreferenceCounts(recentlyViewed)
  {
    ghost var ps := PrefecturesOf(recentlyViewed);
    locationCounts := map[];
    for i := 0 to |recentlyViewed|
      invariant locationCounts == Tally(ps[..i])
    {
      TallyStep(ps, i);
      var prefecture := ExtractPrefecture(recentlyViewed[i].farm.location);
      if prefecture.Some? {
        var p := prefecture.value;
        locationCounts := locationCounts[p := (if p in locationCounts then locationCounts[p] else 0) + 1];
      }
    }
    assert ps[..|recentlyViewed|] == ps;
  }

  // ---------------------------------------------------------------------
  // calculateScore

  /** Same-prefecture bonus: 30 per viewed farm there, counting three at
   *  most. */
  function LocationBonus(farm: Farm, prefs: map<string, nat>): real
  {
    var p := ExtractPrefecture(farm.location);
    if p.Some? && p.value in prefs then 30.0 * Min(prefs[p.value], 3) as real else 0.0
  }

  /** Rating bonus from 4.0 up: 15 at 4.0, ten per further star, and two per
   *  review counting five at most. */
  function RatingBonus(farm: Farm, ratings: map<int, RatingInfo>): real
  {
    if farm.id in ratings && ratings[farm.id].avgRating >= 4.0
    then 15.0 + (ratings[farm.id].avgRating - 4.0) * 10.0 + (Min(ratings[farm.id].count, 5) * 2) as real
    else 0.0
  }

  function Score(farm: Farm, viewedIds: set<int>, favoriteIds: set<int>, prefs: map<string, nat>,
                 ratings: map<int, RatingInfo>): real
  {
    LocationBonus(farm, prefs) + RatingBonus(farm, ratings) +
    (if farm.id !in viewedIds then 10.0 else 0.0) + (if farm.id !in favoriteIds then 5.0 else 0.0)
  }

  /** `calculateScore`: the bonuses added one after another. */
  method CalculateScore(farm: Farm, recentlyViewedIds: set<int>, favoriteIds: set<int>,
                        locationPreferences: map<string, nat>, ratingsMap: map<int, RatingInfo>)
    returns (score: real)
    ensures score == Score(farm, recentlyViewedIds, favoriteIds, locationPreferences, ratingsMap)
    ensures score >= 0.0
  {
    score := 0.0;
    var farmPrefecture := ExtractPrefecture(farm.location);
    if farmPrefecture.Some? && farmPrefecture.value in locationPreferences {
      var locationCount := locationPreferences[farmPrefecture.value];
      score := score + 30.0 * Min(locationCount, 3) as real;
    }
    if farm.id in ratingsMap && ratingsMap[farm.id].avgRating >= 4.0 {
      var ratingInfo := ratingsMap[farm.id];
      score := score + 15.0 + (ratingInfo.avgRating - 4.0) * 10.0;
      score := score + (Min(ratingInfo.count, 5) * 2) as real;
    }
    if farm.id !in recentlyViewedIds {
      score := score + 10.0;
    }
    if farm.id !in favoriteIds {
      score := score + 5.0;
    }
  }

  /** The bonuses' ranges: location at most 90, rating either nothing or
   *  15 to 35 for ratings up to five stars, so the score is never negative
   *  and an unviewed, non-favourite farm always gets at least 15. */
  lemma ScoreBounds(farm: Farm, viewedIds: set<int>, favoriteIds: set<int>, prefs: map<string, nat>,
                    ratings: map<int, RatingInfo>)
    ensures 0.0 <= LocationBonus(farm, prefs) <= 90.0
    ensures RatingBonus(farm, ratings) == 0.0 || RatingBonus(farm, ratings) >= 15.0
    ensures farm.id in ratings && ratings[farm.id].avgRating <= 5.0 ==> RatingBonus(farm, ratings) <= 35.0
    ensures Score(farm, viewedIds, favoriteIds, prefs, ratings) >= 0.0
    ensures farm.id !in viewedIds && farm.id !in favoriteIds ==> Score(farm, viewedIds, favoriteIds, prefs, ratings) >= 15.0
  {
  }

  // ---------------------------------------------------------------------
  // getRecommendedFarms

  /** `Array.prototype.filter` */
  function Filter<T(!new)>(s: seq<T>, keep: T -> bool): (r: seq<T>)
    ensures |r| <= |s|
    ensures forall x :: x in r <==> x in s && keep(x)
  {
    if |s| == 0 then []
    else (if keep(s[0]) then [s[0]] else []) + Filter(s[1..], keep)
  }

  /** `s.slice(0, end)`: a negative end counts from the back. */
  function Slice<T>(s: seq<T>, end: int): (r: seq<T>)
    ensures |r| <= |s| && r == s[..|r|]
    ensures end >= 0 ==> |r| == Min(end, |s|)
    ensures end < 0 ==> |r| == Max(|s| + end, 0)
  {
    if end >= 0 then s[..Min(end, |s|)] else s[..Max(|s| + end, 0)]
  }

  /** `ratingsMap.get(id)?.avgRating || 0` */
  function RatingOf(ratings: map<int, RatingInfo>, farm: Farm): real
  {
    if farm.id in ratings then ratings[farm.id].avgRating else 0.0
  }

  function IdsOf(viewed: seq<RV.Item>): set<int>
  {
    set i | 0 <= i < |viewed| :: viewed[i].farm.id
  }

  function SetOf(ids: seq<int>): set<int>
  {
    set i | 0 <= i < |ids| :: ids[i]
  }

  /** The farms scored when there is a history: already viewed farms only
   *  once five or more have been viewed. */
  function Candidates(allFarms: seq<Farm>, viewed: seq<RV.Item>): seq<Farm>
  {
    var viewedIds := IdsOf(viewed);
    Filter(allFarms, (farm: Farm) => farm.id !in viewedIds || |viewed| >= 5)
  }

  function Scored(farms: seq<Farm>, viewedIds: set<int>, favoriteIds: set<int>, prefs: map<string, nat>,
                  ratings: map<int, RatingInfo>): (r: seq<FarmWithScore>)
    ensures |r| == |farms|
    ensures forall i :: 0 <= i < |r| ==> r[i] == FarmWithScore(farms[i], Score(farms[i], viewedIds, favoriteIds, prefs, ratings))
  {
    seq(|farms|, i requires 0 <= i < |farms| => FarmWithScore(farms[i], Score(farms[i], viewedIds, favoriteIds, prefs, ratings)))
  }

  /** `getRecommendedFarms` */
  function RecommendedFarms(allFarms: seq<Farm>, recentlyViewed: seq<RV.Item>, favoriteIds: seq<int>,
                            ratings: map<int, RatingInfo>, limit: int): seq<Farm>
  {
    if |recentlyViewed| == 0 then
      var kept := Filter(allFarms, (farm: Farm) => farm.id !in favoriteIds);
      Slice(SortDesc(kept, (farm: Farm) => RatingOf(ratings, farm)), limit)
    else
      var viewedIds := IdsOf(recentlyViewed);
      var scored := Scored(Candidates(allFarms, recentlyViewed), viewedIds, SetOf(favoriteIds),
                           PreferenceCounts(recentlyViewed), ratings);
      var top := Slice(SortDesc(scored, (fs: FarmWithScore) => fs.score), limit);
      seq(|top|, i requires 0 <= i < |top| => top[i].farm)
  }

  /** Without history: no favourites, best rated first, as many as `limit`
   *  allows, and no farm left out rated above one that was kept. */
  lemma RecommendedWithoutHistory(allFarms: seq<Farm>, favoriteIds: seq<int>, ratings: map<int, RatingInfo>, limit: int)
    ensures var r := RecommendedFarms(allFarms, [], favoriteIds, ratings, limit);
            var kept := Filter(allFarms, (farm: Farm) => farm.id !in favoriteIds);
            && (limit >= 0 ==> |r| == Min(limit, |kept|))
            && (forall f :: f in r ==> f in allFarms && f.id !in favoriteIds)
            && (forall i, j :: 0 <= i < j < |r| ==> RatingOf(ratings, r[i]) >= RatingOf(ratings, r[j]))
            && (forall f, g :: f in kept && f !in r && g in r ==> RatingOf(ratings, g) >= RatingOf(ratings, f))
  {
    var kept := Filter(allFarms, (farm: Farm) => farm.id !in favoriteIds);
    var key := (farm: Farm) => RatingOf(ratings, farm);
    var sorted := SortDesc(kept, key);
    SortDescSameElements(kept, key);
    var r := Slice(sorted, limit);
    forall f | f in r
      ensures f in allFarms && f.id !in favoriteIds
    {
      assert f in sorted;
    }
    PrefixIsTop(sorted, key, |r|);
    assert r == sorted[..|r|];
  }

  /** With history: farms out of the list, already viewed ones only from
   *  five views on, highest score first, as many as `limit` allows, and no
   *  candidate left out scored above one that was kept. */
  lemma RecommendedWithHistory(allFarms: seq<Farm>, recentlyViewed: seq<RV.Item>, favoriteIds: seq<int>,
                               ratings: map<int, RatingInfo>, limit: int)
    requires |recentlyViewed| > 0
    ensures var r := RecommendedFarms(allFarms, recentlyViewed, favoriteIds, ratings, limit);
            var candidates := Candidates(allFarms, recentlyViewed);
            var score := (farm: Farm) => Score(farm, IdsOf(recentlyViewed), SetOf(favoriteIds),
                                               PreferenceCounts(recentlyViewed), ratings);
            && (limit >= 0 ==> |r| == Min(limit, |candidates|))
            && (forall f :: f in r ==> f in allFarms)
            && (|recentlyViewed| < 5 ==> forall f :: f in r ==> f.id !in IdsOf(recentlyViewed))
            && (forall i, j :: 0 <= i < j < |r| ==> score(r[i]) >= score(r[j]))
            && (forall f, g :: f in candidates && f !in r && g in r ==> score(g) >= score(f))
  {
    var viewedIds := IdsOf(recentlyViewed);
    var favs := SetOf(favoriteIds);
    var prefs := PreferenceCounts(recentlyViewed);
    var candidates := Candidates(allFarms, recentlyViewed);
    var score := (farm: Farm) => Score(farm, viewedIds, favs, prefs, ratings);
    var scored := Scored(candidates, viewedIds, favs, prefs, ratings);
    var key := (fs: FarmWithScore) => fs.score;
    var sorted := SortDesc(scored, key);
    SortDescSameElements(scored, key);
    var top := Slice(sorted, limit);
    var r := RecommendedFarms(allFarms, recentlyViewed, favoriteIds, ratings, limit);
    assert |r| == |top| && forall i :: 0 <= i < |r| ==> r[i] == top[i].farm;
    RankedByScore(candidates, score, scored, sorted, top, r, limit);
    forall f | f in r
      ensures f in allFarms && (|recentlyViewed| < 5 ==> f.id !in viewedIds)
    {
      assert f in candidates;
    }
  }

  /** Scoring, sorting by score and cutting at `limit`, on any candidates:
   *  the farms kept are candidates, best first, and none left out beats
   *  one kept. */
  lemma RankedByScore(candidates: seq<Farm>, score: Farm -> real, scored: seq<FarmWithScore>,
                      sorted: seq<FarmWithScore>, top: seq<FarmWithScore>, r: seq<Farm>, limit: int)
    requires |scored| == |candidates|
    requires forall i :: 0 <= i < |scored| ==> scored[i] == FarmWithScore(candidates[i], score(candidates[i]))
    requires SortedDesc(sorted, (fs: FarmWithScore) => fs.score) && |sorted| == |scored|
    requires forall y :: y in sorted <==> y in scored
    requires top == Slice(sorted, limit)
    requires |r| == |top| && forall i :: 0 <= i < |r| ==> r[i] == top[i].farm
    ensures limit >= 0 ==> |r| == Min(limit, |candidates|)
    ensures forall f :: f in r ==> f in candidates
    ensures forall i, j :: 0 <= i < j < |r| ==> score(r[i]) >= score(r[j])
    ensures forall f, g :: f in candidates && f !in r && g in r ==> score(g) >= score(f)
  {
    forall k | 0 <= k < |sorted|
      ensures sorted[k].farm in candidates && sorted[k].score == score(sorted[k].farm)
    {
      assert sorted[k] in scored;
      var j :| 0 <= j < |scored| && scored[j] == sorted[k];
    }
    forall i | 0 <= i < |r|
      ensures r[i] == sorted[i].farm
    {
      assert top[i] == sorted[i];
    }
    forall f, g | f in candidates && f !in r && g in r
      ensures score(g) >= score(f)
    {
      var j :| 0 <= j < |candidates| && candidates[j] == f;
      assert scored[j] in sorted;
      var i :| 0 <= i < |r| && r[i] == g;
      TopScored(sorted, |top|, f, i, score);
    }
  }

  /** The farm of an entry inside the first `n` of a list sorted by score is
   *  scored at least as high as any farm whose entry lies behind them. */
  lemma TopScored(sorted: seq<FarmWithScore>, n: nat, f: Farm, i: nat, score: Farm -> real)
    requires SortedDesc(sorted, (fs: FarmWithScore) => fs.score)
    requires i < n <= |sorted|
    requires forall k :: 0 <= k < |sorted| ==> sorted[k].score == score(sorted[k].farm)
    requires FarmWithScore(f, score(f)) in sorted
    requires forall k :: 0 <= k < n ==> sorted[k].farm != f
    ensures score(sorted[i].farm) >= score(f)
  {
    var k :| 0 <= k < |sorted| && sorted[k] == FarmWithScore(f, score(f));
    assert n <= k;
  }

  // ---------------------------------------------------------------------
  // getRecommendationReason

  /** Which sentence explains a recommendation. */
  datatype Reason = SameRegion(prefecture: string) | HighlyRated(avgRating: real) | ManyReviews(count: nat) | ForYou

  /** `getRecommendationReason`, before rendering: a prefecture seen in the
   *  history wins, then a rating of 4.5 or more, then five reviews. */
  function ReasonFor(farm: Farm, recentlyViewed: seq<RV.Item>, ratings: map<int, RatingInfo>): Reason
  {
    var farmPrefecture := ExtractPrefecture(farm.location);
    if farmPrefecture.Some? &&
       exists i :: 0 <= i < |recentlyViewed| && ExtractPrefecture(recentlyViewed[i].farm.location) == farmPrefecture
    then SameRegion(farmPrefecture.value)
    else if farm.id in ratings && ratings[farm.id].avgRating >= 4.5 then HighlyRated(ratings[farm.id].avgRating)
    else if farm.id in ratings && ratings[farm.id].count >= 5 then ManyReviews(ratings[farm.id].count)
    else ForYou
  }

  /** The priority, case by case. */
  lemma ReasonPriority(farm: Farm, recentlyViewed: seq<RV.Item>, ratings: map<int, RatingInfo>)
    ensures var r := ReasonFor(farm, recentlyViewed, ratings);
            && (r.SameRegion? <==>
                  (ExtractPrefecture(farm.location).Some? &&
                   ExtractPrefecture(farm.location).value in Seen(PrefecturesOf(recentlyViewed))))
            && (r.HighlyRated? ==> !r.SameRegion? && farm.id in ratings && ratings[farm.id].avgRating >= 4.5)
            && (r.ManyReviews? ==> farm.id in ratings && ratings[farm.id].avgRating < 4.5 && ratings[farm.id].count >= 5)
            && (r.ForYou? ==> farm.id !in ratings || (ratings[farm.id].avgRating < 4.5 && ratings[farm.id].count < 5))
  {
    var p := ExtractPrefecture(farm.location);
    var ps := PrefecturesOf(recentlyViewed);
    if p.Some? && p.value in Seen(ps) {
      var i :| 0 <= i < |ps| && ps[i].Some? && ps[i].value == p.value;
      assert ExtractPrefecture(recentlyViewed[i].farm.location) == p;
    }
  }

  /** `Number.prototype.toFixed(1)` rounds the magnitude of its number to
   *  the nearest tenth, a tie going up, and puts the sign back in front. */
  function RoundedTenths(x: real): (n: nat)
    requires x >= 0.0
    ensures n as real / 10.0 - 0.05 <= x < n as real / 10.0 + 0.05
  {
    (x * 10.0 + 0.5).Floor
  }

  function ToFixed1(x: real): string
  {
    var n := RoundedTenths(if x < 0.0 then -x else x);
    var digits := NatToString(n / 10) + "." + [DigitChar(n % 10)];
    if x < 0.0 then "-" + digits else digits
  }

  /** The sentence shown. */
  function ReasonText(r: Reason): string
  {
    match r
    case SameRegion(p) => p + "の農園に興味がありそうですね"
    case HighlyRated(avg) => "評価 " + ToFixed1(avg) + " の人気農園"
    case ManyReviews(count) => IntToString(count) + "件のレビューで高評価"
    case ForYou => "あなたにおすすめ"
  }

  /** The rendered number has one digit after the point, and a minus sign
   *  exactly when it is negative, in front of the rendering of its
   *  magnitude (so a small negative number gives "-0.0"). */
  lemma ToFixed1Shape(x: real)
    ensures var s := ToFixed1(x);
            && |s| >= 3 && s[|s| - 2] == '.' && IsDigit(s[|s| - 1])
            && (s[0] == '-' <==> x < 0.0)
            && (x < 0.0 ==> s[1..] == ToFixed1(-x))
  {
    var s := ToFixed1(x);
    var n := RoundedTenths(if x < 0.0 then -x else x);
    var digits := NatToString(n / 10) + "." + [DigitChar(n % 10)];
    assert digits[0] == NatToString(n / 10)[0];
    if x < 0.0 {
      assert s == "-" + digits;
      assert s[1..] == digits;
    } else {
      assert s == digits;
    }
  }
}
