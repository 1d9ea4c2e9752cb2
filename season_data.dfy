/** The seasonal produce calendar: a fixed table of produce, the months
 *  each is in season, and the month filters the calendar page uses. */
module SeasonData {
  import opened Base

  datatype Category = Fruit | Vegetable | Flower

  /** A produce kind: display name, title keywords, icon, category and the
   *  months (1 to 12) it is in season. */
  datatype ProduceItem = ProduceItem(id: string, name: string, keywords: seq<string>, emoji: string,
                                     category: Category, months: seq<int>)

  const PRODUCE_ITEMS: seq<ProduceItem> := [
    ProduceItem("strawberry", "いちご", ["いちご", "イチゴ", "苺", "ストロベリー"], "🍓", Fruit, [12, 1, 2, 3, 4, 5]),
    ProduceItem("cherry", "さくらんぼ", ["さくらんぼ", "サクランボ", "チェリー"], "🍒", Fruit, [5, 6, 7]),
    ProduceItem("peach", "桃", ["桃", "もも", "ピーチ"], "🍑", Fruit, [6, 7, 8]),
    ProduceItem("grape", "ぶどう", ["ぶどう", "ブドウ", "葡萄", "マスカット", "シャインマスカット", "巨峰"], "🍇", Fruit, [7, 8, 9, 10]),
    ProduceItem("pear", "梨", ["梨", "なし", "ナシ"], "🍐", Fruit, [8, 9, 10]),
    ProduceItem("apple", "りんご", ["りんご", "リンゴ", "林檎", "アップル"], "🍎", Fruit, [9, 10, 11, 12]),
    ProduceItem("mikan", "みかん", ["みかん", "ミカン", "蜜柑", "オレンジ", "柑橘"], "🍊", Fruit, [10, 11, 12, 1, 2]),
    ProduceItem("blueberry", "ブルーベリー", ["ブルーベリー"], "🫐", Fruit, [6, 7, 8]),
    ProduceItem("mango", "マンゴー", ["マンゴー"], "🥭", Fruit, [5, 6, 7, 8]),
    ProduceItem("pineapple", "パイナップル", ["パイナップル", "パイン"], "🍍", Fruit, [4, 5, 6, 7]),
    ProduceItem("melon", "メロン", ["メロン"], "🍈", Fruit, [5, 6, 7, 8]),
    ProduceItem("watermelon", "スイカ", ["スイカ", "すいか", "西瓜"], "🍉", Fruit, [6, 7, 8]),
    ProduceItem("tomato", "トマト", ["トマト", "とまと", "ミニトマト"], "🍅", Vegetable, [6, 7, 8, 9]),
    ProduceItem("corn", "とうもろこし", ["とうもろこし", "トウモロコシ", "コーン"], "🌽", Vegetable, [6, 7, 8, 9]),
    ProduceItem("potato", "じゃがいも", ["じゃがいも", "ジャガイモ", "ポテト"], "🥔", Vegetable, [5, 6, 7, 9, 10, 11]),
    ProduceItem("sweetpotato", "さつまいも", ["さつまいも", "サツマイモ", "芋掘り"], "🍠", Vegetable, [9, 10, 11]),
    ProduceItem("carrot", "にんじん", ["にんじん", "ニンジン", "人参"], "🥕", Vegetable, [4, 5, 6, 7, 10, 11, 12]),
    ProduceItem("daikon", "大根", ["大根", "だいこん", "ダイコン"], "🥬", Vegetable, [10, 11, 12, 1, 2]),
    ProduceItem("eggplant", "なす", ["なす", "ナス", "茄子"], "🍆", Vegetable, [6, 7, 8, 9, 10]),
    ProduceItem("cucumber", "きゅうり", ["きゅうり", "キュウリ", "胡瓜"], "🥒", Vegetable, [5, 6, 7, 8, 9]),
    ProduceItem("pumpkin", "かぼちゃ", ["かぼちゃ", "カボチャ", "南瓜"], "🎃", Vegetable, [7, 8, 9, 10, 11, 12]),
    ProduceItem("sunflower", "ひまわり", ["ひまわり", "ヒマワリ", "向日葵"], "🌻", Flower, [7, 8, 9]),
    ProduceItem("tulip", "チューリップ", ["チューリップ"], "🌷", Flower, [3, 4, 5]),
    ProduceItem("sakura", "桜", ["桜", "さくら", "サクラ"], "🌸", Flower, [3, 4]),
    ProduceItem("rose", "バラ", ["バラ", "ばら", "薔薇", "ローズ"], "🌹", Flower, [5, 6, 10, 11]),
    ProduceItem("cosmos", "コスモス", ["コスモス", "秋桜"], "🌼", Flower, [9, 10, 11]),
    ProduceItem("lavender", "ラベンダー", ["ラベンダー"], "💜", Flower, [6, 7, 8])
  ]

  const MONTH_NAMES: seq<string> := ["1月", "2月", "3月", "4月", "5月", "6月", "7月", "8月", "9月", "10月", "11月", "12月"]

  /** The row of the table whose id has the length and first two letters
   *  of `id` (no two ids share all three), or -1. */
  function RowOf(id: string): int
  {
    if |id| < 2 then -1
    else if |id| == 10 && id[0] == 's' && id[1] == 't' then 0
    else if |id| == 6 && id[0] == 'c' && id[1] == 'h' then 1
    else if |id| == 5 && id[0] == 'p' && id[1] == 'e' then 2
    else if |id| == 5 && id[0] == 'g' && id[1] == 'r' then 3
    else if |id| == 4 && id[0] == 'p' && id[1] == 'e' then 4
    else if |id| == 5 && id[0] == 'a' && id[1] == 'p' then 5
    else if |id| == 5 && id[0] == 'm' && id[1] == 'i' then 6
    else if |id| == 9 && id[0] == 'b' && id[1] == 'l' then 7
    else if |id| == 5 && id[0] == 'm' && id[1] == 'a' then 8
    else if |id| == 9 && id[0] == 'p' && id[1] == 'i' then 9
    else if |id| == 5 && id[0] == 'm' && id[1] == 'e' then 10
    else if |id| == 10 && id[0] == 'w' && id[1] == 'a' then 11
    else if |id| == 6 && id[0] == 't' && id[1] == 'o' then 12
    else if |id| == 4 && id[0] == 'c' && id[1] == 'o' then 13
    else if |id| == 6 && id[0] == 'p' && id[1] == 'o' then 14
    else if |id| == 11 && id[0] == 's' && id[1] == 'w' then 15
    else if |id| == 6 && id[0] == 'c' && id[1] == 'a' then 16
    else if |id| == 6 && id[0] == 'd' && id[1] == 'a' then 17
    else if |id| == 8 && id[0] == 'e' && id[1] == 'g' then 18
    else if |id| == 8 && id[0] == 'c' && id[1] == 'u' then 19
    else if |id| == 7 && id[0] == 'p' && id[1] == 'u' then 20
    else if |id| == 9 && id[0] == 's' && id[1] == 'u' then 21
    else if |id| == 5 && id[0] == 't' && id[1] == 'u' then 22
    else if |id| == 6 && id[0] == 's' && id[1] == 'a' then 23
    else if |id| == 4 && id[0] == 'r' && id[1] == 'o' then 24
    else if |id| == 6 && id[0] == 'c' && id[1] == 'o' then 25
    else if |id| == 8 && id[0] == 'l' && id[1] == 'a' then 26
    else -1
  }

  /** Each id sits in its own row. */
  lemma RowOfId(k: nat)
    requires k < |PRODUCE_ITEMS|
    ensures RowOf(PRODUCE_ITEMS[k].id) == k
  {
  }

  /** No two rows share an id. */
  lemma IdsDistinct(i: nat, j: nat)
    requires i < |PRODUCE_ITEMS| && j < |PRODUCE_ITEMS| && PRODUCE_ITEMS[i].id == PRODUCE_ITEMS[j].id
    ensures i == j
  {
    RowOfId(i);
    RowOfId(j);
  }

  /** Every month in the table is a calendar month. */
  lemma MonthsInRange(k: nat)
    requires k < |PRODUCE_ITEMS|
    ensures forall m :: m in PRODUCE_ITEMS[k].months ==> 1 <= m <= 12
  {
    if k < 7 {
    } else if k < 14 {
    } else if k < 21 {
    } else {
    }
  }

  /** `MONTH_NAMES[i]` is the month number followed by 月. */
  lemma MonthNamesNumbered(i: nat)
    requires i < 12
    ensures |MONTH_NAMES| == 12 && MONTH_NAMES[i] == IntToString(i + 1) + "月"
  {
  }

  /** `items.filter(item => item.months.includes(month))` */
  function InSeason(items: seq<ProduceItem>, month: int): (r: seq<ProduceItem>)
    ensures forall x :: x in r <==> x in items && month in x.months
    ensures |r| <= |items|
  {
    if |items| == 0 then []
    else (if month in items[0].months then [items[0]] else []) + InSeason(items[1..], month)
  }

  /** `getProduceByMonth` */
  function ProduceByMonth(month: int): (r: seq<ProduceItem>)
    ensures forall x :: x in r <==> x in PRODUCE_ITEMS && month in x.months
  {
    InSeason(PRODUCE_ITEMS, month)
  }

  /** The filter keeps the input's order: its items sit at strictly
   *  increasing positions of the input, and every in-season position of the
   *  input is one of them. */
  lemma {:induction false} InSeasonPositions(items: seq<ProduceItem>, month: int) returns (pos: seq<nat>)
    ensures |pos| == |InSeason(items, month)|
    ensures forall i :: 0 <= i < |pos| ==> pos[i] < |items| && items[pos[i]] == InSeason(items, month)[i]
    ensures forall i, j :: 0 <= i < j < |pos| ==> pos[i] < pos[j]
    ensures forall k :: 0 <= k < |items| && month in items[k].months ==> k in pos
    decreases |items|
  {
    if |items| == 0 {
      return [];
    }
    var rest := InSeasonPositions(items[1..], month);
    var shifted := ShiftPositions(items, month, InSeason(items[1..], month), rest);
    if month in items[0].months {
      assert InSeason(items, month) == [items[0]] + InSeason(items[1..], month);
      pos := [0] + shifted;
    } else {
      assert InSeason(items, month) == InSeason(items[1..], month);
      pos := shifted;
    }
    FirstPosition(items, month, InSeason(items, month), InSeason(items[1..], month), shifted, pos);
  }

  /** Positions `rest` of the items `r` in `items[1..]`, as positions in
   *  `items`. */
  lemma ShiftPositions(items: seq<ProduceItem>, month: int, r: seq<ProduceItem>, rest: seq<nat>) returns (shifted: seq<nat>)
    requires |items| > 0
    requires |rest| == |r|
    requires forall i :: 0 <= i < |rest| ==> rest[i] < |items[1..]| && items[1..][rest[i]] == r[i]
    requires forall i, j :: 0 <= i < j < |rest| ==> rest[i] < rest[j]
    requires forall k :: 0 <= k < |items[1..]| && month in items[1..][k].months ==> k in rest
    ensures |shifted| == |rest|
    ensures forall i :: 0 <= i < |shifted| ==> 0 < shifted[i] < |items| && items[shifted[i]] == r[i]
    ensures forall i, j :: 0 <= i < j < |shifted| ==> shifted[i] < shifted[j]
    ensures forall k :: 0 < k < |items| && month in items[k].months ==> k in shifted
  {
    var tail := items[1..];
    shifted := seq(|rest|, i requires 0 <= i < |rest| => rest[i] + 1);
    forall i | 0 <= i < |shifted|
      ensures 0 < shifted[i] < |items| && items[shifted[i]] == r[i]
    {
      assert items[rest[i] + 1] == tail[rest[i]];
    }
    forall k | 0 < k < |items| && month in items[k].months
      ensures k in shifted
    {
      assert tail[k - 1] == items[k];
      var i :| 0 <= i < |rest| && rest[i] == k - 1;
      assert shifted[i] == k;
    }
  }

  /** The first item joins the positions of the rest when it is in season. */
  lemma FirstPosition(items: seq<ProduceItem>, month: int, r: seq<ProduceItem>, r': seq<ProduceItem>,
                      shifted: seq<nat>, pos: seq<nat>)
    requires |items| > 0
    requires month in items[0].months ==> r == [items[0]] + r' && pos == [0] + shifted
    requires month !in items[0].months ==> r == r' && pos == shifted
    requires |shifted| == |r'|
    requires forall i :: 0 <= i < |shifted| ==> 0 < shifted[i] < |items| && items[shifted[i]] == r'[i]
    requires forall i, j :: 0 <= i < j < |shifted| ==> shifted[i] < shifted[j]
    requires forall k :: 0 < k < |items| && month in items[k].months ==> k in shifted
    ensures |pos| == |r|
    ensures forall i :: 0 <= i < |pos| ==> pos[i] < |items| && items[pos[i]] == r[i]
    ensures forall i, j :: 0 <= i < j < |pos| ==> pos[i] < pos[j]
    ensures forall k :: 0 <= k < |items| && month in items[k].months ==> k in pos
  {
    if month in items[0].months {
      forall i, j | 0 <= i < j < |pos|
        ensures pos[i] < pos[j]
      {
        assert pos[j] == shifted[j - 1] > 0;
        if i > 0 {
          assert pos[i] == shifted[i - 1];
        }
      }
      forall k | 0 < k < |items| && month in items[k].months
        ensures k in pos
      {
        assert k in shifted;
      }
    }
  }

  /** `getProduceByMonth` lists exactly the month's rows of the table, in
   *  table order. */
  lemma ProduceByMonthInTableOrder(month: int) returns (rows: seq<nat>)
    ensures |rows| == |ProduceByMonth(month)|
    ensures forall i :: 0 <= i < |rows| ==> rows[i] < |PRODUCE_ITEMS| && PRODUCE_ITEMS[rows[i]] == ProduceByMonth(month)[i]
    ensures forall i, j :: 0 <= i < j < |rows| ==> rows[i] < rows[j]
    ensures forall k :: 0 <= k < |PRODUCE_ITEMS| && month in PRODUCE_ITEMS[k].months ==> k in rows
  {
    rows := InSeasonPositions(PRODUCE_ITEMS, month);
  }

  /** `items.filter(item => item.months.includes(month) && item.category === category)` */
  function InSeasonOf(items: seq<ProduceItem>, month: int, category: Category): (r: seq<ProduceItem>)
  {
    if |items| == 0 then []
    else (if month in items[0].months && items[0].category == category then [items[0]] else []) +
         InSeasonOf(items[1..], month, category)
  }

  /** `getProduceByMonthAndCategory` */
  function ProduceByMonthAndCategory(month: int, category: Category): seq<ProduceItem>
  {
    InSeasonOf(PRODUCE_ITEMS, month, category)
  }

  /** `items.filter(item => item.category === category)` */
  function OfCategory(items: seq<ProduceItem>, category: Category): seq<ProduceItem>
  {
    if |items| == 0 then []
    else (if items[0].category == category then [items[0]] else []) + OfCategory(items[1..], category)
  }

  /** Filtering by month and category in one pass is filtering the month's
   *  produce by category, table order included. */
  lemma {:induction false} InSeasonOfIsFiltered(items: seq<ProduceItem>, month: int, category: Category)
    ensures InSeasonOf(items, month, category) == OfCategory(InSeason(items, month), category)
  {
    if |items| > 0 {
      InSeasonOfIsFiltered(items[1..], month, category);
      if month in items[0].months {
        assert InSeason(items, month) == [items[0]] + InSeason(items[1..], month);
        assert InSeason(items, month)[1..] == InSeason(items[1..], month);
      } else {
        assert InSeason(items, month) == InSeason(items[1..], month);
      }
    }
  }

  lemma ProduceByMonthAndCategoryIsFiltered(month: int, category: Category)
    ensures ProduceByMonthAndCategory(month, category) == OfCategory(ProduceByMonth(month), category)
  {
    InSeasonOfIsFiltered(PRODUCE_ITEMS, month, category);
  }

  /** Outside 1..12 nothing is in season. */
  lemma NoProduceOutsideCalendar(month: int)
    requires month < 1 || month > 12
    ensures ProduceByMonth(month) == []
  {
    if ProduceByMonth(month) != [] {
      var x := ProduceByMonth(month)[0];
      assert x in ProduceByMonth(month);
      var k :| 0 <= k < |PRODUCE_ITEMS| && PRODUCE_ITEMS[k] == x;
      MonthsInRange(k);
    }
  }

  /** `getCurrentMonth`: `Date.getMonth()` counts from 0. */
  function CurrentMonth(zeroBasedMonth: int): (m: int)
    requires 0 <= zeroBasedMonth <= 11
    ensures 1 <= m <= 12
  {
    zeroBasedMonth + 1
  }
}
