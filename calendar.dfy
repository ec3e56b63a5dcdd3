/** The activity ledger and the `CookingCalendar` view over it (in
  * `components/dashboard.tsx`): intensity buckets, the 52-week grid and the
  * two totals. Calendar dates are day numbers; `today` and the grid's first
  * day are inputs. */
module Calendar {

  /** A calendar date as a count of days; consecutive dates differ by one. */
  type Day = int

  /** `cookingHistory`: recipes cooked per date. */
  type Ledger = map<Day, int>

  predicate NonNegative(ledger: Ledger) {
    forall d :: d in ledger ==> ledger[d] >= 0
  }

  /** `cookingHistory[dateStr] || 0`: a date missing from the ledger reads
    * as no cooking at all. */
  function CountOn(ledger: Ledger, day: Day): (n: int)
    ensures n != 0 ==> day in ledger
    ensures NonNegative(ledger) ==> n >= 0
  {
    if day in ledger then ledger[day] else 0
  }

  // ---------------------------------------------------------------- buckets

  /** The colour class of a cell. */
  datatype Intensity = Future | Idle | Low | Medium | High

  /** How many recipes a bucket stands for, capped at three. */
  function Rank(i: Intensity): nat {
    match i
    case Future => 0
    case Idle => 0
    case Low => 1
    case Medium => 2
    case High => 3
  }

  /** The intensity of a past or present day cooked on `count` times: the
    * bucket's rank is the count clamped to `[0, 3]`. */
  function Bucket(count: int): (r: Intensity)
    ensures r != Future
    ensures Rank(r) == if count <= 0 then 0 else if count >= 3 then 3 else count
  {
    if count == 1 then Low
    else if count == 2 then Medium
    else if count >= 3 then High
    else Idle
  }

  /** More cooking never gives a lighter cell. */
  lemma BucketMonotone(a: int, b: int)
    requires a <= b
    ensures Rank(Bucket(a)) <= Rank(Bucket(b))
  {
  }

  /** The cell for `day`: `future` after today whatever the ledger says,
    * otherwise the bucket of that day's count. */
  function Classify(ledger: Ledger, today: Day, day: Day): (r: Intensity)
    ensures r == Future <==> day > today
    ensures day <= today ==> Rank(r) == Rank(Bucket(CountOn(ledger, day)))
  {
    if day > today then Future else Bucket(CountOn(ledger, day))
  }

  /** A cell depends only on its own day's count, and a future cell on
    * nothing in the ledger at all. */
  lemma ClassifyIsLocal(a: Ledger, b: Ledger, today: Day, day: Day)
    requires day > today || CountOn(a, day) == CountOn(b, day)
    ensures Classify(a, today, day) == Classify(b, today, day)
  {
  }

  // ---------------------------------------------------------------- grid

  datatype Cell = Cell(day: Day, intensity: Intensity)

  /** The cell in week `w`, weekday `d` of the grid that starts at `start`. */
  function CellAt(ledger: Ledger, today: Day, start: Day, w: nat, d: nat): (c: Cell)
    ensures c.day == start + 7 * w + d
  {
    var day := start + 7 * w + d;
    Cell(day, Classify(ledger, today, day))
  }

  /** The nested loops of `CookingCalendar`: 52 weeks of 7 cells, dated one
    * day apart from `start` on. */
  method BuildGrid(ledger: Ledger, today: Day, start: Day) returns (weeks: seq<seq<Cell>>)
    ensures |weeks| == 52
    ensures forall w :: 0 <= w < 52 ==> |weeks[w]| == 7
    ensures forall w, d :: 0 <= w < 52 && 0 <= d < 7 ==>
              weeks[w][d] == CellAt(ledger, today, start, w, d)
  {
    weeks := [];
    var week := 0;
    while week < 52
      invariant 0 <= week <= 52 && |weeks| == week
      invariant forall w :: 0 <= w < week ==> |weeks[w]| == 7
      invariant forall w, d :: 0 <= w < week && 0 <= d < 7 ==>
                  weeks[w][d] == CellAt(ledger, today, start, w, d)
    {
      var weekDays: seq<Cell> := [];
      var day := 0;
      while day < 7
        invariant 0 <= day <= 7 && |weekDays| == day
        invariant forall d :: 0 <= d < day ==> weekDays[d] == CellAt(ledger, today, start, week, d)
      {
        var currentDate := start + week * 7 + day;
        if currentDate > today {
          weekDays := weekDays + [Cell(currentDate, Future)];
        } else {
          var cookCount := CountOn(ledger, currentDate);
          var intensity := Idle;
          if cookCount == 1 {
            intensity := Low;
          } else if cookCount == 2 {
            intensity := Medium;
          } else if cookCount >= 3 {
            intensity := High;
          }
          weekDays := weekDays + [Cell(currentDate, intensity)];
        }
        day := day + 1;
      }
      weeks := weeks + [weekDays];
      week := week + 1;
    }
  }

  /** The grid's cells run through `start .. start + 363`, each day once, in
    * week-major order. */
  lemma GridDays(ledger: Ledger, today: Day, start: Day, w: nat, d: nat, w': nat, d': nat)
    requires w < 52 && d < 7 && w' < 52 && d' < 7
    ensures start <= CellAt(ledger, today, start, w, d).day <= start + 363
    ensures (w, d) != (w', d') ==>
              CellAt(ledger, today, start, w, d).day != CellAt(ledger, today, start, w', d').day
    ensures w < w' || (w == w' && d < d') ==>
              CellAt(ledger, today, start, w, d).day < CellAt(ledger, today, start, w', d').day
  {
  }

  /** The grid starts on the same date a year back, 365 or 366 days before
    * today, so its last cell (start + 363) lies at least two days before
    * today: the `future` branch is never taken, and neither today's nor
    * yesterday's cooking ever shows on the grid. */
  lemma NoFutureCells(ledger: Ledger, today: Day, start: Day, w: nat, d: nat)
    requires 365 <= today - start <= 366
    requires w < 52 && d < 7
    ensures CellAt(ledger, today, start, w, d).day <= today - 2
    ensures CellAt(ledger, today, start, w, d).intensity != Future
  {
  }

  // ---------------------------------------------------------------- totals

  /** Number of dates with a positive count, over the whole ledger. */
  ghost function CookingDays(ledger: Ledger): nat
    decreases |ledger|
  {
    if ledger == map[] then 0
    else
      HasKey(ledger);
      var k :| k in ledger;
      MapRemoveSize(ledger, k);
      (if ledger[k] > 0 then 1 else 0) + CookingDays(ledger - {k})
  }

  /** Sum of all counts, over the whole ledger. */
  ghost function RecipesTotal(ledger: Ledger): int
    decreases |ledger|
  {
    if ledger == map[] then 0
    else
      HasKey(ledger);
      var k :| k in ledger;
      MapRemoveSize(ledger, k);
      ledger[k] + RecipesTotal(ledger - {k})
  }

  /** A non-empty ledger has a date. */
  lemma HasKey(ledger: Ledger)
    requires ledger != map[]
    ensures exists k :: k in ledger
  {
    if forall k :: k !in ledger {
      assert false;
    }
  }

  lemma MapRemoveSize(ledger: Ledger, k: Day)
    requires k in ledger
    ensures |ledger - {k}| == |ledger| - 1
  {
    assert (ledger - {k}).Keys == ledger.Keys - {k};
  }

  /** `CookingDays` does not depend on the order the dates are visited in:
    * any date can be taken out first. */
  lemma {:induction false} CookingDaysRemove(ledger: Ledger, k: Day)
    requires k in ledger
    ensures CookingDays(ledger) == (if ledger[k] > 0 then 1 else 0) + CookingDays(ledger - {k})
    decreases |ledger|
  {
    var j :| j in ledger && CookingDays(ledger) == (if ledger[j] > 0 then 1 else 0) + CookingDays(ledger - {j});
    if j != k {
      MapRemoveSize(ledger, j);
      MapRemoveSize(ledger, k);
      CookingDaysRemove(ledger - {j}, k);
      CookingDaysRemove(ledger - {k}, j);
      assert ledger - {j} - {k} == ledger - {k} - {j};
    }
  }

  /** `RecipesTotal` does not depend on the order the dates are visited in. */
  lemma {:induction false} RecipesTotalRemove(ledger: Ledger, k: Day)
    requires k in ledger
    ensures RecipesTotal(ledger) == ledger[k] + RecipesTotal(ledger - {k})
    decreases |ledger|
  {
    var j :| j in ledger && RecipesTotal(ledger) == ledger[j] + RecipesTotal(ledger - {j});
    if j != k {
      MapRemoveSize(ledger, j);
      MapRemoveSize(ledger, k);
      RecipesTotalRemove(ledger - {j}, k);
      RecipesTotalRemove(ledger - {k}, j);
      assert ledger - {j} - {k} == ledger - {k} - {j};
    }
  }

  /** There are no more cooking days than dates in the ledger, and with no
    * negative counts no more cooking days than recipes. */
  lemma {:induction false} TotalsBounds(ledger: Ledger)
    ensures CookingDays(ledger) <= |ledger|
    ensures NonNegative(ledger) ==> CookingDays(ledger) <= RecipesTotal(ledger)
    decreases |ledger|
  {
    if ledger != map[] {
      HasKey(ledger);
      var k :| k in ledger;
      MapRemoveSize(ledger, k);
      CookingDaysRemove(ledger, k);
      RecipesTotalRemove(ledger, k);
      TotalsBounds(ledger - {k});
    }
  }

  /** The entries of `ledger` whose dates are in `keys`. */
  function Restrict(ledger: Ledger, keys: set<Day>): Ledger {
    map d | d in keys && d in ledger :: ledger[d]
  }

  /** The two totals `CookingCalendar` shows: the `filter(...).length` and
    * the `reduce` over `Object.values(cookingHistory)`. */
  method Totals(ledger: Ledger) returns (totalCookingDays: nat, totalRecipes: int)
    ensures totalCookingDays == CookingDays(ledger)
    ensures totalRecipes == RecipesTotal(ledger)
  {
    totalCookingDays, totalRecipes := 0, 0;
    var rest := ledger.Keys;
    assert Restrict(ledger, rest) == ledger;
    while rest != {}
      invariant rest <= ledger.Keys
      invariant totalCookingDays + CookingDays(Restrict(ledger, rest)) == CookingDays(ledger)
      invariant totalRecipes + RecipesTotal(Restrict(ledger, rest)) == RecipesTotal(ledger)
      decreases rest
    {
      var part := Restrict(ledger, rest);
      assert part.Keys == rest;
      HasKey(part);
      var k :| k in rest;
      CookingDaysRemove(part, k);
      RecipesTotalRemove(part, k);
      assert part - {k} == Restrict(ledger, rest - {k});
      var count := ledger[k];
      if count > 0 {
        totalCookingDays := totalCookingDays + 1;
      }
      totalRecipes := totalRecipes + count;
      rest := rest - {k};
    }
    assert Restrict(ledger, rest) == map[];
  }

  /** Two consecutive dates cooked on three times and once: two cooking
    * days, four recipes, the first cell `high` and the second `low`. */
  lemma TwoDayExample(d: Day)
    ensures var ledger := map[d := 3, d + 1 := 1];
      && CookingDays(ledger) == 2 && RecipesTotal(ledger) == 4
      && Classify(ledger, d + 1, d) == High && Classify(ledger, d + 1, d + 1) == Low
  {
    var ledger := map[d := 3, d + 1 := 1];
    var rest := map[d + 1 := 1];
    assert ledger - {d} == rest;
    assert rest - {d + 1} == map[];
    CookingDaysRemove(ledger, d);
    RecipesTotalRemove(ledger, d);
    CookingDaysRemove(rest, d + 1);
    RecipesTotalRemove(rest, d + 1);
  }

  // ---------------------------------------------------------------- completion

  /** The ledger after a session completes on `day`: that date's count (0 if
    * absent) goes up by one, every other date keeps its count. */
  function Record(ledger: Ledger, day: Day): (r: Ledger)
    ensures r.Keys == ledger.Keys + {day}
    ensures CountOn(r, day) == CountOn(ledger, day) + 1
    ensures forall d :: d != day ==> CountOn(r, d) == CountOn(ledger, d)
    ensures NonNegative(ledger) ==> NonNegative(r)
  {
    ledger[day := CountOn(ledger, day) + 1]
  }

  /** A completion adds exactly one recipe to the total, and one cooking day
    * exactly when that date had none. */
  lemma RecordTotals(ledger: Ledger, day: Day)
    ensures RecipesTotal(Record(ledger, day)) == RecipesTotal(ledger) + 1
    ensures CookingDays(Record(ledger, day)) == CookingDays(ledger) + (if CountOn(ledger, day) == 0 then 1 else 0)
  {
    var r := Record(ledger, day);
    RecipesTotalRemove(r, day);
    CookingDaysRemove(r, day);
    if day in ledger {
      RecipesTotalRemove(ledger, day);
      CookingDaysRemove(ledger, day);
      assert r - {day} == ledger - {day};
    } else {
      assert r - {day} == ledger;
    }
  }

  /** A completion on a past or present day moves its cell up one level,
    * capped at `high`. */
  lemma RecordRaisesCell(ledger: Ledger, today: Day, day: Day)
    requires NonNegative(ledger) && day <= today
    ensures var before := Rank(Classify(ledger, today, day));
            Rank(Classify(Record(ledger, day), today, day)) == if before == 3 then 3 else before + 1
  {
  }
}
