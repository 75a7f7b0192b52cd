/**
 * Planning of (category, year) slots: `count` questions are spread over
 * four categories, the remainder going to the earliest categories, and the
 * j-th slot of a category asks about the year 2024 - j * step, where the
 * step grows with the difficulty.
 */
module Slots {

  /** One planned question: its category, its target year and its index j within the category. */
  datatype Slot = Slot(category: string, year: int, rank: nat)

  const StartYear: int := 2024
  /** Bitcoin's creation: the generative adapter drops slots before this year. */
  const EpochYear: int := 2009

  function Min(a: int, b: int): int {
    if a <= b then a else b
  }

  /** Number of questions assigned to category `i` of four. */
  function Share(count: nat, i: nat): nat {
    count / 4 + (if i < count % 4 then 1 else 0)
  }

  /** The four shares add up to `count`. */
  lemma ShareSum(count: nat)
    ensures Share(count, 0) + Share(count, 1) + Share(count, 2) + Share(count, 3) == count
  {
  }

  /** Shares differ by at most one, and an earlier category never gets fewer. */
  lemma ShareBalanced(count: nat, i: nat, k: nat)
    requires i <= k < 4
    ensures Share(count, k) <= Share(count, i) <= Share(count, k) + 1
  {
  }

  /** Years between consecutive slots of a category: 1 for "easy", 2 for "medium", 3 otherwise. */
  function YearStep(difficulty: string): (step: nat)
    ensures 1 <= step <= 3
    ensures difficulty == "easy" <==> step == 1
    ensures difficulty == "medium" <==> step == 2
  {
    if difficulty == "easy" then 1 else if difficulty == "medium" then 2 else 3
  }

  /** The first `n` slots of `category`: slot j targets StartYear - j * step. */
  function CategorySlots(category: string, n: nat, step: nat): (s: seq<Slot>)
    ensures |s| == n
  {
    if n == 0 then [] else CategorySlots(category, n - 1, step) + [Slot(category, StartYear - (n - 1) * step, n - 1)]
  }

  /** Slot j of a category has rank j and targets StartYear - j * step. */
  lemma {:induction false} CategorySlotsAt(category: string, n: nat, step: nat)
    ensures forall j :: 0 <= j < n ==> CategorySlots(category, n, step)[j] == Slot(category, StartYear - j * step, j)
  {
    if n > 0 {
      CategorySlotsAt(category, n - 1, step);
      var prev := CategorySlots(category, n - 1, step);
      assert CategorySlots(category, n, step) == prev + [Slot(category, StartYear - (n - 1) * step, n - 1)];
    }
  }

  /** Within a category the target years strictly decrease. */
  lemma CategoryYearsDecrease(category: string, n: nat, step: nat, a: nat, b: nat)
    requires step >= 1 && a < b < n
    ensures CategorySlots(category, n, step)[a].year > CategorySlots(category, n, step)[b].year
  {
    var s := CategorySlots(category, n, step);
    CategorySlotsAt(category, n, step);
    assert s[a].year - s[b].year == (b - a) * step;
    ProductPositive(b - a, step);
  }

  lemma ProductPositive(x: int, y: int)
    requires x >= 1 && y >= 1
    ensures x * y >= 1
  {
  }

  /** The slots of the first `k` categories, category by category. */
  function PlanOver(categories: seq<string>, count: nat, step: nat, k: nat): seq<Slot>
    requires k <= |categories|
  {
    if k == 0 then []
    else PlanOver(categories, count, step, k - 1) + CategorySlots(categories[k - 1], Share(count, k - 1), step)
  }

  /** The full plan over four categories, before any year filter. */
  function FullPlan(categories: seq<string>, count: nat, step: nat): seq<Slot>
    requires |categories| == 4
  {
    PlanOver(categories, count, step, 4)
  }

  /** The slots whose year is not before the epoch, in order. */
  function InEpoch(plan: seq<Slot>): (kept: seq<Slot>)
    ensures |kept| <= |plan|
    ensures forall s :: s in kept ==> s in plan && s.year >= EpochYear
  {
    if plan == [] then []
    else InEpoch(plan[..|plan| - 1]) + (if plan[|plan| - 1].year >= EpochYear then [plan[|plan| - 1]] else [])
  }

  /** Filtering a plan extended by one slot keeps that slot exactly when it is within the epoch. */
  lemma InEpochSnoc(plan: seq<Slot>, slot: Slot)
    ensures InEpoch(plan + [slot]) == InEpoch(plan) + (if slot.year >= EpochYear then [slot] else [])
  {
    assert (plan + [slot])[..|plan|] == plan;
  }

  /** One more slot of a category is kept by the filter exactly when its year is not before the epoch. */
  lemma CategoryEpochStep(category: string, j: nat, step: nat)
    ensures InEpoch(CategorySlots(category, j + 1, step)) ==
      InEpoch(CategorySlots(category, j, step)) +
      (if StartYear - j * step >= EpochYear then [Slot(category, StartYear - j * step, j)] else [])
  {
    InEpochSnoc(CategorySlots(category, j, step), Slot(category, StartYear - j * step, j));
  }

  lemma {:induction false} InEpochAppend(a: seq<Slot>, b: seq<Slot>)
    ensures InEpoch(a + b) == InEpoch(a) + InEpoch(b)
    decreases |b|
  {
    if b == [] {
      assert a + b == a;
    } else {
      var last := b[|b| - 1];
      assert (a + b)[..|a + b| - 1] == a + b[..|b| - 1];
      InEpochAppend(a, b[..|b| - 1]);
    }
  }

  /** Number of slots of the first `k` categories. */
  function ShareTotal(count: nat, k: nat): nat {
    if k == 0 then 0 else ShareTotal(count, k - 1) + Share(count, k - 1)
  }

  /** Categories listed without repetition. */
  predicate DistinctCategories(categories: seq<string>) {
    forall a, b :: 0 <= a < b < |categories| ==> categories[a] != categories[b]
  }

  /**
   * The plan over the first `k` categories has one slot per share, every
   * slot names a listed category and targets StartYear - rank * step, and
   * no slot is planned twice.
   */
  lemma {:induction false} PlanOverShape(categories: seq<string>, count: nat, step: nat, k: nat)
    requires k <= |categories| && DistinctCategories(categories)
    ensures |PlanOver(categories, count, step, k)| == ShareTotal(count, k)
    ensures forall s :: s in PlanOver(categories, count, step, k) ==>
      s.category in categories[..k] && s.year == StartYear - s.rank * step
    ensures forall a, b :: 0 <= a < b < |PlanOver(categories, count, step, k)| ==>
      PlanOver(categories, count, step, k)[a] != PlanOver(categories, count, step, k)[b]
  {
    if k > 0 {
      PlanOverShape(categories, count, step, k - 1);
      var p := PlanOver(categories, count, step, k - 1);
      var c := CategorySlots(categories[k - 1], Share(count, k - 1), step);
      CategorySlotsAt(categories[k - 1], Share(count, k - 1), step);
      var plan := p + c;
      assert categories[..k] == categories[..k - 1] + [categories[k - 1]];
      assert categories[k - 1] !in categories[..k - 1];
      forall a, b | 0 <= a < b < |plan| ensures plan[a] != plan[b] {
        if b < |p| {
          assert plan[a] == p[a] && plan[b] == p[b];
        } else if a >= |p| {
          assert plan[a] == c[a - |p|] && plan[b] == c[b - |p|];
        } else {
          assert plan[a] == p[a] && plan[a] in p;
          assert plan[b] == c[b - |p|];
        }
      }
    }
  }

  /** The full plan has exactly `count` slots, each unique, with its year fixed by its rank. */
  lemma FullPlanShape(categories: seq<string>, count: nat, step: nat)
    requires |categories| == 4 && DistinctCategories(categories)
    ensures |FullPlan(categories, count, step)| == count
    ensures forall s :: s in FullPlan(categories, count, step) ==>
      s.category in categories && s.year == StartYear - s.rank * step
    ensures forall a, b :: 0 <= a < b < |FullPlan(categories, count, step)| ==>
      FullPlan(categories, count, step)[a] != FullPlan(categories, count, step)[b]
  {
    PlanOverShape(categories, count, step, 4);
    ShareSum(count);
    assert ShareTotal(count, 1) == Share(count, 0);
    assert ShareTotal(count, 2) == Share(count, 0) + Share(count, 1);
    assert ShareTotal(count, 3) == Share(count, 0) + Share(count, 1) + Share(count, 2);
    assert ShareTotal(count, 4) == Share(count, 0) + Share(count, 1) + Share(count, 2) + Share(count, 3);
    assert categories[..4] == categories;
  }

  /** Slot j of a category at this step is not before the epoch. */
  predicate Kept(j: nat, step: nat) {
    StartYear - j * step >= EpochYear
  }

  /** When exactly the first `keep` ranks are kept, the filter keeps the first min(n, keep) slots. */
  lemma {:induction false} KeepsPrefix(category: string, n: nat, step: nat, keep: nat)
    requires forall j: nat :: Kept(j, step) <==> j < keep
    ensures InEpoch(CategorySlots(category, n, step)) == CategorySlots(category, Min(n, keep), step)
  {
    if n > 0 {
      var prev := CategorySlots(category, n - 1, step);
      var last := Slot(category, StartYear - (n - 1) * step, n - 1);
      assert CategorySlots(category, n, step) == prev + [last];
      InEpochSnoc(prev, last);
      KeepsPrefix(category, n - 1, step, keep);
      MinStep(n, keep, Kept(n - 1, step));
    }
  }

  /**
   * With the epoch filter a category keeps exactly its first
   * min(n, 15 / step + 1) slots: the filter cuts a suffix, never a middle.
   */
  lemma EpochKeepsPrefix(category: string, n: nat, step: nat)
    requires 1 <= step <= 3
    ensures InEpoch(CategorySlots(category, n, step)) == CategorySlots(category, Min(n, 15 / step + 1), step)
  {
    forall j: nat ensures Kept(j, step) <==> j < 15 / step + 1 {
      EpochCutoff(j, step);
    }
    KeepsPrefix(category, n, step, 15 / step + 1);
  }

  /** Raising n by one raises Min(n, keep) by one while n - 1 is below keep, and leaves it at keep after. */
  lemma MinStep(n: nat, keep: int, within: bool)
    requires n > 0 && (within <==> n - 1 < keep)
    ensures within ==> Min(n, keep) == n && Min(n - 1, keep) == n - 1
    ensures !within ==> Min(n, keep) == keep && Min(n - 1, keep) == keep
  {
  }

  /** Slot j is within the epoch exactly when j <= 15 / step. */
  lemma EpochCutoff(j: nat, step: nat)
    requires 1 <= step <= 3
    ensures StartYear - j * step >= EpochYear <==> j < 15 / step + 1
  {
    if step == 1 {
      assert j * step == j;
    } else if step == 2 {
      assert j * step == 2 * j;
    } else {
      assert j * step == 3 * j;
    }
  }

  /** After the epoch filter the plan has at most `count` slots, all within [EpochYear, StartYear]. */
  lemma EpochPlanBounds(categories: seq<string>, count: nat, step: nat)
    requires |categories| == 4 && DistinctCategories(categories)
    ensures |InEpoch(FullPlan(categories, count, step))| <= count
    ensures forall s :: s in InEpoch(FullPlan(categories, count, step)) ==>
      s.category in categories && EpochYear <= s.year <= StartYear
  {
    FullPlanShape(categories, count, step);
    forall s | s in FullPlan(categories, count, step) ensures s.year <= StartYear {
      assert s.rank * step >= 0;
    }
  }

  /** The full plan is the four categories' slot lists, one after the other. */
  lemma FullPlanBlocks(categories: seq<string>, count: nat, step: nat)
    requires |categories| == 4
    ensures FullPlan(categories, count, step) ==
      CategorySlots(categories[0], Share(count, 0), step) + CategorySlots(categories[1], Share(count, 1), step) +
      CategorySlots(categories[2], Share(count, 2), step) + CategorySlots(categories[3], Share(count, 3), step)
  {
    var c0 := CategorySlots(categories[0], Share(count, 0), step);
    var c1 := CategorySlots(categories[1], Share(count, 1), step);
    var c2 := CategorySlots(categories[2], Share(count, 2), step);
    assert PlanOver(categories, count, step, 1) == [] + c0 == c0;
    assert PlanOver(categories, count, step, 2) == c0 + c1;
    assert PlanOver(categories, count, step, 3) == c0 + c1 + c2;
  }

  /** Filtering four lists one after the other filters each. */
  lemma InEpochFour(c0: seq<Slot>, c1: seq<Slot>, c2: seq<Slot>, c3: seq<Slot>)
    ensures InEpoch(c0 + c1 + c2 + c3) == InEpoch(c0) + InEpoch(c1) + InEpoch(c2) + InEpoch(c3)
  {
    InEpochAppend(c0 + c1 + c2, c3);
    InEpochAppend(c0 + c1, c2);
    InEpochAppend(c0, c1);
  }

  /**
   * After the epoch filter category i keeps min(Share(count, i), 15 / step + 1)
   * slots, so the filtered plan's length is the sum of those.
   */
  lemma EpochPlanLength(categories: seq<string>, count: nat, step: nat)
    requires |categories| == 4 && 1 <= step <= 3
    ensures |InEpoch(FullPlan(categories, count, step))| ==
      Min(Share(count, 0), 15 / step + 1) + Min(Share(count, 1), 15 / step + 1) +
      Min(Share(count, 2), 15 / step + 1) + Min(Share(count, 3), 15 / step + 1)
  {
    var c0 := CategorySlots(categories[0], Share(count, 0), step);
    var c1 := CategorySlots(categories[1], Share(count, 1), step);
    var c2 := CategorySlots(categories[2], Share(count, 2), step);
    var c3 := CategorySlots(categories[3], Share(count, 3), step);
    FullPlanBlocks(categories, count, step);
    InEpochFour(c0, c1, c2, c3);
    EpochKeepsPrefix(categories[0], Share(count, 0), step);
    EpochKeepsPrefix(categories[1], Share(count, 1), step);
    EpochKeepsPrefix(categories[2], Share(count, 2), step);
    EpochKeepsPrefix(categories[3], Share(count, 3), step);
  }

  /** A backup plan for `n` questions: slot i takes category i mod 4, rank i and a year in [EpochYear, StartYear). */
  predicate IsBackupPlan(plan: seq<Slot>, categories: seq<string>, n: nat) {
    |categories| == 4 && |plan| == n &&
    forall i :: 0 <= i < n ==>
      plan[i].category == categories[i % 4] && plan[i].rank == i && EpochYear <= plan[i].year < StartYear
  }
}
