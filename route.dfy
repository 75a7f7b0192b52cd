/**
 * The question-generation endpoint: configuration checks, a cache-first
 * read of stored questions with generation of the shortfall, and the
 * endpoint's own per-slot generator with deterministic ids.
 *
 * The provider is the oracle `ask(n, slot)`: the reply to the n-th provider
 * call of a generation, which asks about `slot` (None: the call threw).
 * `JSON.parse` is the oracle `parse`. The row store is a `TriviaTable`
 * whose query and insert faults are parameters.
 */
module GenerateQuestionsRoute {
  import opened Wrappers
  import opened Text
  import opened Slots
  import opened Questions
  import opened Payload
  import opened Shuffling

  /** The endpoint's own category list, in planning order. */
  const RouteCategories: seq<string> := ["development", "memes-nfts-tokens", "scams-incidents", "crypto-characters"]

  const DefaultCount: nat := 8
  const DefaultDifficulty := "medium"
  const KeyRequired := "Gemini API key is required"
  const ClientRequired := "Supabase client is required"
  const KeyNotConfigured := "Gemini API key not configured on the server"
  const ClientNotConfigured := "Supabase connection not configured on the server"
  const GenerationFailed := "Failed to generate questions"

  lemma RouteCategoriesDistinct()
    ensures |RouteCategories| == 4 && DistinctCategories(RouteCategories)
  {
  }

  /** The stored difficulty a request maps to: "easy" and "hard" as given, anything else "medium". */
  function DifficultyFilter(difficulty: string): (filter: string)
    ensures filter in {"easy", "medium", "hard"}
    ensures filter == "easy" <==> difficulty == "easy"
    ensures filter == "hard" <==> difficulty == "hard"
  {
    if difficulty == "easy" then "easy"
    else if difficulty == "hard" then "hard"
    else "medium"
  }

  // ---------------------------------------------------------------- generator

  /** The fields a valid single-question reply supplies. */
  datatype Draft = Draft(question: string, options: seq<string>, correctAnswer: int)

  predicate ValidDraft(d: Draft) {
    d.question != "" && |d.options| == 4 && 0 <= d.correctAnswer <= 3
  }

  /**
   * The per-slot validation: a JSON object with a non-empty question, four
   * options and an answer index in [0, 3]. Anything else (an array, null, a
   * syntax error, no match) yields nothing; the reply's own category and
   * year are ignored.
   */
  function DraftOf(parsed: Parsed): (d: Option<Draft>)
    ensures d.Some? ==> ValidDraft(d.value)
    ensures d.Some? ==>
      parsed.JsonValue? && parsed.value.Record? &&
      parsed.value.question == Has(d.value.question) && parsed.value.options == Has(d.value.options) &&
      parsed.value.correctAnswer == Has(d.value.correctAnswer)
  {
    if parsed.JsonValue? && parsed.value.Record? &&
       parsed.value.question.Has? && parsed.value.question.value != "" &&
       parsed.value.options.Has? && |parsed.value.options.value| == 4 &&
       parsed.value.correctAnswer.Has? && 0 <= parsed.value.correctAnswer.value <= 3
    then Some(Draft(parsed.value.question.value, parsed.value.options.value, parsed.value.correctAnswer.value))
    else None
  }

  /** A reply object carrying a draft's fields is accepted exactly when the draft is valid, whatever else it carries. */
  lemma DraftAcceptance(d: Draft, category: Field<string>, year: Field<int>)
    ensures DraftOf(JsonValue(Record(Has(d.question), Has(d.options), Has(d.correctAnswer), category, year))) ==
      (if ValidDraft(d) then Some(d) else None)
  {
  }

  /** `${category}-${year}-${j}`. */
  function PrimaryId(slot: Slot): string {
    slot.category + "-" + IntStr(slot.year) + "-" + NatStr(slot.rank)
  }

  /** `${category}-${year}-backup-${i}`. */
  function BackupId(slot: Slot): string {
    slot.category + "-" + IntStr(slot.year) + "-backup-" + NatStr(slot.rank)
  }

  lemma NatStrNoDash(n: nat)
    ensures forall i :: 0 <= i < |NatStr(n)| ==> NatStr(n)[i] != '-'
  {
  }

  /** Within one plan, where the year is fixed by the rank, a primary id names its slot. */
  lemma PrimaryIdInjective(s1: Slot, s2: Slot, step: nat)
    requires s1.year == StartYear - s1.rank * step && s2.year == StartYear - s2.rank * step
    requires PrimaryId(s1) == PrimaryId(s2)
    ensures s1 == s2
  {
    NatStrNoDash(s1.rank);
    NatStrNoDash(s2.rank);
    SplitAtLastDash(s1.category + "-" + IntStr(s1.year), NatStr(s1.rank), s2.category + "-" + IntStr(s2.year), NatStr(s2.rank));
    NatStrInjective(s1.rank, s2.rank);
    var t := "-" + IntStr(s1.year);
    assert s1.category + "-" + IntStr(s1.year) == s1.category + t;
    assert s2.category + "-" + IntStr(s2.year) == s2.category + t;
    assert s1.category == (s1.category + t)[..|s1.category|];
  }

  /** A backup id names its rank. */
  lemma BackupIdRank(s1: Slot, s2: Slot)
    requires BackupId(s1) == BackupId(s2)
    ensures s1.rank == s2.rank
  {
    NatStrNoDash(s1.rank);
    NatStrNoDash(s2.rank);
    assert BackupId(s1) == (s1.category + "-" + IntStr(s1.year) + "-backup") + "-" + NatStr(s1.rank);
    assert BackupId(s2) == (s2.category + "-" + IntStr(s2.year) + "-backup") + "-" + NatStr(s2.rank);
    SplitAtLastDash(s1.category + "-" + IntStr(s1.year) + "-backup", NatStr(s1.rank),
                    s2.category + "-" + IntStr(s2.year) + "-backup", NatStr(s2.rank));
    NatStrInjective(s1.rank, s2.rank);
  }

  /** A primary id never equals a backup id: before the last dash one ends in a digit, the other in 'p'. */
  lemma PrimaryIsNotBackup(s1: Slot, s2: Slot)
    ensures PrimaryId(s1) != BackupId(s2)
  {
    NatStrNoDash(s1.rank);
    NatStrNoDash(s2.rank);
    var a := s1.category + "-" + IntStr(s1.year);
    var b := s2.category + "-" + IntStr(s2.year) + "-backup";
    assert BackupId(s2) == b + "-" + NatStr(s2.rank);
    assert a[|a| - 1] == IntStr(s1.year)[|IntStr(s1.year)| - 1];
    assert a[|a| - 1] != b[|b| - 1];
    if PrimaryId(s1) == BackupId(s2) {
      SplitAtLastDash(a, NatStr(s1.rank), b, NatStr(s2.rank));
    }
  }

  /** The draft the n-th call yields for `slot`, if any. */
  function Reply(ask: (nat, Slot) -> Option<string>, parse: string -> Parsed, n: nat, slot: Slot): Option<Draft> {
    DraftOf(ParseReply(ask(n, slot), parse, BareObject))
  }

  /** What the n-th call yields for a slot, as one function. */
  type DraftSource = (nat, Slot) -> Option<Draft>

  function Drafts(ask: (nat, Slot) -> Option<string>, parse: string -> Parsed): DraftSource {
    (n: nat, slot: Slot) => Reply(ask, parse, n, slot)
  }

  /** Every draft the source yields is valid. */
  ghost predicate ValidSource(draft: DraftSource) {
    forall n, slot :: draft(n, slot).Some? ==> ValidDraft(draft(n, slot).value)
  }

  lemma DraftsValid(ask: (nat, Slot) -> Option<string>, parse: string -> Parsed)
    ensures ValidSource(Drafts(ask, parse))
  {
    forall n, slot | Drafts(ask, parse)(n, slot).Some?
      ensures ValidDraft(Drafts(ask, parse)(n, slot).value)
    {
      assert Drafts(ask, parse)(n, slot) == Reply(ask, parse, n, slot);
    }
  }

  /** The question built for `slot` from a valid draft: category and year come from the slot. */
  function Build(id: string, slot: Slot, d: Draft): Question {
    Question(id, slot.category, d.question, d.options, d.correctAnswer, slot.year)
  }

  /** `q` was built for `slot` under `id` from a valid draft. */
  predicate BuiltFor(q: Question, slot: Slot, id: string) {
    q.id == id && q.category == slot.category && q.yearIndicator == slot.year &&
    q.question != "" && |q.options| == 4 && 0 <= q.correctAnswer <= 3
  }

  /** The first pass: slot k of `plan` is asked as call k; valid replies become questions in plan order. */
  function PrimaryQuestions(plan: seq<Slot>, draft: DraftSource): (qs: seq<Question>)
    ensures |qs| <= |plan|
  {
    if plan == [] then []
    else
      var prev := PrimaryQuestions(plan[..|plan| - 1], draft);
      var slot := plan[|plan| - 1];
      var d := draft(|plan| - 1, slot);
      if d.Some? then prev + [Build(PrimaryId(slot), slot, d.value)] else prev
  }

  /** Appending a slot to a first-pass plan appends at most the question built for it. */
  lemma PrimaryStep(plan: seq<Slot>, slot: Slot, draft: DraftSource)
    ensures PrimaryQuestions(plan + [slot], draft) ==
      PrimaryQuestions(plan, draft) +
      (var d := draft(|plan|, slot); if d.Some? then [Build(PrimaryId(slot), slot, d.value)] else [])
  {
    var p := plan + [slot];
    assert p[..|p| - 1] == plan;
  }

  /**
   * Every first-pass question was built for a slot of the plan under that
   * slot's id, and when the plan's slots are distinct with years fixed by
   * rank, no two questions share an id.
   */
  lemma {:induction false} PrimaryQuestionsShape(plan: seq<Slot>, step: nat, draft: DraftSource)
    requires ValidSource(draft)
    requires forall s :: s in plan ==> s.year == StartYear - s.rank * step
    requires forall a, b :: 0 <= a < b < |plan| ==> plan[a] != plan[b]
    ensures forall q :: q in PrimaryQuestions(plan, draft) ==>
      exists k :: 0 <= k < |plan| && BuiltFor(q, plan[k], PrimaryId(plan[k]))
    ensures DistinctIds(PrimaryQuestions(plan, draft))
  {
    if plan != [] {
      var init := plan[..|plan| - 1];
      var slot := plan[|plan| - 1];
      assert forall k :: 0 <= k < |init| ==> init[k] == plan[k];
      PrimaryQuestionsShape(init, step, draft);
      var prev := PrimaryQuestions(init, draft);
      var d := draft(|plan| - 1, slot);
      if d.Some? {
        var q := Build(PrimaryId(slot), slot, d.value);
        var qs := prev + [q];
        forall x | 0 <= x < |prev| ensures prev[x].id != q.id {
          assert prev[x] in prev;
          var k :| 0 <= k < |init| && BuiltFor(prev[x], init[k], PrimaryId(init[k]));
          if prev[x].id == q.id {
            PrimaryIdInjective(init[k], slot, step);
          }
        }
        assert BuiltFor(q, plan[|plan| - 1], PrimaryId(plan[|plan| - 1]));
      }
    }
  }

  /** The second pass: backup slot i is asked as call base + i, under a backup id. */
  function BackupQuestions(plan: seq<Slot>, base: nat, draft: DraftSource): (qs: seq<Question>)
    ensures |qs| <= |plan|
  {
    if plan == [] then []
    else
      var prev := BackupQuestions(plan[..|plan| - 1], base, draft);
      var slot := plan[|plan| - 1];
      var d := draft(base + |plan| - 1, slot);
      if d.Some? then prev + [Build(BackupId(slot), slot, d.value)] else prev
  }

  /** Appending a slot to a backup plan appends at most the question built for it. */
  lemma BackupStep(plan: seq<Slot>, slot: Slot, base: nat, draft: DraftSource)
    ensures BackupQuestions(plan + [slot], base, draft) ==
      BackupQuestions(plan, base, draft) +
      (var d := draft(base + |plan|, slot); if d.Some? then [Build(BackupId(slot), slot, d.value)] else [])
  {
    var p := plan + [slot];
    assert p[..|p| - 1] == plan;
    assert p[|p| - 1] == slot;
    assert base + |p| - 1 == base + |plan|;
  }

  /** A backup plan for i questions extended by a slot for place i is one for i + 1. */
  lemma BackupPlanSnoc(plan: seq<Slot>, slot: Slot, i: nat)
    requires IsBackupPlan(plan, RouteCategories, i)
    requires slot.category == RouteCategories[i % 4] && slot.rank == i && EpochYear <= slot.year < StartYear
    ensures IsBackupPlan(plan + [slot], RouteCategories, i + 1)
  {
    var p := plan + [slot];
    forall j | 0 <= j < i + 1
      ensures p[j].category == RouteCategories[j % 4] && p[j].rank == j && EpochYear <= p[j].year < StartYear
    {
      if j < i {
        assert p[j] == plan[j];
      }
    }
  }

  /** Every backup question was built for a slot of its plan; with ranks 0, 1, 2, ... no two share an id. */
  lemma {:induction false} BackupQuestionsShape(plan: seq<Slot>, base: nat, draft: DraftSource)
    requires ValidSource(draft)
    requires forall i :: 0 <= i < |plan| ==> plan[i].rank == i
    ensures forall q :: q in BackupQuestions(plan, base, draft) ==>
      exists k :: 0 <= k < |plan| && BuiltFor(q, plan[k], BackupId(plan[k]))
    ensures DistinctIds(BackupQuestions(plan, base, draft))
  {
    if plan != [] {
      var init := plan[..|plan| - 1];
      var slot := plan[|plan| - 1];
      assert forall k :: 0 <= k < |init| ==> init[k] == plan[k];
      BackupQuestionsShape(init, base, draft);
      var prev := BackupQuestions(init, base, draft);
      var d := draft(base + |plan| - 1, slot);
      if d.Some? {
        var q := Build(BackupId(slot), slot, d.value);
        forall x | 0 <= x < |prev| ensures prev[x].id != q.id {
          assert prev[x] in prev;
          var k :| 0 <= k < |init| && BuiltFor(prev[x], init[k], BackupId(init[k]));
          if prev[x].id == q.id {
            BackupIdRank(init[k], slot);
          }
        }
        assert BuiltFor(q, plan[|plan| - 1], BackupId(plan[|plan| - 1]));
      }
    }
  }

  /**
   * What one generation gathers: the first pass over exactly `count` planned
   * slots (no epoch filter), then, only on a shortfall, a backup pass over
   * exactly the missing number of slots, asked as calls count, count + 1, ...
   */
  ghost predicate LocalOutcome(count: nat, step: nat, draft: DraftSource, backupPlan: seq<Slot>, collected: seq<Question>) {
    var primary := PrimaryQuestions(FullPlan(RouteCategories, count, step), draft);
    if |primary| < count then
      IsBackupPlan(backupPlan, RouteCategories, count - |primary|) &&
      collected == primary + BackupQuestions(backupPlan, count, draft)
    else
      backupPlan == [] && collected == primary
  }

  /** The first pass yields conforming questions with distinct ids, each built for a slot of the full plan. */
  lemma PrimarySound(count: nat, step: nat, draft: DraftSource)
    requires ValidSource(draft)
    ensures |PrimaryQuestions(FullPlan(RouteCategories, count, step), draft)| <= count
    ensures DistinctIds(PrimaryQuestions(FullPlan(RouteCategories, count, step), draft))
    ensures forall q :: q in PrimaryQuestions(FullPlan(RouteCategories, count, step), draft) ==>
      Conforms(q, RouteCategories) &&
      exists k :: 0 <= k < |FullPlan(RouteCategories, count, step)| &&
        BuiltFor(q, FullPlan(RouteCategories, count, step)[k], PrimaryId(FullPlan(RouteCategories, count, step)[k]))
  {
    var plan := FullPlan(RouteCategories, count, step);
    RouteCategoriesDistinct();
    FullPlanShape(RouteCategories, count, step);
    PrimaryQuestionsShape(plan, step, draft);
    forall q | q in PrimaryQuestions(plan, draft) ensures Conforms(q, RouteCategories) {
      var k :| 0 <= k < |plan| && BuiltFor(q, plan[k], PrimaryId(plan[k]));
      assert plan[k] in plan;
    }
  }

  /** A backup pass yields conforming questions with distinct ids, each built for a slot of its plan. */
  lemma BackupSound(backupPlan: seq<Slot>, n: nat, base: nat, draft: DraftSource)
    requires ValidSource(draft) && IsBackupPlan(backupPlan, RouteCategories, n)
    ensures DistinctIds(BackupQuestions(backupPlan, base, draft))
    ensures forall q :: q in BackupQuestions(backupPlan, base, draft) ==>
      Conforms(q, RouteCategories) &&
      exists m :: 0 <= m < n && BuiltFor(q, backupPlan[m], BackupId(backupPlan[m]))
  {
    BackupQuestionsShape(backupPlan, base, draft);
    forall q | q in BackupQuestions(backupPlan, base, draft) ensures Conforms(q, RouteCategories) {
      var k :| 0 <= k < |backupPlan| && BuiltFor(q, backupPlan[k], BackupId(backupPlan[k]));
      assert RouteCategories[k % 4] in RouteCategories;
    }
  }

  /** No first-pass id is a backup id, so the two passes joined keep distinct ids. */
  lemma JoinDistinct(primary: seq<Question>, plan: seq<Slot>, backup: seq<Question>, backupPlan: seq<Slot>)
    requires DistinctIds(primary) && DistinctIds(backup)
    requires forall q :: q in primary ==> exists k :: 0 <= k < |plan| && BuiltFor(q, plan[k], PrimaryId(plan[k]))
    requires forall q :: q in backup ==>
      exists m :: 0 <= m < |backupPlan| && BuiltFor(q, backupPlan[m], BackupId(backupPlan[m]))
    ensures DistinctIds(primary + backup)
  {
    var all := primary + backup;
    forall a, b | 0 <= a < b < |all| ensures all[a].id != all[b].id {
      if b < |primary| {
        assert all[a] == primary[a] && all[b] == primary[b];
      } else if a >= |primary| {
        assert all[a] == backup[a - |primary|] && all[b] == backup[b - |primary|];
      } else {
        assert all[a] == primary[a] && primary[a] in primary;
        assert all[b] == backup[b - |primary|] && backup[b - |primary|] in backup;
        var k :| 0 <= k < |plan| && BuiltFor(primary[a], plan[k], PrimaryId(plan[k]));
        var m :| 0 <= m < |backupPlan| && BuiltFor(backup[b - |primary|], backupPlan[m], BackupId(backupPlan[m]));
        PrimaryIsNotBackup(plan[k], backupPlan[m]);
      }
    }
  }

  /** A generation yields at most `count` conforming questions with pairwise distinct ids. */
  lemma LocalOutcomeSound(count: nat, step: nat, draft: DraftSource, backupPlan: seq<Slot>, collected: seq<Question>)
    requires ValidSource(draft) && LocalOutcome(count, step, draft, backupPlan, collected)
    ensures |collected| <= count
    ensures DistinctIds(collected)
    ensures forall q :: q in collected ==> Conforms(q, RouteCategories)
  {
    var plan := FullPlan(RouteCategories, count, step);
    var primary := PrimaryQuestions(plan, draft);
    PrimarySound(count, step, draft);
    if |primary| < count {
      var n := count - |primary|;
      var backup := BackupQuestions(backupPlan, count, draft);
      BackupSound(backupPlan, n, count, draft);
      RouteCategoriesDistinct();
      FullPlanShape(RouteCategories, count, step);
      JoinDistinct(primary, plan, backup, backupPlan);
      assert collected == primary + backup;
      assert |backup| <= n;
    }
  }

  /**
   * One more slot of a category extends the first pass by that slot's
   * question when its call (number |done| + j) yields a draft, and leaves it
   * unchanged otherwise.
   */
  lemma CategoryStep(done: seq<Slot>, category: string, j: nat, step: nat, draft: DraftSource, slot: Slot)
    requires slot == Slot(category, StartYear - j * step, j)
    ensures draft(|done| + j, slot).None? ==>
      PrimaryQuestions(done + CategorySlots(category, j + 1, step), draft) ==
      PrimaryQuestions(done + CategorySlots(category, j, step), draft)
    ensures draft(|done| + j, slot).Some? ==>
      PrimaryQuestions(done + CategorySlots(category, j + 1, step), draft) ==
      PrimaryQuestions(done + CategorySlots(category, j, step), draft) +
      [Build(PrimaryId(slot), slot, draft(|done| + j, slot).value)]
  {
    var before := done + CategorySlots(category, j, step);
    assert CategorySlots(category, j + 1, step) == CategorySlots(category, j, step) + [slot];
    assert done + CategorySlots(category, j + 1, step) == before + [slot];
    PrimaryStep(before, slot, draft);
  }

  /** One iteration of the inner loop: call number `calls` for slot j, and its question if the reply is valid. */
  method AskSlot(qs: seq<Question>, calls: nat, category: string, j: nat, step: nat,
                 draft: DraftSource, ghost done: seq<Slot>)
    returns (qs': seq<Question>, calls': nat)
    requires calls == |done| + j && qs == PrimaryQuestions(done + CategorySlots(category, j, step), draft)
    ensures calls' == calls + 1
    ensures qs' == PrimaryQuestions(done + CategorySlots(category, j + 1, step), draft)
  {
    var year := StartYear - j * step;
    var slot := Slot(category, year, j);
    CategoryStep(done, category, j, step, draft, slot);
    var d := draft(calls, slot);
    calls' := calls + 1;
    qs' := qs;
    if d.Some? {
      qs' := qs + [Build(PrimaryId(slot), slot, d.value)];
    }
  }

  /** The inner loop of the first pass: the slots of one category, one provider call each. */
  method GenerateCategory(questions: seq<Question>, asked: nat, category: string, n: nat, step: nat,
                          draft: DraftSource, ghost done: seq<Slot>)
    returns (qs: seq<Question>, calls: nat)
    requires asked == |done| && questions == PrimaryQuestions(done, draft)
    ensures calls == |done + CategorySlots(category, n, step)|
    ensures qs == PrimaryQuestions(done + CategorySlots(category, n, step), draft)
  {
    qs, calls := questions, asked;
    assert done + CategorySlots(category, 0, step) == done;
    for j := 0 to n
      invariant calls == |done| + j
      invariant qs == PrimaryQuestions(done + CategorySlots(category, j, step), draft)
    {
      qs, calls := AskSlot(qs, calls, category, j, step, draft, done);
    }
  }

  /** The nested loops of the first pass over the four categories. */
  method GeneratePrimary(count: nat, step: nat, draft: DraftSource)
    returns (questions: seq<Question>)
    ensures questions == PrimaryQuestions(FullPlan(RouteCategories, count, step), draft)
  {
    var perCategory := count / |RouteCategories|;
    var remainder := count % |RouteCategories|;
    questions := [];
    var calls := 0;
    for i := 0 to |RouteCategories|
      invariant calls == |PlanOver(RouteCategories, count, step, i)|
      invariant questions == PrimaryQuestions(PlanOver(RouteCategories, count, step, i), draft)
    {
      var category := RouteCategories[i];
      var categoryCount := if i < remainder then perCategory + 1 else perCategory;
      assert categoryCount == Share(count, i);
      questions, calls := GenerateCategory(questions, calls, category, categoryCount, step, draft,
                                           PlanOver(RouteCategories, count, step, i));
    }
  }

  /**
   * Backup slot i (category i mod 4, rank i, a year in [2009, 2023]) extends
   * the backup plan, and the backup pass by its question when call base + i
   * yields a draft.
   */
  lemma BackupSlotStep(questions: seq<Question>, qs: seq<Question>, backupPlan: seq<Slot>, slot: Slot,
                       base: nat, draft: DraftSource)
    requires IsBackupPlan(backupPlan, RouteCategories, |backupPlan|)
    requires qs == questions + BackupQuestions(backupPlan, base, draft)
    requires slot.category == RouteCategories[|backupPlan| % 4] && slot.rank == |backupPlan|
    requires EpochYear <= slot.year < StartYear
    ensures IsBackupPlan(backupPlan + [slot], RouteCategories, |backupPlan| + 1)
    ensures var d := draft(base + |backupPlan|, slot);
      questions + BackupQuestions(backupPlan + [slot], base, draft) ==
      if d.Some? then qs + [Build(BackupId(slot), slot, d.value)] else qs
  {
    BackupPlanSnoc(backupPlan, slot, |backupPlan|);
    BackupStep(backupPlan, slot, base, draft);
    var d := draft(base + |backupPlan|, slot);
    if d.Some? {
      var prev := BackupQuestions(backupPlan, base, draft);
      assert questions + (prev + [Build(BackupId(slot), slot, d.value)]) == qs + [Build(BackupId(slot), slot, d.value)];
    }
  }

  /** One iteration of the backup loop: backup slot i with a random year in [2009, 2023], asked as call base + i. */
  method AskBackupSlot(questions: seq<Question>, qs: seq<Question>, i: nat, base: nat, draft: DraftSource,
                       ghost backupPlan: seq<Slot>)
    returns (qs': seq<Question>, ghost backupPlan': seq<Slot>)
    requires IsBackupPlan(backupPlan, RouteCategories, i)
    requires qs == questions + BackupQuestions(backupPlan, base, draft)
    ensures IsBackupPlan(backupPlan', RouteCategories, i + 1)
    ensures qs' == questions + BackupQuestions(backupPlan', base, draft)
  {
    var category := RouteCategories[i % |RouteCategories|];
    var year :| EpochYear <= year < StartYear;
    var slot := Slot(category, year, i);
    var d := draft(base + i, slot);
    backupPlan' := backupPlan + [slot];
    BackupSlotStep(questions, qs, backupPlan, slot, base, draft);
    qs' := if d.Some? then qs + [Build(BackupId(slot), slot, d.value)] else qs;
  }

  /** The backup loop: `remaining` slots of category i mod 4 and a random year in [2009, 2023]. */
  method GenerateBackup(questions: seq<Question>, remaining: nat, base: nat,
                        draft: DraftSource)
    returns (qs: seq<Question>, ghost backupPlan: seq<Slot>)
    ensures IsBackupPlan(backupPlan, RouteCategories, remaining)
    ensures qs == questions + BackupQuestions(backupPlan, base, draft)
  {
    qs, backupPlan := questions, [];
    for i := 0 to remaining
      invariant IsBackupPlan(backupPlan, RouteCategories, i)
      invariant qs == questions + BackupQuestions(backupPlan, base, draft)
    {
      qs, backupPlan := AskBackupSlot(questions, qs, i, base, draft, backupPlan);
    }
  }

  /**
   * The endpoint's own generator. Without a key it fails; otherwise it
   * returns, in shuffled order, what the two passes gathered: at most
   * `count` conforming questions with distinct ids.
   */
  method GenerateLocally(apiKey: string, count: nat, difficulty: string,
                         ask: (nat, Slot) -> Option<string>, parse: string -> Parsed)
    returns (r: Result<seq<Question>, string>, ghost trace: Trace)
    ensures apiKey == "" <==> r.Failure?
    ensures r.Failure? ==> r.error == KeyRequired
    ensures r.Success? ==> GenerationOf(r.value, count, difficulty, ask, parse, trace)
    ensures r.Success? ==> Generated(r.value, count)
  {
    if apiKey == "" {
      return Failure(KeyRequired), Trace([], []);
    }
    var step := YearStep(difficulty);
    var draft := Drafts(ask, parse);
    var questions := GeneratePrimary(count, step, draft);
    ghost var backupPlan := [];
    if |questions| < count {
      questions, backupPlan := GenerateBackup(questions, count - |questions|, count, draft);
    }
    trace := Trace(backupPlan, questions);
    var shuffled := Shuffle(questions);
    r := Success(shuffled);
    GenerationSound(shuffled, count, difficulty, ask, parse, trace);
  }

  /** The plan a generation's backup pass used and what its two passes gathered, in order. */
  datatype Trace = Trace(backupPlan: seq<Slot>, collected: seq<Question>)

  /**
   * `qs` is, up to order, exactly what one generation of `n` questions at
   * `difficulty` gathers from the provider `ask`.
   */
  ghost predicate GenerationOf(qs: seq<Question>, n: nat, difficulty: string,
                               ask: (nat, Slot) -> Option<string>, parse: string -> Parsed, trace: Trace) {
    LocalOutcome(n, YearStep(difficulty), Drafts(ask, parse), trace.backupPlan, trace.collected) &&
    multiset(qs) == multiset(trace.collected)
  }

  /** A generation of `n` questions yields at most n conforming questions with distinct ids. */
  lemma GenerationSound(qs: seq<Question>, n: nat, difficulty: string,
                        ask: (nat, Slot) -> Option<string>, parse: string -> Parsed, trace: Trace)
    requires GenerationOf(qs, n, difficulty, ask, parse, trace)
    ensures Generated(qs, n)
  {
    DraftsValid(ask, parse);
    LocalOutcomeSound(n, YearStep(difficulty), Drafts(ask, parse), trace.backupPlan, trace.collected);
    assert |qs| == |multiset(qs)|;
    SubBatchDistinctIds(qs, trace.collected);
    forall q | q in qs ensures Conforms(q, RouteCategories) {
      assert q in multiset(trace.collected);
    }
  }

  /** What a generation for `n` questions guarantees: at most n conforming questions with distinct ids. */
  predicate Generated(qs: seq<Question>, n: nat) {
    |qs| <= n && DistinctIds(qs) && forall q :: q in qs ==> Conforms(q, RouteCategories)
  }

  // ---------------------------------------------------------------- row store

  /** A stored question: the record's fields under column names, plus the difficulty and creation time. */
  datatype Row = Row(id: string, category: string, question: string, options: seq<string>,
                     correct_answer: int, year_indicator: int, difficulty: string, created_at: string)

  /** The row-to-record mapping applied to query results. */
  function QuestionOf(row: Row): Question {
    Question(row.id, row.category, row.question, row.options, row.correct_answer, row.year_indicator)
  }

  /** The record-to-row mapping applied before an insert. */
  function RowOf(q: Question, difficulty: string, createdAt: string): Row {
    Row(q.id, q.category, q.question, q.options, q.correctAnswer, q.yearIndicator, difficulty, createdAt)
  }

  /** Reading back an inserted row gives the record that was inserted. */
  lemma RowRoundTrip(q: Question, difficulty: string, createdAt: string)
    ensures QuestionOf(RowOf(q, difficulty, createdAt)) == q
  {
  }

  /** A row is its record plus its difficulty and creation time. */
  lemma QuestionRoundTrip(row: Row)
    ensures RowOf(QuestionOf(row), row.difficulty, row.created_at) == row
  {
  }

  function QuestionsOf(rows: seq<Row>): (qs: seq<Question>)
    ensures |qs| == |rows|
    ensures forall i :: 0 <= i < |rows| ==> qs[i] == QuestionOf(rows[i])
  {
    if rows == [] then [] else [QuestionOf(rows[0])] + QuestionsOf(rows[1..])
  }

  /** The rows inserted for a generated batch, all with the same difficulty and creation time. */
  function RowsOf(qs: seq<Question>, difficulty: string, createdAt: string): (rows: seq<Row>)
    ensures |rows| == |qs|
    ensures forall i :: 0 <= i < |qs| ==> rows[i] == RowOf(qs[i], difficulty, createdAt)
  {
    if qs == [] then [] else [RowOf(qs[0], difficulty, createdAt)] + RowsOf(qs[1..], difficulty, createdAt)
  }

  /** Reading back a batch of inserted rows gives the batch. */
  lemma {:induction false} RowsRoundTrip(qs: seq<Question>, difficulty: string, createdAt: string)
    ensures QuestionsOf(RowsOf(qs, difficulty, createdAt)) == qs
  {
    var back := QuestionsOf(RowsOf(qs, difficulty, createdAt));
    forall i | 0 <= i < |qs| ensures back[i] == qs[i] {
      RowRoundTrip(qs[i], difficulty, createdAt);
    }
  }

  /** The rows of one difficulty, in stored order. */
  function Matching(rows: seq<Row>, difficulty: string): (r: seq<Row>)
    ensures |r| <= |rows|
  {
    if rows == [] then []
    else if rows[0].difficulty == difficulty then [rows[0]] + Matching(rows[1..], difficulty)
    else Matching(rows[1..], difficulty)
  }

  /** The matching rows are exactly the stored rows of that difficulty. */
  lemma {:induction false} MatchingRows(rows: seq<Row>, difficulty: string)
    ensures forall x :: x in Matching(rows, difficulty) <==> x in rows && x.difficulty == difficulty
  {
    if rows != [] {
      MatchingRows(rows[1..], difficulty);
      assert forall x :: x in rows <==> x == rows[0] || x in rows[1..];
    }
  }

  /**
   * The query: rows of the given difficulty, newest first, at most `limit`
   * of them. The stored order is newest first.
   */
  function Select(rows: seq<Row>, difficulty: string, limit: nat): (r: seq<Row>)
    ensures |r| == Min(limit, |Matching(rows, difficulty)|)
    ensures r == Matching(rows, difficulty)[..|r|]
  {
    var m := Matching(rows, difficulty);
    if |m| <= limit then m else m[..limit]
  }

  /** Rows of one difficulty put in front are the first ones a query for that difficulty sees. */
  lemma {:induction false} MatchingPrefix(batch: seq<Row>, rows: seq<Row>, difficulty: string)
    requires forall x :: x in batch ==> x.difficulty == difficulty
    ensures Matching(batch + rows, difficulty) == batch + Matching(rows, difficulty)
  {
    if batch != [] {
      var all := batch + rows;
      assert all[0] == batch[0] && batch[0] in batch;
      assert all[1..] == batch[1..] + rows;
      MatchingPrefix(batch[1..], rows, difficulty);
      var m := Matching(rows, difficulty);
      assert Matching(all, difficulty) == [batch[0]] + (batch[1..] + m);
      assert batch == [batch[0]] + batch[1..];
      assert [batch[0]] + (batch[1..] + m) == batch + m;
    } else {
      assert batch + rows == rows;
    }
  }

  /**
   * After inserting a batch of rows of one difficulty, a query for that
   * difficulty returns the batch first, followed by what it returned before.
   */
  lemma InsertedComeFirst(batch: seq<Row>, rows: seq<Row>, difficulty: string, limit: nat)
    requires forall x :: x in batch ==> x.difficulty == difficulty
    ensures Select(batch + rows, difficulty, limit) ==
      (if limit <= |batch| then batch[..limit] else batch + Select(rows, difficulty, limit - |batch|))
  {
    MatchingPrefix(batch, rows, difficulty);
    var m := Matching(rows, difficulty);
    if limit > |batch| {
      if |m| > limit - |batch| {
        assert (batch + m)[..limit] == batch + m[..limit - |batch|];
      }
    } else {
      assert (batch + m)[..limit] == batch[..limit];
    }
  }

  /** The stored questions: rows kept newest first. */
  class TriviaTable {
    var rows: seq<Row>

    constructor(rows: seq<Row>)
      ensures this.rows == rows
    {
      this.rows := rows;
    }

    /** The query's result on the current contents. */
    function Query(difficulty: string, limit: nat): (r: seq<Row>)
      reads this
      ensures r == Select(rows, difficulty, limit)
      ensures |r| <= limit
      ensures forall x :: x in r ==> x in rows && x.difficulty == difficulty
    {
      MatchingRows(rows, difficulty);
      var r := Select(rows, difficulty, limit);
      assert forall x :: x in r ==> x in Matching(rows, difficulty);
      r
    }

    /** A successful insert: the new rows are the newest. */
    method Insert(batch: seq<Row>)
      modifies this
      ensures rows == batch + old(rows)
    {
      rows := batch + rows;
    }
  }

  // ---------------------------------------------------------------- database path

  /** How the query ends: with rows, with an error result, or with an exception. */
  datatype QueryFault = QueryOk | QueryError | QueryThrows

  /** How the insert ends: stored, with an error result (logged only), or with an exception. */
  datatype InsertFault = InsertOk | InsertError | InsertThrows

  /**
   * The cache-first read. A query error or exception, and an exception
   * while topping up (including an insert that throws), lead to a fresh
   * generation of the full count whose own failure is not caught. Each
   * generation has its own provider: `ask` for the first, `askAgain` for
   * the regeneration after an exception. The ghost outputs are the top-up
   * batch and the traces of the top-up and of the regeneration.
   */
  method FetchFromDatabase(table: TriviaTable?, apiKey: string, count: nat, difficulty: string,
                           queryFault: QueryFault, insertFault: InsertFault, now: string,
                           ask: (nat, Slot) -> Option<string>, askAgain: (nat, Slot) -> Option<string>,
                           parse: string -> Parsed)
    returns (r: Result<seq<Question>, string>, ghost generated: seq<Question>, ghost topUp: Trace, ghost regen: Trace)
    modifies table
    ensures table == null ==> r == Failure(ClientRequired)
    ensures r.Success? ==> |r.value| <= count
    ensures table != null ==> ToppedUp(old(table.rows), table.rows, apiKey, count, difficulty,
                                       queryFault, insertFault, now, ask, askAgain, parse, r, generated, topUp, regen)
  {
    generated, topUp, regen := [], Trace([], []), Trace([], []);
    if table == null {
      return Failure(ClientRequired), generated, topUp, regen;
    }
    var filter := DifficultyFilter(difficulty);
    if queryFault != QueryOk {
      r, regen := Regenerate(apiKey, count, difficulty, ask, parse);
      return;
    }
    var selected := table.Query(filter, count);
    var cached := QuestionsOf(selected);
    if |selected| >= count {
      return Success(cached), generated, topUp, regen;
    }
    var g;
    g, topUp := GenerateLocally(apiKey, count - |selected|, difficulty, ask, parse);
    if g.Failure? {
      r, regen := Regenerate(apiKey, count, difficulty, askAgain, parse);
      return;
    }
    var batch := g.value;
    generated := batch;
    if |batch| > 0 {
      if insertFault == InsertThrows {
        r, regen := Regenerate(apiKey, count, difficulty, askAgain, parse);
        return;
      }
      if insertFault == InsertOk {
        table.Insert(RowsOf(batch, filter, now));
      }
    }
    r := Success(cached + batch);
  }

  /** A full-count generation whose result is returned as is. */
  method Regenerate(apiKey: string, count: nat, difficulty: string,
                    ask: (nat, Slot) -> Option<string>, parse: string -> Parsed)
    returns (r: Result<seq<Question>, string>, ghost trace: Trace)
    ensures FullRegeneration(apiKey, count, difficulty, ask, parse, r, trace)
    ensures r.Success? ==> Generated(r.value, count)
  {
    r, trace := GenerateLocally(apiKey, count, difficulty, ask, parse);
  }

  /**
   * The outcome of the database path on a table holding `before` (and then
   * `after`): a failed query regenerates everything from `ask`; enough
   * stored rows are returned mapped, with nothing generated or inserted;
   * otherwise exactly the shortfall is generated from `ask` and, unless an
   * insert exception sends the request to a regeneration from `askAgain`,
   * stored under the filter only when it is not empty and the insert
   * succeeds, and returned after the stored rows.
   */
  ghost predicate ToppedUp(before: seq<Row>, after: seq<Row>, apiKey: string, count: nat, difficulty: string,
                           queryFault: QueryFault, insertFault: InsertFault, now: string,
                           ask: (nat, Slot) -> Option<string>, askAgain: (nat, Slot) -> Option<string>,
                           parse: string -> Parsed, r: Result<seq<Question>, string>,
                           generated: seq<Question>, topUp: Trace, regen: Trace) {
    var filter := DifficultyFilter(difficulty);
    var selected := Select(before, filter, count);
    if queryFault != QueryOk then
      after == before && FullRegeneration(apiKey, count, difficulty, ask, parse, r, regen)
    else if |selected| >= count then
      after == before && r == Success(QuestionsOf(selected))
    else if apiKey == "" then
      after == before && r == Failure(KeyRequired)
    else if |generated| > 0 && insertFault == InsertThrows then
      GenerationOf(generated, count - |selected|, difficulty, ask, parse, topUp) &&
      after == before && FullRegeneration(apiKey, count, difficulty, askAgain, parse, r, regen)
    else
      GenerationOf(generated, count - |selected|, difficulty, ask, parse, topUp) &&
      r == Success(QuestionsOf(selected) + generated) &&
      after == (if |generated| > 0 && insertFault == InsertOk then RowsOf(generated, filter, now) + before else before)
  }

  /** What a full regeneration returns: the key error, or a generation of `count` from `ask`. */
  ghost predicate FullRegeneration(apiKey: string, count: nat, difficulty: string,
                                   ask: (nat, Slot) -> Option<string>, parse: string -> Parsed,
                                   r: Result<seq<Question>, string>, trace: Trace) {
    if apiKey == "" then r == Failure(KeyRequired)
    else r.Success? && GenerationOf(r.value, count, difficulty, ask, parse, trace)
  }

  /** The first slot of a plan, when its call yields a draft, leads the first pass. */
  lemma {:induction false} FirstSlotQuestion(plan: seq<Slot>, draft: DraftSource)
    requires plan != [] && draft(0, plan[0]).Some?
    ensures Build(PrimaryId(plan[0]), plan[0], draft(0, plan[0]).value) in PrimaryQuestions(plan, draft)
  {
    if |plan| > 1 {
      var init := plan[..|plan| - 1];
      assert init[0] == plan[0];
      FirstSlotQuestion(init, draft);
    }
  }

  /** The first slot of the plan for `n` questions. */
  function LeadSlot(n: nat, step: nat): Slot
    requires n > 0
  {
    RouteCategoriesDistinct();
    FullPlanShape(RouteCategories, n, step);
    FullPlan(RouteCategories, n, step)[0]
  }

  /** A generation keeps every question of its first pass. */
  lemma PrimaryCollected(count: nat, step: nat, draft: DraftSource, backupPlan: seq<Slot>, collected: seq<Question>)
    requires LocalOutcome(count, step, draft, backupPlan, collected)
    ensures forall q :: q in PrimaryQuestions(FullPlan(RouteCategories, count, step), draft) ==> q in collected
  {
  }

  /**
   * Every plan starts with the first category's slot of rank 0 at the
   * start year, whatever the count and the difficulty, so every top-up
   * asks first for the same id.
   */
  lemma LeadSlotFixed(n: nat, step: nat)
    requires n > 0
    ensures LeadSlot(n, step) == Slot(RouteCategories[0], StartYear, 0)
    ensures PrimaryId(LeadSlot(n, step)) == RouteCategories[0] + "-" + IntStr(StartYear) + "-" + NatStr(0)
  {
    var first := CategorySlots(RouteCategories[0], Share(n, 0), step);
    CategorySlotsAt(RouteCategories[0], Share(n, 0), step);
    assert first[0] == Slot(RouteCategories[0], StartYear, 0);
    var p1 := PlanOver(RouteCategories, n, step, 1);
    assert PlanOver(RouteCategories, n, step, 0) == [];
    assert p1 == [] + first;
    var p2 := PlanOver(RouteCategories, n, step, 2);
    assert p2[0] == p1[0];
    var p3 := PlanOver(RouteCategories, n, step, 3);
    assert p3[0] == p2[0];
    assert FullPlan(RouteCategories, n, step)[0] == p3[0];
  }

  /** When the call for the first slot yields a draft, a generation holds a question under that slot's id. */
  lemma GenerationHasLead(qs: seq<Question>, n: nat, difficulty: string,
                          ask: (nat, Slot) -> Option<string>, parse: string -> Parsed, trace: Trace)
    requires n > 0 && GenerationOf(qs, n, difficulty, ask, parse, trace)
    requires Drafts(ask, parse)(0, LeadSlot(n, YearStep(difficulty))).Some?
    ensures exists j :: 0 <= j < |qs| && qs[j].id == PrimaryId(LeadSlot(n, YearStep(difficulty)))
  {
    var step := YearStep(difficulty);
    var slot := LeadSlot(n, step);
    var draft := Drafts(ask, parse);
    var plan := FullPlan(RouteCategories, n, step);
    RouteCategoriesDistinct();
    FullPlanShape(RouteCategories, n, step);
    assert plan[0] == slot;
    FirstSlotQuestion(plan, draft);
    var q := Build(PrimaryId(slot), slot, draft(0, slot).value);
    PrimaryCollected(n, step, draft, trace.backupPlan, trace.collected);
    assert q in multiset(trace.collected);
    var j :| 0 <= j < |qs| && qs[j] == q;
  }

  /**
   * The top-up batch is numbered from scratch, so it can repeat a stored id:
   * when a returned stored row carries the id of the shortfall plan's first
   * slot and that slot's call yields a draft, the answer holds that id twice.
   */
  lemma TopUpRepeatsIds(before: seq<Row>, after: seq<Row>, apiKey: string, count: nat, difficulty: string,
                        insertFault: InsertFault, now: string,
                        ask: (nat, Slot) -> Option<string>, askAgain: (nat, Slot) -> Option<string>,
                        parse: string -> Parsed, r: Result<seq<Question>, string>,
                        generated: seq<Question>, topUp: Trace, regen: Trace, selected: seq<Row>, i: nat)
    requires ToppedUp(before, after, apiKey, count, difficulty, QueryOk, insertFault, now,
                      ask, askAgain, parse, r, generated, topUp, regen)
    requires apiKey != "" && insertFault != InsertThrows
    requires selected == Select(before, DifficultyFilter(difficulty), count)
    requires i < |selected| < count
    requires selected[i].id == PrimaryId(LeadSlot(count - |selected|, YearStep(difficulty)))
    requires Drafts(ask, parse)(0, LeadSlot(count - |selected|, YearStep(difficulty))).Some?
    ensures r.Success? && !DistinctIds(r.value)
  {
    var n := count - |selected|;
    assert GenerationOf(generated, n, difficulty, ask, parse, topUp);
    assert r == Success(QuestionsOf(selected) + generated);
    GenerationHasLead(generated, n, difficulty, ask, parse, topUp);
    var j :| 0 <= j < |generated| && generated[j].id == PrimaryId(LeadSlot(n, YearStep(difficulty)));
    var cached := QuestionsOf(selected);
    assert (cached + generated)[i] == cached[i] && (cached + generated)[|cached| + j] == generated[j];
  }

  // ---------------------------------------------------------------- endpoint

  /** The request body's fields, each possibly absent; None: the body is not JSON. */
  datatype Body = Body(count: Option<nat>, difficulty: Option<string>)

  datatype Response = QuestionsResponse(questions: seq<Question>) | ErrorResponse(status: int, message: string)

  /** The count asked for, 8 when absent. */
  function RequestedCount(body: Body): nat {
    if body.count.Some? then body.count.value else DefaultCount
  }

  /** The difficulty asked for, "medium" when absent. */
  function RequestedDifficulty(body: Body): string {
    if body.difficulty.Some? then body.difficulty.value else DefaultDifficulty
  }

  /**
   * `POST`: an unreadable body answers 500 with the generic message; a
   * missing key or client answers 500 before any query; otherwise the
   * database path runs with the requested count and difficulty and its
   * questions are the answer.
   */
  method Post(body: Option<Body>, apiKey: string, table: TriviaTable?,
              queryFault: QueryFault, insertFault: InsertFault, now: string,
              ask: (nat, Slot) -> Option<string>, askAgain: (nat, Slot) -> Option<string>, parse: string -> Parsed)
    returns (resp: Response, ghost generated: seq<Question>, ghost topUp: Trace, ghost regen: Trace)
    modifies table
    ensures body.None? ==> resp == ErrorResponse(500, GenerationFailed)
    ensures body.Some? && apiKey == "" ==> resp == ErrorResponse(500, KeyNotConfigured)
    ensures body.Some? && apiKey != "" && table == null ==> resp == ErrorResponse(500, ClientNotConfigured)
    ensures table != null && (body.None? || apiKey == "") ==> table.rows == old(table.rows)
    ensures resp.QuestionsResponse? ==> body.Some? && |resp.questions| <= RequestedCount(body.value)
    ensures table != null && body.Some? && apiKey != "" ==>
      resp.QuestionsResponse? &&
      ToppedUp(old(table.rows), table.rows, apiKey, RequestedCount(body.value), RequestedDifficulty(body.value),
               queryFault, insertFault, now, ask, askAgain, parse, Success(resp.questions), generated, topUp, regen)
  {
    generated, topUp, regen := [], Trace([], []), Trace([], []);
    if body.None? {
      return ErrorResponse(500, GenerationFailed), generated, topUp, regen;
    }
    var count := RequestedCount(body.value);
    var difficulty := RequestedDifficulty(body.value);
    if apiKey == "" {
      return ErrorResponse(500, KeyNotConfigured), generated, topUp, regen;
    }
    if table == null {
      return ErrorResponse(500, ClientNotConfigured), generated, topUp, regen;
    }
    var r;
    r, generated, topUp, regen := FetchFromDatabase(table, apiKey, count, difficulty, queryFault, insertFault, now,
                                                    ask, askAgain, parse);
    resp := if r.Success? then QuestionsResponse(r.value) else ErrorResponse(500, GenerationFailed);
  }
}
