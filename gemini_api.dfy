/**
 * The batch adapter over the generative provider: plan (category, year)
 * slots, ask for all of them in one request, keep the candidates that pass
 * validation, ask once more for any shortfall, then shuffle and truncate.
 *
 * The provider, `JSON.parse` and the uuid generator are oracles carried by a
 * `Provider` value; the random backup years and the shuffle are
 * nondeterministic choices.
 */
module GeminiApi {
  import opened Wrappers
  import opened Text
  import opened Slots
  import opened Questions
  import opened Payload
  import opened Shuffling

  /** The categories the adapter asks for and accepts, in planning order. */
  const TriviaCategories: seq<string> := ["development", "memes-nfts-tokens", "scams-incidents", "crypto-characters"]

  const KeyRequired := "Gemini API key is required"

  /** The year a backup question gets when its candidate has no year, or year 0. */
  const FallbackYear: int := 2020

  /**
   * The oracles. `primary` and `backup` answer the two prompts, which are
   * determined by their slot lists (None: the call threw or returned no
   * text); `parse` is `JSON.parse`; `uuid(n)` is the uuid drawn when the
   * n-th question of the call is built.
   */
  datatype Provider = Provider(
    primary: seq<Slot> -> Option<string>,
    backup: seq<Slot> -> Option<string>,
    parse: string -> Parsed,
    uuid: nat -> string)

  /** `uuid.slice(0, 8)`. */
  function IdSuffix(u: string): (s: string)
    ensures |s| == Min(8, |u|) && s == u[..|s|]
  {
    if |u| <= 8 then u else u[..8]
  }

  /** The JSON record a question would be sent as, with its year under `year`. */
  function AsCandidate(q: Question): Candidate {
    Record(Has(q.question), Has(q.options), Has(q.correctAnswer), Has(q.category), Has(q.yearIndicator))
  }

  /** The id the adapter builds: category, year and uuid prefix joined by dashes. */
  function BatchId(category: string, year: int, suffix: string): string {
    category + "-" + IntStr(year) + "-" + suffix
  }

  /**
   * The hand-written check of the first batch: a non-empty question, four
   * options, an answer index in [0, 3], a listed category and a numeric year.
   * An accepted candidate is exactly the JSON form of the question built.
   */
  function AcceptPrimary(item: Candidate, suffix: string): (q: Option<Question>)
    ensures q.Some? ==> item == AsCandidate(q.value)
    ensures q.Some? ==> Conforms(q.value, TriviaCategories) && q.value.question != ""
    ensures q.Some? ==> q.value.id == BatchId(q.value.category, q.value.yearIndicator, suffix)
  {
    if item.Record? && item.question.Has? && item.question.value != "" &&
       item.options.Has? && |item.options.value| == 4 &&
       item.correctAnswer.Has? && 0 <= item.correctAnswer.value <= 3 &&
       item.category.Has? && item.category.value in TriviaCategories &&
       item.year.Has?
    then
      var category, year := item.category.value, item.year.value;
      Some(Question(BatchId(category, year, suffix), category, item.question.value,
                    item.options.value, item.correctAnswer.value, year))
    else None
  }

  /** A question's JSON form passes the first-batch check exactly when it conforms and has a question text. */
  lemma PrimaryAcceptance(q: Question, suffix: string)
    ensures AcceptPrimary(AsCandidate(q), suffix).Some? <==> Conforms(q, TriviaCategories) && q.question != ""
    ensures AcceptPrimary(AsCandidate(q), suffix).Some? ==>
      AcceptPrimary(AsCandidate(q), suffix).value == q.(id := BatchId(q.category, q.yearIndicator, suffix))
  {
  }

  /**
   * The schema check of the backup batch: listed category, any string as
   * question, four string options, an answer in [0, 3] and an optional
   * numeric year; a missing or zero year becomes 2020.
   */
  function AcceptBackup(item: Candidate, suffix: string): (q: Option<Question>)
    ensures q.Some? ==> Conforms(q.value, TriviaCategories)
    ensures q.Some? ==>
      item.Record? && item.question == Has(q.value.question) &&
      item.options == Has(q.value.options) && item.correctAnswer == Has(q.value.correctAnswer) &&
      item.category == Has(q.value.category)
    ensures q.Some? ==>
      (item.year == Has(q.value.yearIndicator) && q.value.yearIndicator != 0) ||
      ((item.year == Absent || item.year == Has(0)) && q.value.yearIndicator == FallbackYear)
    ensures q.Some? ==> q.value.id == BatchId(q.value.category, q.value.yearIndicator, suffix)
  {
    if item.Record? && item.category.Has? && item.category.value in TriviaCategories &&
       item.question.Has? && item.options.Has? && |item.options.value| == 4 &&
       item.correctAnswer.Has? && 0 <= item.correctAnswer.value <= 3 &&
       !item.year.Mistyped?
    then
      var category := item.category.value;
      var year := if item.year.Has? && item.year.value != 0 then item.year.value else FallbackYear;
      Some(Question(BatchId(category, year, suffix), category, item.question.value,
                    item.options.value, item.correctAnswer.value, year))
    else None
  }

  /**
   * A record carrying a question's fields passes the schema exactly when the
   * question conforms and the year is absent or numeric; an empty question
   * text is accepted here, unlike in the first batch.
   */
  lemma BackupAcceptance(q: Question, year: Field<int>, suffix: string)
    ensures AcceptBackup(Record(Has(q.question), Has(q.options), Has(q.correctAnswer), Has(q.category), year), suffix).Some?
      <==> Conforms(q, TriviaCategories) && !year.Mistyped?
  {
  }

  /** Which validation a batch goes through. */
  datatype Validator = Handwritten | Schema

  /** A validation step: a candidate and an id suffix to a question, or a rejection. */
  type Check = (Candidate, string) -> Option<Question>

  function CheckOf(v: Validator): Check {
    match v
    case Handwritten => AcceptPrimary
    case Schema => AcceptBackup
  }

  /** Whatever `accept` builds conforms to the record contract. */
  ghost predicate YieldsConforming(accept: Check) {
    forall item, suffix :: accept(item, suffix).Some? ==> Conforms(accept(item, suffix).value, TriviaCategories)
  }

  /** Both validators only build conforming questions. */
  lemma ChecksConform(v: Validator)
    ensures YieldsConforming(CheckOf(v))
  {
    forall item, suffix | CheckOf(v)(item, suffix).Some?
      ensures Conforms(CheckOf(v)(item, suffix).value, TriviaCategories)
    {
      if v == Handwritten {
        assert CheckOf(v)(item, suffix) == AcceptPrimary(item, suffix);
      } else {
        assert CheckOf(v)(item, suffix) == AcceptBackup(item, suffix);
      }
    }
  }

  /** Index of the first JSON null, or the length when there is none. */
  function FirstNull(items: seq<Candidate>): (n: nat)
    ensures n <= |items|
    ensures forall k :: 0 <= k < n ==> items[k] != JsonNull
    ensures n < |items| ==> items[n] == JsonNull
  {
    if items == [] || items[0] == JsonNull then 0 else 1 + FirstNull(items[1..])
  }

  /**
   * How many items the loop gets through. The hand-written check reads a
   * property of every item, so a JSON null throws and ends the first
   * batch's loop; the schema check rejects a null and carries on.
   */
  function Reach(stopAtNull: bool, items: seq<Candidate>): (n: nat)
    ensures n <= |items|
  {
    if stopAtNull then FirstNull(items) else |items|
  }

  /**
   * The questions built from the first `n` items in order, the j-th of the
   * call (counting from `base`) taking its id suffix from `uuid(j)`.
   */
  function Accepted(accept: Check, items: seq<Candidate>, n: nat, base: nat, uuid: nat -> string): (qs: seq<Question>)
    requires n <= |items|
    ensures |qs| <= n
  {
    if n == 0 then []
    else
      var prev := Accepted(accept, items, n - 1, base, uuid);
      var next := accept(items[n - 1], IdSuffix(uuid(base + |prev|)));
      if next.Some? then prev + [next.value] else prev
  }

  /** `q` is what `accept` makes of one of the first `n` items with the given suffix. */
  predicate BuiltFrom(accept: Check, items: seq<Candidate>, n: nat, suffix: string, q: Question)
    requires n <= |items|
  {
    exists k :: 0 <= k < n && accept(items[k], suffix) == Some(q)
  }

  /** Each question built is what its validator makes of some item, with the suffix of its position. */
  lemma {:induction false} AcceptedProvenance(accept: Check, items: seq<Candidate>, n: nat, base: nat, uuid: nat -> string)
    requires n <= |items|
    ensures forall i :: 0 <= i < |Accepted(accept, items, n, base, uuid)| ==>
      BuiltFrom(accept, items, n, IdSuffix(uuid(base + i)), Accepted(accept, items, n, base, uuid)[i])
  {
    if n > 0 {
      AcceptedProvenance(accept, items, n - 1, base, uuid);
      var prev := Accepted(accept, items, n - 1, base, uuid);
      var qs := Accepted(accept, items, n, base, uuid);
      forall i | 0 <= i < |qs|
        ensures BuiltFrom(accept, items, n, IdSuffix(uuid(base + i)), qs[i])
      {
        if i < |prev| {
          assert qs[i] == prev[i];
          assert BuiltFrom(accept, items, n - 1, IdSuffix(uuid(base + i)), prev[i]);
        } else {
          assert accept(items[n - 1], IdSuffix(uuid(base + i))) == Some(qs[i]);
        }
      }
    }
  }

  /** Every question built conforms to the record contract. */
  lemma AcceptedConform(accept: Check, items: seq<Candidate>, n: nat, base: nat, uuid: nat -> string)
    requires n <= |items| && YieldsConforming(accept)
    ensures forall q :: q in Accepted(accept, items, n, base, uuid) ==> Conforms(q, TriviaCategories)
  {
    var qs := Accepted(accept, items, n, base, uuid);
    forall q | q in qs ensures Conforms(q, TriviaCategories) {
      var i :| 0 <= i < |qs| && qs[i] == q;
      AcceptedProvenance(accept, items, n, base, uuid);
      assert BuiltFrom(accept, items, n, IdSuffix(uuid(base + i)), qs[i]);
    }
  }

  /**
   * The questions one reply contributes: none unless the extracted payload
   * parses to an array, else those validated from the items the loop reaches.
   */
  function Harvest(v: Validator, reply: Option<string>, parse: string -> Parsed, base: nat, uuid: nat -> string): (qs: seq<Question>)
    ensures !ParseReply(reply, parse, BareArray).JsonArray? ==> qs == []
    ensures ParseReply(reply, parse, BareArray).JsonArray? ==>
      |qs| <= |ParseReply(reply, parse, BareArray).items|
  {
    var parsed := ParseReply(reply, parse, BareArray);
    if parsed.JsonArray? then Accepted(CheckOf(v), parsed.items, Reach(v == Handwritten, parsed.items), base, uuid) else []
  }

  /**
   * The `for ... of` loop: appends to `questions` what `accept` builds; with
   * `stopAtNull` a JSON null ends the loop.
   */
  method AppendAccepted(questions: seq<Question>, accept: Check, stopAtNull: bool, items: seq<Candidate>, uuid: nat -> string)
    returns (r: seq<Question>)
    ensures r == questions + Accepted(accept, items, Reach(stopAtNull, items), |questions|, uuid)
  {
    r := questions;
    var i := 0;
    while i < |items|
      invariant 0 <= i <= |items|
      invariant stopAtNull ==> forall k :: 0 <= k < i ==> !items[k].JsonNull?
      invariant r == questions + Accepted(accept, items, i, |questions|, uuid)
    {
      var item := items[i];
      if stopAtNull && item.JsonNull? {
        break;
      }
      var next := accept(item, IdSuffix(uuid(|r|)));
      if next.Some? {
        r := r + [next.value];
      }
      i := i + 1;
    }
    assert i == Reach(stopAtNull, items);
  }

  /** One request's processing: extract, parse, and append the accepted items. */
  method Collect(questions: seq<Question>, v: Validator, reply: Option<string>, parse: string -> Parsed, uuid: nat -> string)
    returns (r: seq<Question>)
    ensures r == questions + Harvest(v, reply, parse, |questions|, uuid)
  {
    var parsed := ParseReply(reply, parse, BareArray);
    if parsed.JsonArray? {
      r := AppendAccepted(questions, CheckOf(v), v == Handwritten, parsed.items, uuid);
    } else {
      r := questions;
    }
  }

  /** Every question one reply contributes conforms to the record contract. */
  lemma HarvestConforms(v: Validator, reply: Option<string>, parse: string -> Parsed, base: nat, uuid: nat -> string)
    ensures forall q :: q in Harvest(v, reply, parse, base, uuid) ==> Conforms(q, TriviaCategories)
  {
    var parsed := ParseReply(reply, parse, BareArray);
    if parsed.JsonArray? {
      ChecksConform(v);
      AcceptedConform(CheckOf(v), parsed.items, Reach(v == Handwritten, parsed.items), base, uuid);
    }
  }

  /** One iteration of the inner planning loop: slot j is kept unless its year is before 2009. */
  method PlanSlot(slots: seq<Slot>, category: string, j: nat, step: nat) returns (slots': seq<Slot>)
    requires slots == InEpoch(CategorySlots(category, j, step))
    ensures slots' == InEpoch(CategorySlots(category, j + 1, step))
  {
    var year := StartYear - j * step;
    CategoryEpochStep(category, j, step);
    slots' := slots;
    if year < EpochYear {
      return;
    }
    slots' := slots + [Slot(category, year, j)];
  }

  /** The inner planning loop: the first `n` slots of `category`, skipping years before 2009. */
  method PlanCategory(category: string, n: nat, step: nat) returns (slots: seq<Slot>)
    ensures slots == InEpoch(CategorySlots(category, n, step))
  {
    slots := [];
    for j := 0 to n
      invariant slots == InEpoch(CategorySlots(category, j, step))
    {
      slots := PlanSlot(slots, category, j, step);
    }
  }

  /** The outer planning loop: category i gets count / 4 slots, plus one while i < count % 4. */
  method PlanBatch(count: nat, difficulty: string) returns (plan: seq<Slot>)
    ensures plan == InEpoch(FullPlan(TriviaCategories, count, YearStep(difficulty)))
  {
    var step := YearStep(difficulty);
    var perCategory := count / |TriviaCategories|;
    var remainder := count % |TriviaCategories|;
    plan := [];
    for i := 0 to |TriviaCategories|
      invariant plan == InEpoch(PlanOver(TriviaCategories, count, step, i))
    {
      var category := TriviaCategories[i];
      var categoryCount := if i < remainder then perCategory + 1 else perCategory;
      assert categoryCount == Share(count, i);
      var slots := PlanCategory(category, categoryCount, step);
      InEpochAppend(PlanOver(TriviaCategories, count, step, i), CategorySlots(category, categoryCount, step));
      plan := plan + slots;
    }
  }

  /** The backup planning loop; each year is a random draw from [2009, 2023]. */
  method PlanBackup(remaining: nat) returns (plan: seq<Slot>)
    ensures IsBackupPlan(plan, TriviaCategories, remaining)
  {
    plan := [];
    for i := 0 to remaining
      invariant IsBackupPlan(plan, TriviaCategories, i)
    {
      var category := TriviaCategories[i % |TriviaCategories|];
      var year :| EpochYear <= year < StartYear;
      plan := plan + [Slot(category, year, i)];
    }
  }

  /**
   * What the two requests yield: the first batch's questions, and only when
   * they fall short of `count`, a backup plan for exactly the shortfall and
   * the backup batch's questions after them.
   */
  ghost predicate BatchOutcome(provider: Provider, count: nat, plan: seq<Slot>, backupPlan: seq<Slot>, accepted: seq<Question>) {
    var primary := Harvest(Handwritten, provider.primary(plan), provider.parse, 0, provider.uuid);
    if |primary| < count then
      IsBackupPlan(backupPlan, TriviaCategories, count - |primary|) &&
      accepted == primary + Harvest(Schema, provider.backup(backupPlan), provider.parse, |primary|, provider.uuid)
    else
      backupPlan == [] && accepted == primary
  }

  /**
   * The two requests: the first batch for `plan`, then, only on a shortfall,
   * one backup batch. Everything gathered conforms.
   */
  method Gather(provider: Provider, count: nat, plan: seq<Slot>) returns (accepted: seq<Question>, backupPlan: seq<Slot>)
    ensures BatchOutcome(provider, count, plan, backupPlan, accepted)
    ensures forall q :: q in accepted ==> Conforms(q, TriviaCategories)
  {
    ghost var primary := Harvest(Handwritten, provider.primary(plan), provider.parse, 0, provider.uuid);
    accepted := Collect([], Handwritten, provider.primary(plan), provider.parse, provider.uuid);
    assert accepted == primary by {
      assert [] + primary == primary;
    }
    HarvestConforms(Handwritten, provider.primary(plan), provider.parse, 0, provider.uuid);
    backupPlan := [];
    if |accepted| < count {
      backupPlan := PlanBackup(count - |accepted|);
      ghost var backup := Harvest(Schema, provider.backup(backupPlan), provider.parse, |primary|, provider.uuid);
      accepted := Collect(accepted, Schema, provider.backup(backupPlan), provider.parse, provider.uuid);
      assert accepted == primary + backup;
      HarvestConforms(Schema, provider.backup(backupPlan), provider.parse, |primary|, provider.uuid);
    }
  }

  /** `questions.sort(() => 0.5 - Math.random()).slice(0, count)`. */
  method ShuffleAndTake(questions: seq<Question>, count: nat) returns (r: seq<Question>)
    ensures |r| == Min(count, |questions|)
    ensures multiset(r) <= multiset(questions)
    ensures forall q :: q in r ==> q in questions
  {
    var shuffled := Shuffle(questions);
    r := shuffled[..Min(count, |shuffled|)];
    PrefixSubMultiset(shuffled, Min(count, |shuffled|));
    forall q | q in r ensures q in questions {
      assert q in multiset(r);
    }
  }

  /**
   * `fetchTriviaQuestionsBatchFromGemini`. Without a key it fails before
   * planning or calling the provider. Otherwise the result is a rearrangement
   * of the accepted questions cut to `count`: min(count, accepted) of them,
   * each one accepted and conforming.
   */
  method FetchBatch(provider: Provider, apiKey: string, count: nat, difficulty: string)
    returns (r: Result<seq<Question>, string>, plan: seq<Slot>, backupPlan: seq<Slot>, ghost accepted: seq<Question>)
    ensures apiKey == "" <==> r.Failure?
    ensures r.Failure? ==> r.error == KeyRequired
    ensures r.Success? ==> plan == InEpoch(FullPlan(TriviaCategories, count, YearStep(difficulty)))
    ensures r.Success? ==> BatchOutcome(provider, count, plan, backupPlan, accepted)
    ensures r.Success? ==> |r.value| == Min(count, |accepted|) && multiset(r.value) <= multiset(accepted)
    ensures r.Success? ==> forall q :: q in r.value ==> q in accepted && Conforms(q, TriviaCategories)
  {
    if apiKey == "" {
      return Failure(KeyRequired), [], [], [];
    }
    plan := PlanBatch(count, difficulty);
    var questions;
    questions, backupPlan := Gather(provider, count, plan);
    accepted := questions;
    var taken := ShuffleAndTake(questions, count);
    r := Success(taken);
  }

  /** `fetchTriviaQuestionsFromGemini`: the same call under its older name, with the same outcome. */
  method FetchQuestions(provider: Provider, apiKey: string, count: nat, difficulty: string)
    returns (r: Result<seq<Question>, string>, plan: seq<Slot>, backupPlan: seq<Slot>, ghost accepted: seq<Question>)
    ensures apiKey == "" <==> r.Failure?
    ensures r.Failure? ==> r.error == KeyRequired
    ensures r.Success? ==> plan == InEpoch(FullPlan(TriviaCategories, count, YearStep(difficulty)))
    ensures r.Success? ==> BatchOutcome(provider, count, plan, backupPlan, accepted)
    ensures r.Success? ==> |r.value| == Min(count, |accepted|) && multiset(r.value) <= multiset(accepted)
    ensures r.Success? ==> forall q :: q in r.value ==> q in accepted && Conforms(q, TriviaCategories)
  {
    r, plan, backupPlan, accepted := FetchBatch(provider, apiKey, count, difficulty);
  }
}
