/** The question record shared by the bank, the generators, the route and the quiz store. */
module Questions {

  /**
   * A multiple-choice question. `correctAnswer` indexes `options`;
   * `yearIndicator` is the year the subject matter is anchored to.
   */
  datatype Question = Question(
    id: string,
    category: string,
    question: string,
    options: seq<string>,
    correctAnswer: int,
    yearIndicator: int)

  /** The structural contract the validators establish: four options, an index into them, a listed category. */
  predicate Conforms(q: Question, categories: seq<string>) {
    |q.options| == 4 && 0 <= q.correctAnswer <= 3 && q.category in categories
  }

  /** No two questions of the batch share an id. */
  predicate DistinctIds(qs: seq<Question>) {
    forall a, b :: 0 <= a < b < |qs| ==> qs[a].id != qs[b].id
  }

  /** In a batch with distinct ids every question occurs at most once. */
  lemma {:induction false} DistinctIdsOccurOnce(qs: seq<Question>, q: Question)
    requires DistinctIds(qs)
    ensures multiset(qs)[q] <= 1
    decreases |qs|
  {
    if qs != [] {
      var init := qs[..|qs| - 1];
      assert qs == init + [qs[|qs| - 1]];
      assert DistinctIds(init) by {
        forall a, b | 0 <= a < b < |init| ensures init[a].id != init[b].id {
          assert init[a] == qs[a] && init[b] == qs[b];
        }
      }
      DistinctIdsOccurOnce(init, q);
      if q == qs[|qs| - 1] {
        forall i | 0 <= i < |init| ensures init[i] != q {
          assert init[i] == qs[i];
        }
        assert q !in init;
      }
    }
  }

  /** Taking questions from a batch with distinct ids, each at most as often as it occurs there, keeps ids distinct. */
  lemma SubBatchDistinctIds(sub: seq<Question>, qs: seq<Question>)
    requires multiset(sub) <= multiset(qs) && DistinctIds(qs)
    ensures DistinctIds(sub)
  {
    forall a, b | 0 <= a < b < |sub| ensures sub[a].id != sub[b].id {
      var x, y := sub[a], sub[b];
      assert x in multiset(qs) && y in multiset(qs);
      var i :| 0 <= i < |qs| && qs[i] == x;
      var j :| 0 <= j < |qs| && qs[j] == y;
      if x == y {
        assert sub == sub[..b] + sub[b..];
        assert x in sub[..b] && x in sub[b..];
        assert multiset(sub)[x] == multiset(sub[..b])[x] + multiset(sub[b..])[x] >= 2;
        DistinctIdsOccurOnce(qs, x);
      } else {
        assert i != j;
      }
    }
  }
}
