/**
 * The quiz state machine: the current question list, the position in it,
 * one answer slot per question, the running score, and the entry year
 * computed when the quiz completes.
 */
module QuizStore {
  import opened Wrappers
  import opened Questions
  import opened TriviaData

  /** The question count used by `resetQuiz` and by `initializeQuiz` without an argument. */
  const DefaultQuestionCount: nat := 8

  /** `Array(n).fill(null)`. */
  function Unanswered(n: nat): (r: seq<Option<int>>)
    ensures |r| == n && forall i :: 0 <= i < n ==> r[i] == None
  {
    if n == 0 then [] else Unanswered(n - 1) + [None]
  }

  class TriviaStore {
    var questions: seq<Question>
    var currentQuestionIndex: nat
    /** None: not answered yet. */
    var answers: seq<Option<int>>
    var score: nat
    var isComplete: bool
    var entryYear: Option<int>

    /** One answer slot per question, and the index on a question (0 for an empty list). */
    ghost predicate Valid()
      reads this
    {
      |answers| == |questions| &&
      (if |questions| == 0 then currentQuestionIndex == 0 else currentQuestionIndex < |questions|)
    }

    /** The store's initial state: no questions, nothing answered, not complete. */
    constructor()
      ensures Valid()
      ensures questions == [] && answers == [] && currentQuestionIndex == 0
      ensures score == 0 && !isComplete && entryYear == None
    {
      questions := [];
      currentQuestionIndex := 0;
      answers := [];
      score := 0;
      isComplete := false;
      entryYear := None;
    }

    /**
     * `initializeQuiz`: a fresh selection from the bank, every answer slot
     * empty, at the first question, score 0, not complete, no entry year.
     */
    method InitializeQuiz(questionCount: nat)
      modifies this
      ensures Valid()
      ensures |questions| == Taken(questionCount, 4)
      ensures questionCount <= |Bank| ==> |questions| == questionCount
      ensures forall q :: q in questions ==> q in Bank
      ensures DistinctIds(questions)
      ensures |answers| == |questions| && forall i :: 0 <= i < |answers| ==> answers[i] == None
      ensures currentQuestionIndex == 0 && score == 0 && !isComplete && entryYear == None
    {
      var selected;
      ghost var selection;
      selected, selection := GetRandomQuestions(questionCount);
      questions := selected;
      currentQuestionIndex := 0;
      answers := Unanswered(|selected|);
      score := 0;
      isComplete := false;
      entryYear := None;
    }

    /**
     * `answerQuestion`: records the answer in the current slot and counts
     * it when it is the current question's correct answer. With no
     * questions the lookup of the current question fails (`failed`) and
     * nothing changes.
     */
    method AnswerQuestion(answerIndex: int) returns (failed: bool)
      requires Valid()
      modifies this
      ensures Valid()
      ensures failed <==> old(questions) == []
      ensures questions == old(questions) && currentQuestionIndex == old(currentQuestionIndex)
      ensures isComplete == old(isComplete) && entryYear == old(entryYear)
      ensures failed ==> answers == old(answers) && score == old(score)
      ensures !failed ==> answers == old(answers)[currentQuestionIndex := Some(answerIndex)]
      ensures !failed ==>
        score == old(score) + (if answerIndex == questions[currentQuestionIndex].correctAnswer then 1 else 0)
    {
      if currentQuestionIndex >= |questions| {
        return true;
      }
      var newAnswers := answers[currentQuestionIndex := Some(answerIndex)];
      var isCorrect := answerIndex == questions[currentQuestionIndex].correctAnswer;
      answers := newAnswers;
      score := if isCorrect then score + 1 else score;
      failed := false;
    }

    /**
     * `nextQuestion`: moves to the next question, or, on the last one (or
     * with no questions), stays and computes the results.
     */
    method NextQuestion()
      requires Valid()
      modifies this
      ensures Valid()
      ensures questions == old(questions) && answers == old(answers) && score == old(score)
      ensures old(currentQuestionIndex) + 1 < |questions| ==>
        currentQuestionIndex == old(currentQuestionIndex) + 1 &&
        isComplete == old(isComplete) && entryYear == old(entryYear)
      ensures old(currentQuestionIndex) + 1 >= |questions| ==>
        currentQuestionIndex == old(currentQuestionIndex) &&
        isComplete && entryYear == Some(EntryYear(score, |questions|))
    {
      var nextIndex := currentQuestionIndex + 1;
      if nextIndex >= |questions| {
        CalculateResults();
      } else {
        currentQuestionIndex := nextIndex;
      }
    }

    /** `resetQuiz`: `initializeQuiz` with the default count of eight. */
    method ResetQuiz()
      modifies this
      ensures Valid()
      ensures |questions| == DefaultQuestionCount
      ensures forall q :: q in questions ==> q in Bank
      ensures DistinctIds(questions)
      ensures |answers| == |questions| && forall i :: 0 <= i < |answers| ==> answers[i] == None
      ensures currentQuestionIndex == 0 && score == 0 && !isComplete && entryYear == None
    {
      BankLaidOut();
      InitializeQuiz(DefaultQuestionCount);
    }

    /** `calculateResults`: marks the quiz complete with the entry year for the score; nothing else changes. */
    method CalculateResults()
      modifies this
      ensures isComplete && entryYear == Some(EntryYear(old(score), |old(questions)|))
      ensures questions == old(questions) && answers == old(answers) && score == old(score)
      ensures currentQuestionIndex == old(currentQuestionIndex)
    {
      var year := EntryYear(score, |questions|);
      isComplete := true;
      entryYear := Some(year);
    }
  }
}
