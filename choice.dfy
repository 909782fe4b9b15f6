/**
 * The engine shared by the multiple-choice and emoji-sequence puzzles: both
 * look up a question by level, let the player pick one of four options, compare
 * the picked option's text with the answer, count attempts, and lock the
 * options and the submit button while a result is showing.
 */
module Choice {
  import opened Wrappers
  import opened Levels

  /** One row of a choice table; `sequence` is empty for the multiple-choice questions. */
  datatype Question = Question(level: int, prompt: string, sequence: seq<string>, options: seq<string>, answer: string)

  function LevelOf(q: Question): int { q.level }

  /** `puzzles.find(p => p.level === Math.min(currentLevel, 6))`. */
  function QuestionFor(puzzles: seq<Question>, currentLevel: int): Option<Question> {
    FindByLevel(puzzles, LevelOf, ClampLevel(currentLevel))
  }

  predicate PairwiseDistinct(s: seq<string>) {
    forall i, j :: 0 <= i < j < |s| ==> s[i] != s[j]
  }

  /** Four options, no two alike (they are the React keys), and the answer among them. */
  predicate WellFormed(q: Question) {
    |q.options| == 4 && PairwiseDistinct(q.options) && q.answer in q.options
  }

  /** `puzzle.options[selected] === puzzle.answer`: the text is compared, not the position. */
  predicate IsCorrectChoice(q: Question, selected: nat)
    requires selected < |q.options|
  {
    q.options[selected] == q.answer
  }

  /** The first position of `x` in `s`. */
  function IndexOf(s: seq<string>, x: string): (r: nat)
    requires x in s
    ensures r < |s| && s[r] == x
    ensures forall j :: 0 <= j < r ==> s[j] != x
  {
    if s[0] == x then 0 else 1 + IndexOf(s[1..], x)
  }

  /** The position of the answer among the options. */
  function AnswerIndex(q: Question): nat
    requires q.answer in q.options
  {
    IndexOf(q.options, q.answer)
  }

  /** With distinct options, exactly one position is right: the answer's. */
  lemma ChosenByValue(q: Question, selected: nat)
    requires WellFormed(q) && selected < |q.options|
    ensures IsCorrectChoice(q, selected) <==> selected == AnswerIndex(q)
  {
    var k := AnswerIndex(q);
    if selected < k {
      assert q.options[selected] != q.options[k];
    } else if k < selected {
      assert q.options[k] != q.options[selected];
    }
  }

  /** Once the answer is known to sit at `pos`, the right button is exactly the one at `pos`. */
  lemma ChosenAt(q: Question, pos: nat, selected: nat)
    requires WellFormed(q) && pos < |q.options| && q.options[pos] == q.answer
    requires selected < |q.options|
    ensures IsCorrectChoice(q, selected) <==> selected == pos
    ensures AnswerIndex(q) == pos
  {
    ChosenByValue(q, selected);
    ChosenByValue(q, pos);
  }

  // ---------------------------------------------------------------- the component

  class ChoiceGame {
    /** The component's question table. */
    const puzzles: seq<Question>
    var currentLevel: int
    /** `puzzle`, derived from `currentLevel` and recomputed whenever the level changes. */
    var question: Option<Question>
    /** The picked option's index, `null` as `None`. */
    var selected: Option<nat>
    var showResult: bool
    var isCorrect: bool
    var attempts: nat
    /** Completion timers started by correct answers that have not fired yet. */
    var pendingCompletions: nat

    /** Only an option that is on screen can be picked. */
    predicate SelectionOnScreen()
      reads this
    {
      selected.Some? ==> question.Some? && selected.value < |question.value.options|
    }

    /** Submit is disabled with nothing picked or while a result is showing. */
    predicate SubmitDisabled()
      reads this
    {
      selected.None? || showResult
    }

    constructor(puzzles: seq<Question>, currentLevel: int)
      ensures this.puzzles == puzzles && this.currentLevel == currentLevel
      ensures question == QuestionFor(puzzles, currentLevel)
      ensures selected == None && !showResult && !isCorrect && attempts == 0 && pendingCompletions == 0
      ensures SelectionOnScreen()
    {
      this.puzzles := puzzles;
      this.currentLevel := currentLevel;
      question := QuestionFor(puzzles, currentLevel);
      selected, showResult, isCorrect, attempts := None, false, false, 0;
      pendingCompletions := 0;
    }

    /** The reset effect on `[currentLevel]`; a started completion timer still fires. */
    method LevelChanged(newLevel: int)
      modifies this
      ensures currentLevel == newLevel && question == QuestionFor(puzzles, newLevel)
      ensures selected == None && !showResult && !isCorrect && attempts == 0
      ensures pendingCompletions == old(pendingCompletions)
      ensures SelectionOnScreen()
    {
      currentLevel := newLevel;
      question := QuestionFor(puzzles, newLevel);
      selected, showResult, isCorrect, attempts := None, false, false, 0;
    }

    /** `onClick={() => !showResult && setSelected(idx)}`: ignored while a result shows. */
    method ClickOption(idx: nat)
      requires question.Some? && idx < |question.value.options| && SelectionOnScreen()
      modifies this`selected
      ensures old(showResult) ==> unchanged(this)
      ensures !old(showResult) ==> selected == Some(idx)
      ensures SelectionOnScreen()
    {
      if !showResult {
        selected := Some(idx);
      }
    }

    /** `handleSubmit`: every submission counts; only a correct one starts the completion timer. */
    method HandleSubmit()
      requires question.Some? && selected.Some? && selected.value < |question.value.options|
      modifies this`isCorrect, this`showResult, this`attempts, this`pendingCompletions
      ensures isCorrect == IsCorrectChoice(question.value, selected.value)
      ensures WellFormed(question.value) ==> (isCorrect <==> selected.value == AnswerIndex(question.value))
      ensures showResult && attempts == old(attempts) + 1
      ensures pendingCompletions == old(pendingCompletions) + if isCorrect then 1 else 0
    {
      if WellFormed(question.value) {
        ChosenByValue(question.value, selected.value);
      }
      isCorrect := IsCorrectChoice(question.value, selected.value);
      showResult := true;
      attempts := attempts + 1;
      if isCorrect {
        pendingCompletions := pendingCompletions + 1;
      }
    }

    /**
     * A click on the submit button: a no-op while disabled. Once it has
     * submitted, a result is showing, so options and submit stay locked; after
     * a wrong answer no timer clears the result, and only a level change does.
     */
    method ClickSubmit()
      requires question.Some? && SelectionOnScreen()
      modifies this`isCorrect, this`showResult, this`attempts, this`pendingCompletions
      ensures old(SubmitDisabled()) ==> unchanged(this)
      ensures !old(SubmitDisabled()) ==>
        isCorrect == IsCorrectChoice(question.value, selected.value)
        && attempts == old(attempts) + 1
        && pendingCompletions == old(pendingCompletions) + (if isCorrect then 1 else 0)
      ensures !old(SubmitDisabled()) ==> showResult && SubmitDisabled()
    {
      if !SubmitDisabled() {
        HandleSubmit();
      }
    }

    /** The completion timer: `onLevelComplete()` with no argument (`None`), then the result hides. */
    method FireCompletionTimer() returns (reportedPiece: Option<int>)
      requires pendingCompletions > 0
      modifies this`showResult, this`pendingCompletions
      ensures reportedPiece == None
      ensures !showResult && pendingCompletions == old(pendingCompletions) - 1
    {
      reportedPiece := None;
      showResult := false;
      pendingCompletions := pendingCompletions - 1;
    }
  }
}
