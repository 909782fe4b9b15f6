/**
 * The riddle quest: six riddles with lower-case one-word answers, an answer
 * check that trims and lower-cases the input, an attempts counter and a
 * completion timer.
 */
module RiddleQuest {
  import opened Wrappers
  import opened Levels
  import opened Text

  datatype Riddle = Riddle(level: int, question: string, answer: string)

  const Riddles: seq<Riddle> := [
    Riddle(1, "What has keys but can\U{2019}t open locks?", "piano"),
    Riddle(2, "What has a heart that doesn\U{2019}t beat?", "artichoke"),
    Riddle(3, "What can travel around the world while staying in a corner?", "stamp"),
    Riddle(4, "What gets wetter the more it dries?", "towel"),
    Riddle(5, "What has a neck but no head?", "bottle"),
    Riddle(6, "What has hands but can\U{2019}t clap?", "clock")
  ]

  function LevelOf(r: Riddle): int { r.level }

  lemma RiddlesLevels()
    ensures |Riddles| == LastLevel
    ensures forall i :: 0 <= i < |Riddles| ==> LevelOf(Riddles[i]) == 1 + i
  {
  }

  /** Every stored answer is lower case, non-empty and has no white space at either end. */
  lemma AnswersNormalised()
    ensures forall i :: 0 <= i < |Riddles| ==>
      Riddles[i].answer != [] && NoUpperAscii(Riddles[i].answer) && Trimmed(Riddles[i].answer)
  {
  }

  /** `riddles.find(r => r.level === Math.min(currentLevel, 6))`. */
  function RiddleFor(currentLevel: int): Option<Riddle> {
    FindByLevel(Riddles, LevelOf, ClampLevel(currentLevel))
  }

  /** Levels from 6 on ask the level-6 riddle; only a level below 1 finds nothing. */
  lemma RiddleLookup(currentLevel: int)
    ensures RiddleFor(currentLevel).None? <==> currentLevel < 1
    ensures currentLevel >= 1 ==> RiddleFor(currentLevel) == Some(Riddles[ClampLevel(currentLevel) - 1])
  {
    RiddlesLevels();
    ClampedLookup(Riddles, LevelOf, currentLevel);
  }

  /** `userInput.trim().toLowerCase() === puzzle.answer`. */
  predicate IsCorrectAnswer(input: string, answer: string) {
    ToLower(Trim(input)) == answer
  }

  /**
   * An input is accepted exactly when it is the level's answer, in any mix of
   * upper and lower case, with any white space before and after it.
   */
  lemma AcceptedAnswers(input: string, currentLevel: int)
    requires currentLevel >= 1
    ensures RiddleFor(currentLevel).Some?
    ensures IsCorrectAnswer(input, RiddleFor(currentLevel).value.answer) <==>
      exists i, j :: 0 <= i <= j <= |input| && AllSpace(input[..i]) && AllSpace(input[j..])
                     && MapChars(input[i..j], LowerChar) == RiddleFor(currentLevel).value.answer
  {
    RiddleLookup(currentLevel);
    AnswersNormalised();
    CaseMapsKeepSpace();
    PaddedMatch(input, LowerChar, RiddleFor(currentLevel).value.answer);
  }

  /** Each stored answer can be matched: typed as stored or in capitals, it is accepted. */
  lemma AnswersReachable(currentLevel: int)
    requires currentLevel >= 1
    ensures RiddleFor(currentLevel).Some?
    ensures var answer := RiddleFor(currentLevel).value.answer;
      IsCorrectAnswer(answer, answer) && IsCorrectAnswer(ToUpper(answer), answer)
  {
    RiddleLookup(currentLevel);
    AnswersNormalised();
    NormalisedIsAccepted(RiddleFor(currentLevel).value.answer);
  }

  lemma NormalisedIsAccepted(answer: string)
    requires NoUpperAscii(answer) && Trimmed(answer)
    ensures IsCorrectAnswer(answer, answer) && IsCorrectAnswer(ToUpper(answer), answer)
  {
    CaseMapsKeepSpace();
    LowerForgetsCase(answer);
    TrimOf([], answer, []);
    assert [] + answer + [] == answer;
    TrimMapCommutes(answer, UpperChar);
  }

  // ---------------------------------------------------------------- the component

  class RiddleQuestGame {
    var currentLevel: int
    /** `puzzle`, derived from `currentLevel` and recomputed whenever the level changes. */
    var currentRiddle: Option<Riddle>
    var userInput: string
    var showResult: bool
    var isCorrect: bool
    var attempts: nat
    /** Completion timers started by correct answers that have not fired yet. */
    var pendingCompletions: nat

    constructor(currentLevel: int)
      ensures this.currentLevel == currentLevel && currentRiddle == RiddleFor(currentLevel)
      ensures userInput == [] && !showResult && !isCorrect && attempts == 0 && pendingCompletions == 0
    {
      var riddle := RiddleFor(currentLevel);
      this.currentLevel, currentRiddle := currentLevel, riddle;
      userInput, showResult, isCorrect, attempts := [], false, false, 0;
      pendingCompletions := 0;
    }

    /** The reset effect on `[currentLevel]`; a started completion timer still fires. */
    method LevelChanged(newLevel: int)
      modifies this
      ensures currentLevel == newLevel && currentRiddle == RiddleFor(newLevel)
      ensures userInput == [] && !showResult && !isCorrect && attempts == 0
      ensures pendingCompletions == old(pendingCompletions)
    {
      var riddle := RiddleFor(newLevel);
      currentLevel, currentRiddle := newLevel, riddle;
      userInput, showResult, isCorrect, attempts := [], false, false, 0;
    }

    /** `setUserInput`. */
    method Type(value: string)
      requires currentRiddle.Some?
      modifies this`userInput
      ensures userInput == value
    {
      userInput := value;
    }

    /** `handleSubmit`: every submission counts; only a correct one starts the completion timer. */
    method HandleSubmit()
      requires currentRiddle.Some?
      modifies this`isCorrect, this`showResult, this`attempts, this`pendingCompletions
      ensures isCorrect == IsCorrectAnswer(userInput, currentRiddle.value.answer)
      ensures showResult && attempts == old(attempts) + 1
      ensures pendingCompletions == old(pendingCompletions) + if isCorrect then 1 else 0
    {
      isCorrect := IsCorrectAnswer(userInput, currentRiddle.value.answer);
      showResult := true;
      attempts := attempts + 1;
      if isCorrect {
        pendingCompletions := pendingCompletions + 1;
      }
    }

    /** `handleKeyPress`: Enter submits and any other key does nothing. */
    method KeyPress(key: string)
      requires currentRiddle.Some?
      modifies this`isCorrect, this`showResult, this`attempts, this`pendingCompletions
      ensures key != "Enter" ==> unchanged(this)
      ensures key == "Enter" ==>
        isCorrect == IsCorrectAnswer(userInput, currentRiddle.value.answer)
        && showResult && attempts == old(attempts) + 1
        && pendingCompletions == old(pendingCompletions) + (if isCorrect then 1 else 0)
    {
      if key == "Enter" {
        HandleSubmit();
      }
    }

    /** The completion timer: `onLevelComplete()` with no argument (`None`), then the result hides. */
    method FireCompletionTimer() returns (reportedPiece: Option<int>)
      requires pendingCompletions > 0
      modifies this`showResult, this`pendingCompletions
      ensures reportedPiece == None
      ensures !showResult && pendingCompletions == old(pendingCompletions) - 1
    {
      reportedPiece := None;
      showResult := false;
      pendingCompletions := pendingCompletions - 1;
    }
  }
}
