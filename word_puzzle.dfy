/**
 * The word puzzle: six words with a clue and a hint each, an answer check that
 * ignores case and surrounding white space, an attempts counter, and a timer
 * that reports the solved level to the progress store.
 */
module WordPuzzle {
  import opened Wrappers
  import opened Levels
  import opened Text

  datatype Puzzle = Puzzle(level: int, word: string, clue: string, hint: string)

  const Puzzles: seq<Puzzle> := [
    Puzzle(1, "TREASURE", "Pirates bury this precious collection of gold and jewels", "T _ _ _ _ _ _ _"),
    Puzzle(2, "COMPASS", "This magnetic instrument always points to the north", "C _ _ _ _ _ _"),
    Puzzle(3, "ADVENTURE", "An exciting and daring journey into the unknown", "A _ _ _ _ _ _ _ _"),
    Puzzle(4, "LEGENDARY", "Something famous from ancient stories and myths", "L _ _ _ _ _ _ _ _"),
    Puzzle(5, "ISLAND", "A piece of land surrounded by water, often the site of hidden treasures", "I _ _ _ _ _"),
    Puzzle(6, "PARROT", "A colorful bird that often mimics speech and is a pirate\U{2019}s companion", "P _ _ _ _ _")
  ]

  function LevelOf(p: Puzzle): int { p.level }

  /** The table lists levels 1 to 6 in order; every word is upper case, non-empty and trimmed. */
  lemma PuzzlesShape()
    ensures |Puzzles| == LastLevel
    ensures forall i :: 0 <= i < |Puzzles| ==> LevelOf(Puzzles[i]) == 1 + i
    ensures forall i :: 0 <= i < |Puzzles| ==> Puzzles[i].word != [] && Trimmed(Puzzles[i].word)
    ensures forall i :: 0 <= i < |Puzzles| ==> NoLowerAscii(Puzzles[i].word)
  {
    WordsShape();
  }

  lemma WordsShape()
    ensures forall i :: 0 <= i < |Puzzles| ==> Puzzles[i].word != [] && Trimmed(Puzzles[i].word)
    ensures forall i :: 0 <= i < |Puzzles| ==> NoLowerAscii(Puzzles[i].word)
  {
  }

  /** `puzzles.find(p => p.level === Math.min(currentLevel, 6))`. */
  function PuzzleFor(currentLevel: int): Option<Puzzle> {
    FindByLevel(Puzzles, LevelOf, ClampLevel(currentLevel))
  }

  /**
   * Every level from 6 on shows the level-6 puzzle; only a level below 1 finds
   * nothing, which is when the congratulations screen is shown.
   */
  lemma PuzzleLookup(currentLevel: int)
    ensures PuzzleFor(currentLevel).None? <==> currentLevel < 1
    ensures currentLevel >= 1 ==> PuzzleFor(currentLevel) == Some(Puzzles[ClampLevel(currentLevel) - 1])
    ensures currentLevel >= LastLevel ==> PuzzleFor(currentLevel) == Some(Puzzles[LastLevel - 1])
  {
    PuzzlesShape();
    ClampedLookup(Puzzles, LevelOf, currentLevel);
  }

  // ---------------------------------------------------------------- hints

  /** `n` copies of `" _"`. */
  function Blanks(n: nat): (r: string)
    ensures |r| == 2 * n
    ensures forall k :: 0 <= k < |r| ==> r[k] == if k % 2 == 0 then ' ' else '_'
  {
    if n == 0 then "" else " _" + Blanks(n - 1)
  }

  /** The hint shape: the first letter, then one blank per remaining letter, separated by spaces. */
  function HintOf(word: string): (r: string)
    requires word != []
    ensures |r| == 2 * |word| - 1 && r[0] == word[0]
    ensures forall k :: 1 <= k < |r| ==> r[k] == if k % 2 == 1 then ' ' else '_'
  {
    [word[0]] + Blanks(|word| - 1)
  }

  /** Every stored hint reveals exactly the first letter of its word. */
  lemma HintsRevealFirstLetter()
    ensures forall i :: 0 <= i < |Puzzles| ==> Puzzles[i].word != [] && Puzzles[i].hint == HintOf(Puzzles[i].word)
  {
    forall i | 0 <= i < |Puzzles|
      ensures Puzzles[i].word != [] && Puzzles[i].hint == HintOf(Puzzles[i].word)
    {
      HintOfPuzzle(i);
    }
  }

  /** One row of the table at a time keeps each proof small. */
  lemma HintOfPuzzle(i: nat)
    requires i < |Puzzles|
    ensures Puzzles[i].word != [] && Puzzles[i].hint == HintOf(Puzzles[i].word)
  {
    if i == 0 { HintRow0(); } else if i == 1 { HintRow1(); } else if i == 2 { HintRow2(); }
    else if i == 3 { HintRow3(); } else if i == 4 { HintRow4(); } else { HintRow5(); }
  }
  lemma HintRow0() ensures Puzzles[0].word != [] && Puzzles[0].hint == HintOf(Puzzles[0].word) {
    assert Puzzles[0].word == "TREASURE";
  }
  lemma HintRow1() ensures Puzzles[1].word != [] && Puzzles[1].hint == HintOf(Puzzles[1].word) {
    assert Puzzles[1].word == "COMPASS";
  }
  lemma HintRow2() ensures Puzzles[2].word != [] && Puzzles[2].hint == HintOf(Puzzles[2].word) {
    assert Puzzles[2].word == "ADVENTURE";
  }
  lemma HintRow3() ensures Puzzles[3].word != [] && Puzzles[3].hint == HintOf(Puzzles[3].word) {
    assert Puzzles[3].word == "LEGENDARY";
  }
  lemma HintRow4() ensures Puzzles[4].word != [] && Puzzles[4].hint == HintOf(Puzzles[4].word) {
    assert Puzzles[4].word == "ISLAND";
  }
  lemma HintRow5() ensures Puzzles[5].word != [] && Puzzles[5].hint == HintOf(Puzzles[5].word) {
    assert Puzzles[5].word == "PARROT";
  }

  // ---------------------------------------------------------------- the answer

  /** `userInput.toUpperCase().trim() === currentPuzzle.word`. */
  predicate IsCorrectAnswer(input: string, word: string) {
    Trim(ToUpper(input)) == word
  }

  /**
   * An input is accepted exactly when it is the level's word, in any mix of
   * upper and lower case, with any white space before and after it.
   */
  lemma AcceptedAnswers(input: string, currentLevel: int)
    requires currentLevel >= 1
    ensures PuzzleFor(currentLevel).Some?
    ensures IsCorrectAnswer(input, PuzzleFor(currentLevel).value.word) <==>
      exists i, j :: 0 <= i <= j <= |input| && AllSpace(input[..i]) && AllSpace(input[j..])
                     && MapChars(input[i..j], UpperChar) == PuzzleFor(currentLevel).value.word
  {
    PuzzleLookup(currentLevel);
    PuzzlesShape();
    var word := PuzzleFor(currentLevel).value.word;
    assert Trimmed(word);
    CaseMapsKeepSpace();
    TrimMapCommutes(input, UpperChar);
    PaddedMatch(input, UpperChar, word);
  }

  /** Blank input (empty after `trim`) never matches a word. */
  lemma BlankIsWrong(input: string, word: string)
    requires Trim(input) == [] && word != []
    ensures !IsCorrectAnswer(input, word)
  {
    CaseMapsKeepSpace();
    TrimMapCommutes(input, UpperChar);
  }

  /** The `n/6` progress label: the number of finished levels, shown as 6 once past the last level. */
  function ProgressLabel(currentLevel: int): (r: int)
    ensures currentLevel >= 1 ==> 0 <= r
    ensures r <= LastLevel
    ensures r == LastLevel <==> currentLevel > LastLevel
    ensures currentLevel <= LastLevel ==> r == currentLevel - 1
  {
    if currentLevel > 6 then 6 else currentLevel - 1
  }

  // ---------------------------------------------------------------- the component

  class WordPuzzleGame {
    var currentLevel: int
    /** `currentPuzzle`, derived from `currentLevel` and recomputed whenever the level changes. */
    var currentPuzzle: Option<Puzzle>
    var userInput: string
    var showResult: bool
    var isCorrect: bool
    var showHint: bool
    var attempts: nat
    /** Completion timers started by correct answers that have not fired yet. */
    var pendingCompletions: nat

    /** The input box is disabled while a correct result is showing. */
    predicate InputDisabled()
      reads this
    {
      showResult && isCorrect
    }

    /** The submit button is disabled for blank input or while a correct result is showing. */
    predicate SubmitDisabled()
      reads this
    {
      Trim(userInput) == [] || (showResult && isCorrect)
    }

    constructor(currentLevel: int)
      ensures this.currentLevel == currentLevel && currentPuzzle == PuzzleFor(currentLevel) && userInput == []
      ensures !showResult && !isCorrect && !showHint && attempts == 0 && pendingCompletions == 0
    {
      var puzzle := PuzzleFor(currentLevel);
      this.currentLevel, currentPuzzle := currentLevel, puzzle;
      userInput, showResult, isCorrect, showHint, attempts := [], false, false, false, 0;
      pendingCompletions := 0;
    }

    /** The reset effect on `[currentLevel]`; an already started completion timer still fires. */
    method LevelChanged(newLevel: int)
      modifies this
      ensures currentLevel == newLevel && currentPuzzle == PuzzleFor(newLevel) && userInput == []
      ensures !showResult && !isCorrect && !showHint && attempts == 0
      ensures pendingCompletions == old(pendingCompletions)
    {
      var puzzle := PuzzleFor(newLevel);
      currentLevel, currentPuzzle := newLevel, puzzle;
      userInput, showResult, isCorrect, showHint, attempts := [], false, false, false, 0;
    }

    /** Typing into the input box; a disabled box takes no input. */
    method Type(value: string)
      requires currentPuzzle.Some?
      modifies this`userInput
      ensures userInput == if old(InputDisabled()) then old(userInput) else value
    {
      if !InputDisabled() {
        userInput := value;
      }
    }

    /** The hint button shows and hides the hint. */
    method ToggleHint()
      requires currentPuzzle.Some?
      modifies this`showHint
      ensures showHint == !old(showHint)
    {
      showHint := !showHint;
    }

    /** `handleSubmit`: every submission counts; only a correct one starts the completion timer. */
    method HandleSubmit()
      requires currentPuzzle.Some?
      modifies this`isCorrect, this`showResult, this`attempts, this`pendingCompletions
      ensures isCorrect == IsCorrectAnswer(userInput, currentPuzzle.value.word)
      ensures showResult && attempts == old(attempts) + 1
      ensures pendingCompletions == old(pendingCompletions) + if isCorrect then 1 else 0
    {
      isCorrect := IsCorrectAnswer(userInput, currentPuzzle.value.word);
      showResult := true;
      attempts := attempts + 1;
      if isCorrect {
        pendingCompletions := pendingCompletions + 1;
      }
    }

    /**
     * A click on the submit button. It does nothing while disabled; after a
     * correct answer the button and the input lock, after a wrong one a
     * non-blank input can be submitted again.
     */
    method ClickSubmit()
      requires currentPuzzle.Some?
      modifies this`isCorrect, this`showResult, this`attempts, this`pendingCompletions
      ensures old(SubmitDisabled()) ==> unchanged(this)
      ensures !old(SubmitDisabled()) ==>
        isCorrect == IsCorrectAnswer(userInput, currentPuzzle.value.word)
        && showResult && attempts == old(attempts) + 1
        && pendingCompletions == old(pendingCompletions) + (if isCorrect then 1 else 0)
      ensures isCorrect && showResult ==> SubmitDisabled() && InputDisabled()
      ensures !isCorrect ==> (SubmitDisabled() <==> Trim(userInput) == [])
    {
      if !SubmitDisabled() {
        HandleSubmit();
      }
    }

    /**
     * `handleKeyPress`: Enter submits, other keys do nothing. Unlike the button,
     * Enter is not guarded against blank input, so a blank entry counts as an
     * attempt (and is wrong, by `BlankIsWrong`).
     */
    method KeyPress(key: string)
      requires currentPuzzle.Some?
      modifies this`isCorrect, this`showResult, this`attempts, this`pendingCompletions
      ensures key != "Enter" || old(InputDisabled()) ==> unchanged(this)
      ensures key == "Enter" && !old(InputDisabled()) ==>
        isCorrect == IsCorrectAnswer(userInput, currentPuzzle.value.word)
        && showResult && attempts == old(attempts) + 1
        && pendingCompletions == old(pendingCompletions) + (if isCorrect then 1 else 0)
    {
      if key == "Enter" && !InputDisabled() {
        HandleSubmit();
      }
    }

    /**
     * The completion timer: it calls `onLevelComplete()` with no argument
     * (reported here as `None`) and hides the result.
     */
    method FireCompletionTimer() returns (reportedPiece: Option<int>)
      requires pendingCompletions > 0
      modifies this`showResult, this`pendingCompletions
      ensures reportedPiece == None
      ensures !showResult && pendingCompletions == old(pendingCompletions) - 1
    {
      reportedPiece := None;
      showResult := false;
      pendingCompletions := pendingCompletions - 1;
    }
  }
}
