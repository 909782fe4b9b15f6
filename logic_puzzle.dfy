/**
 * The code-breaking puzzle: six numeric codes with a declared length, an input
 * box that keeps only digits up to that length, an answer check on the trimmed
 * input, an attempts counter and a completion timer.
 */
module LogicPuzzle {
  import opened Wrappers
  import opened Levels
  import opened Text

  datatype CodePuzzle = CodePuzzle(level: int, code: string, clue: string, length: nat)

  const CodePuzzles: seq<CodePuzzle> := [
    CodePuzzle(1, "357", "The code is a 3-digit number. The sum of the digits is 15. The digits are all different. The middle digit is 5.", 3),
    CodePuzzle(2, "2468", "The code is a 4-digit even number. All digits are even and increase by 2 each time.", 4),
    CodePuzzle(3, "2025", "The code is a 4-digit year. It is the current year.", 4),
    CodePuzzle(4, "314", "The code is the first three digits of Pi (without the decimal).", 3),
    CodePuzzle(5, "1234", "The code is a 4-digit sequence, each digit increases by 1.", 4),
    CodePuzzle(6, "7777", "The code is a 4-digit number, all digits are the same and lucky.", 4)
  ]

  function LevelOf(p: CodePuzzle): int { p.level }

  lemma CodePuzzlesLevels()
    ensures |CodePuzzles| == LastLevel
    ensures forall i :: 0 <= i < |CodePuzzles| ==> LevelOf(CodePuzzles[i]) == 1 + i
  {
  }

  /** Every code is a string of digits exactly as long as its declared length. */
  lemma CodesWellFormed()
    ensures forall i :: 0 <= i < |CodePuzzles| ==>
      AllDigits(CodePuzzles[i].code) && |CodePuzzles[i].code| == CodePuzzles[i].length
  {
  }

  /** `codePuzzles.find(p => p.level === Math.min(currentLevel, 6))`. */
  function PuzzleFor(currentLevel: int): Option<CodePuzzle> {
    FindByLevel(CodePuzzles, LevelOf, ClampLevel(currentLevel))
  }

  /** Levels from 6 on show the level-6 code; only a level below 1 finds nothing. */
  lemma PuzzleLookup(currentLevel: int)
    ensures PuzzleFor(currentLevel).None? <==> currentLevel < 1
    ensures currentLevel >= 1 ==> PuzzleFor(currentLevel) == Some(CodePuzzles[ClampLevel(currentLevel) - 1])
  {
    CodePuzzlesLevels();
    ClampedLookup(CodePuzzles, LevelOf, currentLevel);
  }

  // ---------------------------------------------------------------- the input box

  /** `value.replace(/\D/g, '').slice(0, length)`. */
  function Sanitise(raw: string, length: nat): (r: string)
    ensures AllDigits(r) && |r| <= length
  {
    Take(DigitsOnly(raw), length)
  }

  /**
   * The sanitiser keeps a well-formed entry as it is, so the code itself can
   * be typed, and sanitising twice is the same as once.
   */
  lemma SanitiseKeepsCodes(raw: string, length: nat)
    ensures AllDigits(raw) && |raw| <= length ==> Sanitise(raw, length) == raw
    ensures Sanitise(Sanitise(raw, length), length) == Sanitise(raw, length)
  {
  }

  /** `userInput.trim() === puzzle.code`. */
  predicate IsCorrectCode(input: string, code: string) {
    Trim(input) == code
  }

  /** On sanitised input the trim does nothing: the entry is right exactly when it is the code. */
  lemma DigitEntryCheck(input: string, code: string)
    requires AllDigits(input)
    ensures IsCorrectCode(input, code) <==> input == code
  {
    DigitsTrimmed(input);
  }

  /** At every level the level's code passes the sanitiser unchanged, fills the box and is accepted. */
  lemma CodeCanBeTyped(currentLevel: int)
    requires currentLevel >= 1
    ensures PuzzleFor(currentLevel).Some?
    ensures var p := PuzzleFor(currentLevel).value;
      Sanitise(p.code, p.length) == p.code && |p.code| == p.length && IsCorrectCode(p.code, p.code)
  {
    PuzzleLookup(currentLevel);
    CodesWellFormed();
    var p := PuzzleFor(currentLevel).value;
    SanitiseKeepsCodes(p.code, p.length);
    DigitEntryCheck(p.code, p.code);
  }

  // ---------------------------------------------------------------- the component

  class LogicPuzzleGame {
    var currentLevel: int
    /** `puzzle`, derived from `currentLevel` and recomputed whenever the level changes. */
    var currentPuzzle: Option<CodePuzzle>
    var userInput: string
    var showResult: bool
    var isCorrect: bool
    var attempts: nat
    /** Completion timers started by correct answers that have not fired yet. */
    var pendingCompletions: nat

    /** Whatever is in the box went through the sanitiser. */
    predicate InputWellFormed()
      reads this
    {
      currentPuzzle.Some? ==> AllDigits(userInput) && |userInput| <= currentPuzzle.value.length
    }

    predicate InputDisabled()
      reads this
    {
      showResult && isCorrect
    }

    /** Submit needs exactly `length` digits and no correct result showing. */
    predicate SubmitDisabled()
      reads this
      requires currentPuzzle.Some?
    {
      |userInput| != currentPuzzle.value.length || (showResult && isCorrect)
    }

    constructor(currentLevel: int)
      ensures this.currentLevel == currentLevel && currentPuzzle == PuzzleFor(currentLevel)
      ensures userInput == [] && !showResult && !isCorrect && attempts == 0 && pendingCompletions == 0
      ensures InputWellFormed()
    {
      var puzzle := PuzzleFor(currentLevel);
      this.currentLevel, currentPuzzle := currentLevel, puzzle;
      userInput, showResult, isCorrect, attempts := [], false, false, 0;
      pendingCompletions := 0;
    }

    /** The reset effect on `[currentLevel]`; a started completion timer still fires. */
    method LevelChanged(newLevel: int)
      modifies this
      ensures currentLevel == newLevel && currentPuzzle == PuzzleFor(newLevel)
      ensures userInput == [] && !showResult && !isCorrect && attempts == 0
      ensures pendingCompletions == old(pendingCompletions)
      ensures InputWellFormed()
    {
      var puzzle := PuzzleFor(newLevel);
      currentLevel, currentPuzzle := newLevel, puzzle;
      userInput, showResult, isCorrect, attempts := [], false, false, 0;
    }

    /** Typing: the box keeps the sanitised text, unless it is disabled. */
    method Type(raw: string)
      requires currentPuzzle.Some?
      modifies this`userInput
      ensures userInput == if old(InputDisabled()) then old(userInput) else Sanitise(raw, currentPuzzle.value.length)
      ensures old(InputWellFormed()) ==> InputWellFormed()
    {
      if !InputDisabled() {
        userInput := Sanitise(raw, currentPuzzle.value.length);
      }
    }

    /** `handleSubmit`: every submission counts; only a correct one starts the completion timer. */
    method HandleSubmit()
      requires currentPuzzle.Some?
      modifies this`isCorrect, this`showResult, this`attempts, this`pendingCompletions
      ensures isCorrect == IsCorrectCode(userInput, currentPuzzle.value.code)
      ensures InputWellFormed() ==> (isCorrect <==> userInput == currentPuzzle.value.code)
      ensures showResult && attempts == old(attempts) + 1
      ensures pendingCompletions == old(pendingCompletions) + if isCorrect then 1 else 0
    {
      if InputWellFormed() {
        DigitEntryCheck(userInput, currentPuzzle.value.code);
      }
      isCorrect := IsCorrectCode(userInput, currentPuzzle.value.code);
      showResult := true;
      attempts := attempts + 1;
      if isCorrect {
        pendingCompletions := pendingCompletions + 1;
      }
    }

    /** A click on the submit button does nothing while it is disabled. */
    method ClickSubmit()
      requires currentPuzzle.Some?
      modifies this`isCorrect, this`showResult, this`attempts, this`pendingCompletions
      ensures old(SubmitDisabled()) ==> unchanged(this)
      ensures !old(SubmitDisabled()) ==>
        isCorrect == IsCorrectCode(userInput, currentPuzzle.value.code)
        && showResult && attempts == old(attempts) + 1
        && pendingCompletions == old(pendingCompletions) + (if isCorrect then 1 else 0)
      ensures isCorrect && showResult ==> SubmitDisabled() && InputDisabled()
    {
      if !SubmitDisabled() {
        HandleSubmit();
      }
    }

    /** `handleKeyPress`: Enter submits whatever the length of the entry; other keys do nothing. */
    method KeyPress(key: string)
      requires currentPuzzle.Some?
      modifies this`isCorrect, this`showResult, this`attempts, this`pendingCompletions
      ensures key != "Enter" || old(InputDisabled()) ==> unchanged(this)
      ensures key == "Enter" && !old(InputDisabled()) ==>
        isCorrect == IsCorrectCode(userInput, currentPuzzle.value.code)
        && showResult && attempts == old(attempts) + 1
        && pendingCompletions == old(pendingCompletions) + (if isCorrect then 1 else 0)
    {
      if key == "Enter" && !InputDisabled() {
        HandleSubmit();
      }
    }

    /** The completion timer: `onLevelComplete()` with no argument (`None`), then the result hides. */
    method FireCompletionTimer() returns (reportedPiece: Option<int>)
      requires pendingCompletions > 0
      modifies this`showResult, this`pendingCompletions
      ensures reportedPiece == None
      ensures !showResult && pendingCompletions == old(pendingCompletions) - 1
    {
      reportedPiece := None;
      showResult := false;
      pendingCompletions := pendingCompletions - 1;
    }
  }
}
