/**
 * The multiple-choice puzzle: six questions with four text options each,
 * played on the shared choice engine.
 */
module MultipleChoice {
  import opened Wrappers
  import opened Levels
  import opened Choice

  const McqPuzzles: seq<Question> := [
    Question(1, "Which direction does a compass needle always point?", [], ["East", "West", "North", "South"], "North"),
    Question(2, "What is typically found at the end of a treasure map?", [], ["A cave", "A ship", "An X", "A compass"], "An X"),
    Question(3, "Which of these is NOT a type of gemstone?", [], ["Ruby", "Emerald", "Sapphire", "Papaya"], "Papaya"),
    Question(4, "What do pirates traditionally say?", [], ["Meow", "Arrr!", "Yippee!", "Bonjour"], "Arrr!"),
    Question(5, "Which animal is often seen on a pirate\U{2019}s shoulder?", [], ["Cat", "Parrot", "Dog", "Monkey"], "Parrot"),
    Question(6, "What do you need to unlock a treasure chest?", [], ["A map", "A key", "A sword", "A ship"], "A key")
  ]

  lemma McqLevels()
    ensures |McqPuzzles| == LastLevel
    ensures forall i :: 0 <= i < |McqPuzzles| ==> LevelOf(McqPuzzles[i]) == 1 + i
  {
  }

  /** Every question has four distinct options with the answer among them. */
  lemma McqWellFormed()
    ensures forall i :: 0 <= i < |McqPuzzles| ==> WellFormed(McqPuzzles[i])
  {
  }

  const McqAnswerPositions: seq<nat> := [2, 2, 3, 1, 1, 1]

  /** The answer sits at positions 2, 2, 3, 1, 1, 1 for levels 1 to 6. */
  lemma McqAnswersAt()
    ensures |McqPuzzles| == |McqAnswerPositions|
    ensures forall i :: 0 <= i < |McqPuzzles| ==>
      McqAnswerPositions[i] < |McqPuzzles[i].options| && McqPuzzles[i].options[McqAnswerPositions[i]] == McqPuzzles[i].answer
  {
  }

  /** Levels from 6 on ask the level-6 question; only a level below 1 finds nothing. */
  lemma McqLookup(currentLevel: int)
    ensures QuestionFor(McqPuzzles, currentLevel).None? <==> currentLevel < 1
    ensures currentLevel >= 1 ==> QuestionFor(McqPuzzles, currentLevel) == Some(McqPuzzles[ClampLevel(currentLevel) - 1])
  {
    McqLevels();
    ClampedLookup(McqPuzzles, LevelOf, currentLevel);
  }

  /** At every level exactly one of the four buttons is right: the one at the listed position. */
  lemma McqOneRightOption(currentLevel: int, selected: nat)
    requires currentLevel >= 1 && selected < 4
    ensures QuestionFor(McqPuzzles, currentLevel).Some?
    ensures var q := QuestionFor(McqPuzzles, currentLevel).value;
      |q.options| == 4 &&
      (IsCorrectChoice(q, selected) <==> selected == McqAnswerPositions[ClampLevel(currentLevel) - 1])
  {
    McqLookup(currentLevel);
    McqWellFormed();
    McqAnswersAt();
    var i := ClampLevel(currentLevel) - 1;
    ChosenAt(McqPuzzles[i], McqAnswerPositions[i], selected);
  }
}
