/**
 * The emoji-sequence puzzle: six three-emoji sequences, each followed by four
 * emoji options, played on the shared choice engine.
 */
module EmojiSequence {
  import opened Wrappers
  import opened Levels
  import opened Choice
  import opened Emoji

  const NextQuestion: string := "Which emoji comes next?"

  const EmojiPuzzles: seq<Question> := [
    Question(1, NextQuestion, [PalmTree, Island, Anchor], [Parrot, Anchor, PalmTree, Island], Parrot),
    Question(2, NextQuestion, [Gem, Coin, WorldMap], [Compass, WorldMap, Gem, Coin], Compass),
    Question(3, NextQuestion, [Ship, Squid, Shark], [Crab, Squid, Ship, Shark], Crab),
    Question(4, NextQuestion, [Mermaid, Parrot, Trophy], [Coin, Trophy, Parrot, Mermaid], Coin),
    Question(5, NextQuestion, [Crab, Compass, Gem], [WorldMap, Crab, Compass, Gem], WorldMap),
    Question(6, NextQuestion, [Island, PalmTree, Ship], [Anchor, Island, PalmTree, Ship], Anchor)
  ]

  lemma EmojiLevels()
    ensures |EmojiPuzzles| == LastLevel
    ensures forall i :: 0 <= i < |EmojiPuzzles| ==> LevelOf(EmojiPuzzles[i]) == 1 + i
  {
  }

  /** Every row has four distinct options with the answer among them. */
  lemma EmojiWellFormed()
    ensures forall i :: 0 <= i < |EmojiPuzzles| ==> WellFormed(EmojiPuzzles[i])
  {
  }

  /** In every row the answer is the first option listed. */
  lemma EmojiAnswerFirst()
    ensures forall i :: 0 <= i < |EmojiPuzzles| ==>
      |EmojiPuzzles[i].options| > 0 && EmojiPuzzles[i].options[0] == EmojiPuzzles[i].answer
  {
  }

  /** Levels from 6 on show the level-6 sequence; only a level below 1 finds nothing. */
  lemma EmojiLookup(currentLevel: int)
    ensures QuestionFor(EmojiPuzzles, currentLevel).None? <==> currentLevel < 1
    ensures currentLevel >= 1 ==> QuestionFor(EmojiPuzzles, currentLevel) == Some(EmojiPuzzles[ClampLevel(currentLevel) - 1])
  {
    EmojiLevels();
    ClampedLookup(EmojiPuzzles, LevelOf, currentLevel);
  }

  /** At every level exactly one of the four buttons is right: the first. */
  lemma EmojiOneRightOption(currentLevel: int, selected: nat)
    requires currentLevel >= 1 && selected < 4
    ensures QuestionFor(EmojiPuzzles, currentLevel).Some?
    ensures var q := QuestionFor(EmojiPuzzles, currentLevel).value;
      |q.options| == 4 && (IsCorrectChoice(q, selected) <==> selected == 0)
  {
    EmojiLookup(currentLevel);
    EmojiWellFormed();
    EmojiAnswerFirst();
    ChosenAt(EmojiPuzzles[ClampLevel(currentLevel) - 1], 0, selected);
  }
}
