# TreasureHunt game logic in Dafny

TreasureHunt is a browser treasure hunt. The player solves six levels of puzzles:
a word puzzle, memory match, a logic code, multiple choice, a riddle quest and an
emoji sequence. Completed levels are meant to collect treasure-map pieces. A full
map can be claimed as an NFT, and the metadata goes to IPFS.

This project models the decision logic of that program and proves properties of it:

- **Mint decision** (`Integration`). Three chain checks choose between a real
  contract mint and a fabricated mock mint. A failed real mint is sorted into
  "fall back to the mock" or "rethrow". The token id is read from the first ERC-721
  `Transfer` event of the receipt.
- **Metadata upload** (`Ipfs`). A config index walks a fixed provider list, an
  upload retries at most once, and a `localStorage` fallback lives under
  `ipfs_fallback_<hash>`.
- **Progress store** (`App`). This covers `collectMapPiece`, `claimNFT`, the "all
  collected" flag, and saving and loading the whole progress object.
- **Memory match** (`MemoryMatch`): the deck, the shuffle, the flip guard, moves,
  pair resolution and completion.
- **Puzzle engines** (`WordPuzzle`, `LogicPuzzle`, `MultipleChoice`,
  `EmojiSequence`, `RiddleQuest`, with the shared `Choice` engine). Each has a
  level lookup, an answer predicate, an attempts counter, a reset on level change
  and facts about its data table.
- **Navigation bar, map page and profile page** (`Navigation`, `MapViewer`,
  `ProfilePage`): route and game-key mappings, counts of collected pieces, the
  short wallet address, the claim section, and the search for the first completed
  game.

Shared helpers live in `Wrappers` (`Option`, `Result`) and `Text`. `Text` holds ASCII
case mapping (JavaScript's Unicode case mapping is left out, see below), `String.prototype.trim` over the JavaScript white-space set,
`includes`, the digit filter, `slice` and decimal rendering. `Levels` has the
`Math.min(currentLevel, 6)` clamp and `find` by level. `Pieces` has map pieces, the
`every`/`filter` counts and the per-game progress properties. `Emoji` has the emoji
literals.

How the model is built:

- Each React component's state cells are the fields of a class. Each handler or
  effect is a method that states the component's whole new state.
- A `setTimeout` callback is a separate `Fire...Timer` method. Pending timers are
  fields, such as `pendingCompletions`, a `flipTimer` or a `completionTimer`.
- Values the component derives from `currentLevel` on every render (the puzzle,
  riddle, question or level data) are fields recomputed whenever the level changes.
- Answers from the outside world are parameters. That includes the wallet,
  provider and contract, the IPFS client, `Math.random`, `Date.now` and
  `localStorage` write failures.

Where the written description of the game differs from the code, the model follows
the code:

- `collectMapPiece` raises the level with no cap.
- It marks the piece whose id equals its argument, and the word puzzle passes no
  argument.
- `App` keeps four pieces under `mapPieces`, not per-game lists.
- An owner mismatch before a real mint is only logged, not an error.
- In the word puzzle, the congratulations screen shows only for a level below 1.
  Every level from 6 on shows the level-6 puzzle.

## Model

| member | source | states |
|---|---|---|
| Integration.DeployedCharacterisation | src/integration.js:91-97 | the contract counts as deployed exactly when the bytecode has at least three characters and is not `0x0`; a provider error means not deployed |
| Integration.AddressCheckIgnoresCase | src/integration.js:101-113 | the address check compares lower-cased addresses, so the signer address's case does not matter, and the configured contract address itself, in any case, fails the check |
| Integration.TestContract | src/integration.js:117-136 | the contract test reports working exactly when `name`, `symbol` and `owner` all answer, and it then carries those three answers |
| Integration.FirstTransfer | src/integration.js:206-217 | the token id is that of the first receipt log that parses as `Transfer`; unparseable logs and logs of other events are skipped; none when no log is a transfer |
| Integration.FindTransferTokenId | src/integration.js:206-217 | the `for ... break` scan over the receipt logs returns exactly the first-transfer token id |
| Integration.MockMint | src/integration.js:243-275 | a mock result is tagged `isReal=false`, `isMock=true`; its tx hash starts with `0x`; its token id is a decimal in 1..10000; its receipt is a mock receipt with the same hash |
| Integration.RealMint | src/integration.js:219-224 | a real result is tagged `isReal=true` with no `isMock` field; its token id is the decimal of the transfer's id, or `Unknown` |
| Integration.MintNFT | src/integration.js:139-240 | the step-by-step `shouldUseMock` flag and log scan give the decision `MintDecision`. The first two calls are the address and bytecode checks. The contract test runs exactly when those two pass. The owner read and the `mintNFT` send happen exactly when all three checks pass and `getContract(true)` does not throw, and the send always carries the given recipient and URI |
| Integration.MockChosenExactly | src/integration.js:147-236 | a mock result comes out exactly when a check fails, or when a checked real mint fails with one of the three known signatures |
| Integration.ErrorRethrownUnchanged | src/integration.js:225-239 | an error is thrown exactly when a checked real mint fails without a known signature, and it is the original message |
| Integration.TagsExclusive | src/integration.js:219-274 | every result is tagged either real (no `isMock`) or mock (`isMock=true`), never both and never neither |
| Integration.OwnerCheckIgnored | src/integration.js:186-196 | whatever the contract reports as its owner, the mint outcome is the same |
| Integration.KnownSignatureFallsBack | src/integration.js:229-236 | a failed real mint whose message contains a known signature anywhere falls back to the mock |
| Ipfs.WalkFrom | src/utils/ipfs.js:24-37 | the config walk stops at the first config from the start index that `create` accepts, or at the config count; every config skipped was rejected |
| Ipfs.IpfsUploader.constructor | src/utils/ipfs.js:21-40 | loading the module starts at config 0 and runs the walk; a client exists exactly when the walk stopped inside the list |
| Ipfs.IpfsUploader.CreateIPFSClient | src/utils/ipfs.js:24-37 | the index only moves forward and stays within the config count; null is returned exactly at the end of the list, and then `ipfs` keeps its old value |
| Ipfs.IpfsUploader.UploadToIPFS | src/utils/ipfs.js:42-73 | the upload never fails and always answers `ipfs://...`; it calls `add` at most twice; the retry runs only after stepping the index, on whatever client `ipfs` then holds; otherwise it uses the fallback storage |
| Ipfs.IpfsUploader.UploadToFallbackStorage | src/utils/ipfs.js:76-92 | exactly the key `ipfs_fallback_<hash>` is written, with `hash` starting `bafkreif`, and `ipfs://<hash>` is answered; when the write throws nothing is written and the constant default URI is answered |
| Ipfs.FallbackLookup | src/utils/ipfs.js:108-116 | the fallback read answers the stored text under `ipfs_fallback_<cid>` when it is present and non-empty, and otherwise the "Could not retrieve" error for that cid |
| Ipfs.IpfsUploader.GetFromIPFS | src/utils/ipfs.js:94-118 | with a client that answers, the content; otherwise the fallback read |
| Ipfs.FallbackRoundTrip | src/utils/ipfs.js:82-113 | what the fallback stores is read back under its bare hash, while the full `ipfs://` URI it answered misses that key |
| Ipfs.FallbackUriShape | src/utils/ipfs.js:79-90 | every URI the fallback answers, the default included, starts with `ipfs://bafkreif` |
| App.InitialProgressShape | src/App.jsx:14-24 | a fresh game is at level 1 with four uncollected pieces with ids 1 to 4 in order, and nothing claimed or completed |
| App.CollectPieces | src/App.jsx:46-50 | the list keeps its length, order, ids and hashes; exactly the pieces whose id equals the argument become collected at the given time; every other piece is unchanged |
| App.CollectNeverUncollects | src/App.jsx:46-50 | collecting never lowers the number of collected pieces |
| App.NoArgumentCollectsNothing | src/App.jsx:43-53 | called with no argument, `collectMapPiece` leaves the pieces as they were and advances the level by one |
| App.WordPuzzleNeverCollects | src/App.jsx:43-53 | after any number of word-puzzle completions, which pass no argument, the pieces are unchanged and the level has grown by that number |
| App.FreshGameNeverCompletes | src/App.jsx:14-53 | so from a fresh game the map is never completed through the word puzzle |
| App.ClaimRecordsTimestamp | src/App.jsx:55-62 | claiming sets `hasClaimedNFT`, keeps pieces and level, and records the token id `THG-` followed by the decimal timestamp |
| App.SaveThenLoad | src/App.jsx:27-37 | with the stored JSON text taken to be the record itself, loading after a save gives back exactly the saved progress, whatever was stored before |
| App.TreasureHuntApp.constructor | src/App.jsx:14-37 | on mount, the saved progress replaces the initial one when there is one, and the result is written back |
| App.TreasureHuntApp.CollectMapPiece | src/App.jsx:35-53 | the state becomes the collected progress and the whole object is saved under `treasureHuntProgress` |
| App.TreasureHuntApp.ClaimNFT | src/App.jsx:35-62 | the state becomes the claimed progress and the whole object is saved |
| App.TreasureHuntApp.AllPiecesCollected | src/App.jsx:64 | all pieces are collected exactly when the collected count is the whole list, which includes an empty list |
| MemoryMatch.MemoryLevelsShape | src/components/MemoryMatchGame.jsx:4-59 | the table holds levels 1 to 6 in order, each with four pairs with ids 1 to 4 |
| MemoryMatch.LevelDataLookup | src/components/MemoryMatchGame.jsx:69 | the level data is the entry of level `min(currentLevel, 6)`, and level 1 for a level below 1 |
| MemoryMatch.LevelDataFor | src/components/MemoryMatchGame.jsx:69 | whatever the level, the level data has four pairs |
| MemoryMatch.ShuffleOrdersByKeys | src/components/MemoryMatchGame.jsx:61-66 | the order of the random draws decides the deck: draws that already ascend, ties included, deal the cards in the order given, because the sort is stable |
| MemoryMatch.SortByKeySorts | src/components/MemoryMatchGame.jsx:64 | the stable insertion sort orders the tagged cards by their random keys |
| MemoryMatch.ShuffleKeepsCounts | src/components/MemoryMatchGame.jsx:61-66 | the shuffle keeps how many items satisfy any property |
| MemoryMatch.ShufflePermutes | src/components/MemoryMatchGame.jsx:61-66 | the shuffle only permutes: the shuffled cards form the same multiset as the cards given |
| MemoryMatch.DeckHasEachPairTwice | src/components/MemoryMatchGame.jsx:78 | whatever the random draws, every level's deck has eight cards and each pair id 1 to 4 exactly twice |
| MemoryMatch.AppendMatchedPair | src/components/MemoryMatchGame.jsx:102-106 | appending a pair of distinct, unmatched, equal-id cards keeps `matched` a duplicate-free list of agreeing pairs within the deck |
| MemoryMatch.FullListHasEveryIndex | src/components/MemoryMatchGame.jsx:87 | when every card is matched, every index is in `matched` |
| MemoryMatch.FreshBoardValid | src/components/MemoryMatchGame.jsx:76-84 | a freshly dealt board of any level, with nothing flipped or matched and no timers, satisfies the board invariant |
| MemoryMatch.MemoryMatchGame.constructor | src/components/MemoryMatchGame.jsx:69-84 | mounting deals the shuffled deck of the looked-up level, with nothing flipped or matched, no moves and no timers |
| MemoryMatch.MemoryMatchGame.HandleFlip | src/components/MemoryMatchGame.jsx:95-111 | a flip is ignored while two cards are up or when the card is already up or matched. Otherwise it is appended to `flipped`. Only the second card of a pair counts a move and starts the pair timer, a match or a mismatch by equal ids. The board invariant is kept |
| MemoryMatch.MemoryMatchGame.FireFlipTimer | src/components/MemoryMatchGame.jsx:86-109 | a match appends both indices to `matched` and a mismatch does not; either way `flipped` is cleared; the level completes exactly when every card is matched, and only then does the completion timer start |
| MemoryMatch.MemoryMatchGame.FireCompletionTimer | src/components/MemoryMatchGame.jsx:89-91 | the completion timer reports the current level, which is completed with every card matched |
| MemoryMatch.MemoryMatchGame.LevelChanged | src/components/MemoryMatchGame.jsx:76-84 | a level change deals the new level's deck and clears flipped, matched, moves and completed; the board invariant holds |
| MemoryMatch.MemoryMatchGame.LevelChangedAsWritten | src/components/MemoryMatchGame.jsx:76-93 | a level change as the component runs it, with the completion effect seeing the old `matched`. After a completed level the new board is marked completed with nothing matched, and the new level is reported complete. This breaks the board invariant |
| MemoryMatch.StaleCompletionDue | src/components/MemoryMatchGame.jsx:87 | a completed board of any level passes the completion check of every other level |
| WordPuzzle.PuzzlesShape | src/components/WordPuzzleGame.jsx:7-44 | the table holds levels 1 to 6 in order, each word non-empty, upper-case and without surrounding white space |
| WordPuzzle.PuzzleLookup | src/components/WordPuzzleGame.jsx:57-67 | only a level below 1 finds no puzzle, which is when the congratulations screen shows; every level from 6 on shows the level-6 puzzle |
| WordPuzzle.HintOf | src/components/WordPuzzleGame.jsx:7-44 | a hint is the word's first letter followed by ` _` for each remaining letter |
| WordPuzzle.HintsRevealFirstLetter | src/components/WordPuzzleGame.jsx:7-44 | every table hint is exactly that hint of its word |
| WordPuzzle.AcceptedAnswers | src/components/WordPuzzleGame.jsx:86 | with ASCII case mapping, an answer is accepted exactly when some white-space padding of a text, upper-cased, is the word; so, for ASCII input, case and surrounding white space are ignored and nothing else is |
| WordPuzzle.BlankIsWrong | src/components/WordPuzzleGame.jsx:86 | a blank input is never a correct answer |
| WordPuzzle.ProgressLabel | src/components/WordPuzzleGame.jsx:127 | the progress label is `currentLevel - 1` up to level 6 and 6 beyond; it never exceeds 6 and reaches 6 exactly past level 6 |
| WordPuzzle.WordPuzzleGame.constructor | src/components/WordPuzzleGame.jsx:50-57 | mounting looks up the puzzle and starts with empty input, no result, the hint hidden and no attempts |
| WordPuzzle.WordPuzzleGame.LevelChanged | src/components/WordPuzzleGame.jsx:59-65 | a level change looks up the new puzzle and resets input, result, correctness, hint and attempts; a started completion timer still fires |
| WordPuzzle.WordPuzzleGame.Type | src/components/WordPuzzleGame.jsx:148-153 | typing replaces the input unless the input is disabled by a correct result |
| WordPuzzle.WordPuzzleGame.ToggleHint | src/components/WordPuzzleGame.jsx:157 | the hint button flips the hint's visibility |
| WordPuzzle.WordPuzzleGame.HandleSubmit | src/components/WordPuzzleGame.jsx:85-97 | every submission adds exactly one attempt and shows the result; only a correct answer starts the completion timer |
| WordPuzzle.WordPuzzleGame.ClickSubmit | src/components/WordPuzzleGame.jsx:164-165 | a disabled submit does nothing. After a correct answer both input and submit are locked. After a wrong one, submit stays enabled exactly when the input is not blank |
| WordPuzzle.WordPuzzleGame.KeyPress | src/components/WordPuzzleGame.jsx:99-103 | Enter submits even a blank entry unless the input is locked by a correct result; every other key does nothing |
| WordPuzzle.WordPuzzleGame.FireCompletionTimer | src/components/WordPuzzleGame.jsx:91-95 | the completion timer calls `onLevelComplete` with no argument and hides the result |
| LogicPuzzle.CodePuzzlesLevels | src/components/LogicPuzzleGame.jsx:4-41 | the table holds levels 1 to 6 in order |
| LogicPuzzle.CodesWellFormed | src/components/LogicPuzzleGame.jsx:4-41 | every code is a string of digits exactly as long as its declared length |
| LogicPuzzle.PuzzleLookup | src/components/LogicPuzzleGame.jsx:44 | only a level below 1 finds no code, and every level from 6 on shows the level-6 code |
| LogicPuzzle.Sanitise | src/components/LogicPuzzleGame.jsx:134 | the sanitised input holds only digits and is at most the code length |
| LogicPuzzle.SanitiseKeepsCodes | src/components/LogicPuzzleGame.jsx:134 | the sanitiser keeps a well-formed entry as it is, and sanitising twice is the same as once |
| LogicPuzzle.DigitEntryCheck | src/components/LogicPuzzleGame.jsx:76 | on sanitised input the trim does nothing, so an entry is right exactly when it is the code |
| LogicPuzzle.CodeCanBeTyped | src/components/LogicPuzzleGame.jsx:134 | at every level the level's code passes the sanitiser unchanged, fills the box and is accepted |
| LogicPuzzle.LogicPuzzleGame.constructor | src/components/LogicPuzzleGame.jsx:43-48 | mounting looks up the code and starts with empty, well-formed input and no attempts |
| LogicPuzzle.LogicPuzzleGame.LevelChanged | src/components/LogicPuzzleGame.jsx:50-55 | a level change looks up the new code and resets input, result and attempts |
| LogicPuzzle.LogicPuzzleGame.Type | src/components/LogicPuzzleGame.jsx:134-138 | typing stores the sanitised text unless the input is disabled, and keeps the input well formed |
| LogicPuzzle.LogicPuzzleGame.HandleSubmit | src/components/LogicPuzzleGame.jsx:75-86 | every submission adds one attempt. On sanitised input, the answer is correct exactly when it is the code. Only a correct answer starts the completion timer |
| LogicPuzzle.LogicPuzzleGame.ClickSubmit | src/components/LogicPuzzleGame.jsx:141-142 | submit does nothing unless the entry has exactly the code's length and no correct result shows; a correct result locks input and submit |
| LogicPuzzle.LogicPuzzleGame.KeyPress | src/components/LogicPuzzleGame.jsx:99-103 | Enter submits whatever the length of the entry, unless the input is locked by a correct result; other keys do nothing |
| LogicPuzzle.LogicPuzzleGame.FireCompletionTimer | src/components/LogicPuzzleGame.jsx:80-83 | the completion timer calls `onLevelComplete` with no argument and hides the result |
| Choice.IndexOf | src/components/MultipleChoiceGame.jsx:76 | the first position of a value in the options |
| Choice.ChosenByValue | src/components/MultipleChoiceGame.jsx:76 | with pairwise distinct options, comparing the picked option's text with the answer picks exactly the answer's position |
| Choice.ChosenAt | src/components/EmojiSequenceGame.jsx:45 | once the answer is known to be at a position, exactly that button is right |
| Choice.ChoiceGame.constructor | src/components/MultipleChoiceGame.jsx:43-48 | mounting looks up the question and starts with nothing selected, no result and no attempts |
| Choice.ChoiceGame.LevelChanged | src/components/MultipleChoiceGame.jsx:50-55 | a level change looks up the new question and resets the selection, result and attempts |
| Choice.ChoiceGame.ClickOption | src/components/MultipleChoiceGame.jsx:133-134 | an option click selects that option, and does nothing while a result shows |
| Choice.ChoiceGame.HandleSubmit | src/components/MultipleChoiceGame.jsx:75-86 | every submission adds one attempt. With a well-formed question, the answer is correct exactly when the answer's position is picked. Only a correct answer starts the completion timer |
| Choice.ChoiceGame.ClickSubmit | src/components/MultipleChoiceGame.jsx:140-141 | submit does nothing with no selection or while a result shows; once it submits, options and submit stay locked until the level changes or a correct answer's timer fires |
| Choice.ChoiceGame.FireCompletionTimer | src/components/MultipleChoiceGame.jsx:80-83 | the completion timer calls `onLevelComplete` with no argument and hides the result |
| MultipleChoice.McqLevels | src/components/MultipleChoiceGame.jsx:4-41 | the table holds levels 1 to 6 in order |
| MultipleChoice.McqWellFormed | src/components/MultipleChoiceGame.jsx:4-41 | every question has four pairwise distinct options, and its answer is among them |
| MultipleChoice.McqAnswersAt | src/components/MultipleChoiceGame.jsx:4-41 | the answers sit at positions 2, 2, 3, 1, 1, 1 |
| MultipleChoice.McqLookup | src/components/MultipleChoiceGame.jsx:44 | only a level below 1 finds no question, and every level from 6 on shows the level-6 question |
| MultipleChoice.McqOneRightOption | src/components/MultipleChoiceGame.jsx:44-76 | at every level exactly one of the four buttons is right: the answer's position |
| EmojiSequence.EmojiLevels | src/components/EmojiSequenceGame.jsx:3-10 | the table holds levels 1 to 6 in order |
| EmojiSequence.EmojiWellFormed | src/components/EmojiSequenceGame.jsx:3-10 | every question has four pairwise distinct options, and its answer is among them |
| EmojiSequence.EmojiAnswerFirst | src/components/EmojiSequenceGame.jsx:3-10 | the answer is always the first option |
| EmojiSequence.EmojiLookup | src/components/EmojiSequenceGame.jsx:13 | only a level below 1 finds no question, and every level from 6 on shows the level-6 question |
| EmojiSequence.EmojiOneRightOption | src/components/EmojiSequenceGame.jsx:13-45 | at every level the answer is right exactly when the first button is picked |
| RiddleQuest.RiddlesLevels | src/components/RiddleQuestGame.jsx:3-10 | the table holds levels 1 to 6 in order |
| RiddleQuest.AnswersNormalised | src/components/RiddleQuestGame.jsx:3-10 | every answer is non-empty, has no upper-case letter and no surrounding white space |
| RiddleQuest.RiddleLookup | src/components/RiddleQuestGame.jsx:13 | only a level below 1 finds no riddle, and every level from 6 on shows the level-6 riddle |
| RiddleQuest.AcceptedAnswers | src/components/RiddleQuestGame.jsx:45 | with ASCII case mapping, an answer is accepted exactly when some white-space padding of a text, lower-cased, is the answer |
| RiddleQuest.AnswersReachable | src/components/RiddleQuestGame.jsx:3-45 | at every level the stored answer itself, and its upper-case form, are accepted |
| RiddleQuest.NormalisedIsAccepted | src/components/RiddleQuestGame.jsx:45 | a lower-case, trimmed answer is matched by itself and by its upper-case form |
| RiddleQuest.RiddleQuestGame.constructor | src/components/RiddleQuestGame.jsx:12-17 | mounting looks up the riddle and starts with empty input, no result and no attempts |
| RiddleQuest.RiddleQuestGame.LevelChanged | src/components/RiddleQuestGame.jsx:19-24 | a level change looks up the new riddle and resets input, result, correctness and attempts |
| RiddleQuest.RiddleQuestGame.Type | src/components/RiddleQuestGame.jsx:14 | typing replaces the input |
| RiddleQuest.RiddleQuestGame.HandleSubmit | src/components/RiddleQuestGame.jsx:44-55 | every submission adds one attempt and shows the result; only a correct answer starts the completion timer |
| RiddleQuest.RiddleQuestGame.KeyPress | src/components/RiddleQuestGame.jsx:68-72 | Enter always submits, and every other key does nothing |
| RiddleQuest.RiddleQuestGame.FireCompletionTimer | src/components/RiddleQuestGame.jsx:49-52 | the completion timer calls `onLevelComplete` with no argument and hides the result |
| Navigation.GetCurrentGameKey | src/components/Navigation.jsx:15-25 | each of the six game routes gives its game key; every other page gives `wordPuzzle` |
| Navigation.CurrentPieces | src/components/Navigation.jsx:27 | the pieces are the current game's list when present (even empty), else the word puzzle's list when present, else none |
| Navigation.CollectedPieces | src/components/Navigation.jsx:28 | the collected count never exceeds the number of pieces shown |
| Navigation.CompletionPercentage | src/components/Navigation.jsx:29 | the completion share is between 0 and 100; it is 0 without pieces or without a collected one, and exactly 100 when there are pieces and all are collected |
| Navigation.ShortenAddress | src/components/Navigation.jsx:31 | a falsy address gives the empty string; otherwise the first six characters, `...`, and the last four (all of a shorter address); an address of ten or more characters gives 13 characters |
| Navigation.ShortenedAddressShape | src/components/Navigation.jsx:31 | a long address shortens to 13 characters that contain `...` and keep its first six and last four |
| Navigation.MapBadge | src/components/Navigation.jsx:50 | the map badge is the collected count when positive, and absent otherwise |
| Navigation.ProfileLabel | src/components/Navigation.jsx:55 | the profile label is the short address with a wallet and `Connect Wallet` without one |
| Navigation.LabelShowsWallet | src/components/Navigation.jsx:55 | the label reads `Connect Wallet` exactly when no wallet is connected |
| Navigation.ProfileBadge | src/components/Navigation.jsx:56 | the profile badge shows exactly when the NFT is claimed |
| Navigation.DesktopProfileClick | src/components/Navigation.jsx:84-93 | the desktop profile button opens the profile exactly when a wallet is connected. Without one, it asks to connect when a handler is given and otherwise alerts |
| Navigation.MobileNavItems | src/components/Navigation.jsx:33-158 | the four mobile buttons, `profile` among them, each navigate to their own page with no guard, and no two to the same page |
| Navigation.MobileSkipsWalletGuard | src/components/Navigation.jsx:151-158 | without a wallet the mobile profile button opens the profile page, and the desktop one does not |
| MapViewer.TabsAreTheGames | src/components/MapViewer.jsx:5-12 | the tabs are the six games in key order |
| MapViewer.PiecesFor | src/components/MapViewer.jsx:38 | the pieces are the selected game's own list, and empty when it is missing |
| MapViewer.FinalImageFor | src/components/MapViewer.jsx:39 | the final image hash is the selected game's own, and empty when missing |
| MapViewer.AllPiecesCollected | src/components/MapViewer.jsx:40-55 | all pieces are collected exactly when there is at least one piece and the collected count is the whole list |
| MapViewer.MapHasNoFallback | src/components/MapViewer.jsx:38-40 | a game without a pieces list has nothing collected and is never complete on the map |
| MapViewer.GameRoute | src/components/MapViewer.jsx:265-273 | each game key gives its hyphenated route, and anything else gives `word-puzzle` |
| MapViewer.RouteRoundTrip | src/components/MapViewer.jsx:265-273 | for each game, the navigation bar maps the map page's route back to the same game key |
| MapViewer.PageRoundTrip | src/components/Navigation.jsx:15-25 | every game page routes back to itself through its key, and any other page routes to `word-puzzle` |
| MapViewer.ClaimSectionFor | src/components/MapViewer.jsx:206-280 | the claim button shows exactly when all pieces are collected and the NFT is not claimed, and it is disabled exactly while claiming. The claimed banner shows once claimed. Otherwise "Continue Quest" leads to the selected game's route |
| MapViewer.MapViewerState.constructor | src/components/MapViewer.jsx:31-35 | the page opens on the word puzzle with no animation and no claim in flight |
| MapViewer.MapViewerState.SelectTab | src/components/MapViewer.jsx:82 | a tab click selects that game and turns the animation off |
| MapViewer.MapViewerState.AnimationEffect | src/components/MapViewer.jsx:41-45 | the animation effect turns the animation on once the selected game is complete, and never turns it off |
| MapViewer.MapViewerState.ClickClaim | src/components/MapViewer.jsx:206-221 | a click starts a claim exactly when the claim button is shown and enabled |
| MapViewer.MapViewerState.FinishClaim | src/components/MapViewer.jsx:50-52 | at the end of the wait, `onClaimNFT` is called once and the button is released |
| MapViewer.ClaimOnce | src/components/MapViewer.jsx:47-53 | one claim from the enabled button calls `onClaimNFT` exactly once and ends with `isClaiming` false |
| ProfilePage.GameNamesAgree | src/components/ProfilePage.jsx:3-10 | the profile page knows exactly the six games and names them as the map's tabs do |
| ProfilePage.FirstCompletedGame | src/components/ProfilePage.jsx:18-25 | the search answers the first key whose pieces list is present and fully collected, with no earlier such key; it answers none exactly when no key qualifies |
| ProfilePage.FindCompletedGame | src/components/ProfilePage.jsx:15-26 | the `for ... break` loop finds exactly that first completed game, in `GAME_NAMES` order, and reads the final image under the same key; without progress or a completed game both stay null |
| ProfilePage.Lookup | src/components/ProfilePage.jsx:22 | a property read answers the stored value when present and nothing otherwise |
| ProfilePage.EmptyListContrast | src/components/ProfilePage.jsx:20 | a present but empty pieces list completes a game on the profile page, while the map page calls it incomplete |
| ProfilePage.MissingListsSkipped | src/components/ProfilePage.jsx:19-20 | a game without a pieces list is passed over as if it were not listed |
| ProfilePage.GameLabel | src/components/ProfilePage.jsx:64 | the game label is the game's name, or `Unknown` without a completed game |
| ProfilePage.ViewFor | src/components/ProfilePage.jsx:32-66 | the claimed view shows exactly when the progress says the NFT is claimed. The images appear exactly for a truthy hash, behind the `ipfs.io` gateway. The label names the completed game |
| ProfilePage.BranchIgnoresPieces | src/components/ProfilePage.jsx:32 | which branch shows depends on `hasClaimedNFT` alone |
| ProfilePage.RenderProfile | src/components/ProfilePage.jsx:15-66 | the page shows the view of the game the search finds. A claimed profile with no completed game names `Unknown` and shows no image |
| Levels.ClampLevel | src/components/WordPuzzleGame.jsx:57 | `Math.min(currentLevel, 6)`: the level itself up to 6, and 6 beyond |
| Levels.FindByLevel | src/components/LogicPuzzleGame.jsx:44 | `find` by level answers an entry of the table with that level, and none exactly when no entry has it |
| Levels.FindByLevelFirst | src/components/LogicPuzzleGame.jsx:44 | the entry `find` answers is the first with that level: every entry before it carries another level |
| Levels.FindInConsecutive | src/components/RiddleQuestGame.jsx:13 | in a table whose levels count up from `first`, `find` answers the entry at position `level - first` when it is in range, and none otherwise |
| Levels.ClampedLookup | src/components/EmojiSequenceGame.jsx:13 | in a table of levels 1 to 6, the clamped lookup finds nothing exactly below level 1, and otherwise the entry of the clamped level |
| Pieces.CountCollected | src/components/MapViewer.jsx:55 | the number of collected pieces is at most the list's length; it is the whole length exactly when every piece is collected and 0 exactly when none is |
| Text.TrimSplits | src/components/WordPuzzleGame.jsx:86 | `trim` removes a white-space prefix and suffix and leaves a text with no white space at either end |
| Text.TrimOf | src/components/RiddleQuestGame.jsx:45 | trimming a trimmed text padded with white space gives that text back |
| Text.TrimIdempotent | src/components/WordPuzzleGame.jsx:86 | trimming twice is trimming once |
| Text.TrimPadded | src/components/RiddleQuestGame.jsx:45 | padding an input with white space does not change what `trim` returns |
| Text.PaddedMatch | src/components/WordPuzzleGame.jsx:86 | a case-mapped, trimmed input equals a trimmed target exactly when the input is that target's preimage padded with white space |
| Text.TrimMapCommutes | src/components/WordPuzzleGame.jsx:86 | a character map that keeps white space, such as the case maps, commutes with `trim` |
| Text.UpperForgetsCase | src/components/WordPuzzleGame.jsx:86 | for the ASCII case maps, upper-casing forgets a prior lower-casing, leaves no lower-case letter, and keeps a text that has none |
| Text.LowerForgetsCase | src/components/RiddleQuestGame.jsx:45 | for the ASCII case maps, lower-casing forgets a prior upper-casing, leaves no upper-case letter, and keeps a text that has none |
| Text.ContainsIff | src/integration.js:230-232 | `includes` holds exactly when the text occurs at some position |
| Text.DigitsOnly | src/components/LogicPuzzleGame.jsx:134 | the digit filter leaves only digits, is no longer than its input and keeps an all-digit input |
| Text.DigitsTrimmed | src/components/LogicPuzzleGame.jsx:76 | a text of digits has no white space to trim |
| Text.NatToDecimal | src/integration.js:271 | the decimal text of a number is non-empty, all digits, and has no leading zero unless it is 0 |
| Text.DecimalRoundTrip | src/integration.js:271 | reading back the decimal text of a number gives that number |

## Left out

- AcceptedAnswers (in `WordPuzzle` and in `RiddleQuest`): case is mapped on ASCII
  letters only. JavaScript's `toUpperCase` and `toLowerCase` map all of Unicode, and
  some of those maps change a string's length (`ß` to `SS`, `ſ` to `S`, `ı` to `I`,
  the Kelvin sign U+212A to `k`). So the source also accepts answers such as `compaß`
  for `COMPASS`, which the model rejects.
- UpperForgetsCase: holds of the ASCII maps only. It is not claimed of JavaScript's
  Unicode `toUpperCase`, for which `"İ"` lower-cased and then upper-cased differs from
  `"İ"` upper-cased.
- LowerForgetsCase: holds of the ASCII maps only. It is not claimed of JavaScript's
  Unicode `toLowerCase`, for which `"ß"` upper-cased and then lower-cased is `"ss"`.
- The wallet, provider and contract plumbing of the chain client is not part of
  this model. Its answers are the fields of `ChainOracle`, where an error is an
  absent answer, or, for the mint itself, the message of the step that threw.
  The unit helpers and every other contract call are left out too.
- The IPFS client library's `create`, `add` and `cat` are inputs: the set of
  configs that `create` rejects, and an answer per call. `testIPFSConnection` is
  not modelled because it only probes the network. JSON encoding is left out: the
  stored data is the text itself.
- `Math.random` and `Date.now` are parameters within their bounds. The mock hash's
  random part, the shuffle's keys and the mock draws are inputs.
- `Ipfs.IpfsUploader.UploadToIPFS` and `GetFromIPFS` model the two awaited calls
  as one step each. They do not model interleaving with other calls.
- `App.CollectPieces` records the collection time as a number. The `Date` object
  is not modelled, nor how it turns into a string when saved.
- Loading takes the saved record as it is. Malformed JSON in storage is not
  modelled.
- Rendering, CSS, animations and the percentage widths of progress bars are left
  out. `Navigation.CompletionPercentage` is an exact ratio, not a floating-point
  value.
- The riddle page's markup is not modelled. It refers to names the component
  never defines, so it cannot render. `RiddleQuest.RiddleQuestGame.Type` and
  `KeyPress` are the handlers it would have used, with no guard.
- The map page's early return before its hooks is not modelled, and the page is
  taken to have progress. `App` passes the map page different props from the ones
  it reads, which is wiring and not modelled either. `App` keeps its pieces under
  `mapPieces`. The navigation bar, map and profile page read per-game lists
  (`<game>Pieces`), which is the `ProgressView` of this model.
- `MapViewer.MapViewerState.FinishClaim` does not model the page unmounting while
  a claim is in flight.
- `MemoryMatch.MemoryMatchGame.LevelChanged` requires that no flip or completion
  timer is pending. It does not model a timer from the old level that fires on the
  new board.
- `WordPuzzle.WordPuzzleGame.LevelChanged` and the other puzzles' `LevelChanged`
  do not cancel a pending completion timer, because the components do not cancel
  it either. Its firing after a level change is a separate step.
- `Choice.ChoiceGame` is the one engine behind both the multiple-choice and the
  emoji-sequence components. Their code is the same apart from the table.
- The home page, the game selection page, the deploy script, the web3 helper
  module and the Solidity contract are not part of this model.

## Findings

| source | as written | input that shows it | evidently intended | confidence | as-written member | corrected member |
|---|---|---|---|---|---|---|
| src/components/MemoryMatchGame.jsx:76-93 | the completion effect also runs when `currentLevel` changes, and it sees the finished level's `matched` list together with the new level's data | finish level 1 (eight cards matched), then move to level 2: the effect finds eight matched cards against level 2's four pairs, marks the new board completed with nothing matched, and reports level 2 complete after 1.5 s | a level change starts a fresh, uncompleted board, and only the level whose cards were matched is reported | not executed | MemoryMatch.MemoryMatchGame.LevelChangedAsWritten, MemoryMatch.StaleCompletionDue | MemoryMatch.MemoryMatchGame.LevelChanged |
