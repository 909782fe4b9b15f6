/**
 * The profile page: a loop that picks the first game whose pieces are all
 * collected, and a view that shows either the locked notice or the claimed NFT
 * with that game's final image and name.
 */
module ProfilePage {
  import opened Wrappers
  import opened Pieces
  import MapViewer

  /** `GAME_NAMES`; `Object.keys` walks it in insertion order, which is `GameKeys`. */
  const GameNames: map<string, string> := map[
    "wordPuzzle" := "Word Puzzle",
    "memoryMatch" := "Memory Match",
    "logicPuzzle" := "Logic Puzzle",
    "multipleChoice" := "Multiple Choice",
    "riddleQuest" := "Riddle Quest",
    "emojiSequence" := "Emoji Sequence"
  ]

  /** The profile page names the games as the map's tabs do, and knows exactly the six games. */
  lemma GameNamesAgree()
    ensures forall k :: k in GameNames <==> k in GameKeys
    ensures forall i :: 0 <= i < |GameKeys| ==> GameNames[GameKeys[i]] == MapViewer.GameTabs[i].caption
  {
  }

  /**
   * `pieces && pieces.every(p => p.collected)`: the list is present and has no
   * uncollected piece. A present empty list is truthy, so it passes.
   */
  predicate Completed(progress: ProgressView, key: string) {
    PiecesField(key) in progress.pieceLists && EveryCollected(progress.pieceLists[PiecesField(key)])
  }

  /** The first key of `keys` whose game is completed. */
  function FirstCompletedGame(progress: ProgressView, keys: seq<string>): (r: Option<string>)
    ensures r.None? <==> forall i :: 0 <= i < |keys| ==> !Completed(progress, keys[i])
    ensures r.Some? ==> exists i :: (0 <= i < |keys| && keys[i] == r.value && Completed(progress, keys[i])
      && forall j :: 0 <= j < i ==> !Completed(progress, keys[j]))
  {
    if keys == [] then None
    else if Completed(progress, keys[0]) then Some(keys[0])
    else
      var rest := FirstCompletedGame(progress, keys[1..]);
      assert forall i :: 1 <= i < |keys| ==> keys[i] == keys[1..][i - 1];
      rest
  }

  /**
   * The search loop: both results stay `null` (`None`) without a progress
   * record or a completed game; otherwise the first completed game in
   * `GameKeys` order and the final image stored under the same key (`None`
   * when that property is missing).
   */
  method FindCompletedGame(userProgress: Option<ProgressView>) returns (completedGame: Option<string>, finalImageHash: Option<string>)
    ensures userProgress.None? ==> completedGame.None? && finalImageHash.None?
    ensures userProgress.Some? ==> completedGame == FirstCompletedGame(userProgress.value, GameKeys)
    ensures completedGame.Some? ==> (completedGame.value in GameKeys && userProgress.Some?
      && finalImageHash == Lookup(userProgress.value.finalImages, FinalImageField(completedGame.value)))
    ensures completedGame.None? ==> finalImageHash.None?
  {
    completedGame, finalImageHash := None, None;
    if userProgress.Some? {
      var progress := userProgress.value;
      var i := 0;
      while i < |GameKeys|
        invariant 0 <= i <= |GameKeys|
        invariant completedGame.None? && finalImageHash.None?
        invariant FirstCompletedGame(progress, GameKeys) == FirstCompletedGame(progress, GameKeys[i..])
      {
        var key := GameKeys[i];
        if Completed(progress, key) {
          completedGame := Some(key);
          finalImageHash := Lookup(progress.finalImages, FinalImageField(key));
          break;
        }
        assert GameKeys[i..][1..] == GameKeys[i + 1..];
        i := i + 1;
      }
    }
  }

  /** A property read that may find nothing. */
  function Lookup(m: map<string, string>, field: string): (r: Option<string>)
    ensures r.Some? <==> field in m
    ensures r.Some? ==> r.value == m[field]
  {
    if field in m then Some(m[field]) else None
  }

  /**
   * A present but empty pieces list completes a game here, while the map page
   * calls the same list incomplete; a missing list is skipped.
   */
  lemma EmptyListContrast(progress: ProgressView, key: string)
    requires PiecesField(key) in progress.pieceLists && progress.pieceLists[PiecesField(key)] == []
    ensures Completed(progress, key)
    ensures !MapViewer.AllPiecesCollected(MapViewer.PiecesFor(progress, key))
  {
  }

  /** Games without a pieces list are passed over: the search answers as if they were not listed. */
  lemma {:induction false} MissingListsSkipped(progress: ProgressView, keys: seq<string>, key: string)
    requires PiecesField(key) !in progress.pieceLists
    ensures FirstCompletedGame(progress, [key] + keys) == FirstCompletedGame(progress, keys)
  {
    assert ([key] + keys)[1..] == keys;
  }

  /** What the page shows below its title. */
  datatype ProfileView =
    | NotClaimed
    | Claimed(imageUrl: Option<string>, gameName: string)

  const IpfsGateway: string := "https://ipfs.io/ipfs/"

  /** `completedGame ? GAME_NAMES[completedGame] : 'Unknown'`. */
  function GameLabel(completedGame: Option<string>): (name: string)
    ensures completedGame.None? ==> name == "Unknown"
    ensures completedGame.Some? && completedGame.value in GameNames ==> name == GameNames[completedGame.value]
  {
    if completedGame.Some? && completedGame.value in GameNames then GameNames[completedGame.value]
    else "Unknown"
  }

  /**
   * The claimed or unclaimed branch; the image appears only for a truthy hash,
   * behind the public IPFS gateway.
   */
  function ViewFor(userProgress: Option<ProgressView>, completedGame: Option<string>, finalImageHash: Option<string>): (v: ProfileView)
    ensures v.NotClaimed? <==> !(userProgress.Some? && userProgress.value.hasClaimedNFT)
    ensures v.Claimed? ==> (v.imageUrl.Some? <==> Truthy(finalImageHash))
    ensures v.Claimed? && v.imageUrl.Some? ==> v.imageUrl.value == IpfsGateway + finalImageHash.value
    ensures v.Claimed? ==> v.gameName == GameLabel(completedGame)
  {
    if !(userProgress.Some? && userProgress.value.hasClaimedNFT) then NotClaimed
    else Claimed(if Truthy(finalImageHash) then Some(IpfsGateway + finalImageHash.value) else None, GameLabel(completedGame))
  }

  /** Which branch shows depends on `hasClaimedNFT` alone, not on which games are complete. */
  lemma BranchIgnoresPieces(p: ProgressView, q: ProgressView, c1: Option<string>, h1: Option<string>, c2: Option<string>, h2: Option<string>)
    requires p.hasClaimedNFT == q.hasClaimedNFT
    ensures ViewFor(Some(p), c1, h1).NotClaimed? == ViewFor(Some(q), c2, h2).NotClaimed?
  {
  }

  /** A claimed profile with no completed game names the game `Unknown` and shows no image. */
  method RenderProfile(userProgress: Option<ProgressView>) returns (v: ProfileView)
    ensures v == ViewFor(userProgress, if userProgress.Some? then FirstCompletedGame(userProgress.value, GameKeys) else None,
      if userProgress.Some? && FirstCompletedGame(userProgress.value, GameKeys).Some?
      then Lookup(userProgress.value.finalImages, FinalImageField(FirstCompletedGame(userProgress.value, GameKeys).value))
      else None)
    ensures v.Claimed? && (forall i :: 0 <= i < |GameKeys| ==> !Completed(userProgress.value, GameKeys[i])) ==>
      v.gameName == "Unknown" && v.imageUrl.None?
  {
    var completedGame, finalImageHash := FindCompletedGame(userProgress);
    v := ViewFor(userProgress, completedGame, finalImageHash);
  }
}
