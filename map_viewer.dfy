/**
 * The treasure map page: a tab per game, that game's pieces and final image,
 * the "all collected" test that shows the claim section, the simulated claim
 * with its busy flag, and the route of the "Continue Quest" button.
 */
module MapViewer {
  import opened Wrappers
  import opened Pieces
  import opened Navigation

  datatype GameTab = GameTab(key: string, caption: string)

  const GameTabs: seq<GameTab> := [
    GameTab("wordPuzzle", "Word Puzzle"),
    GameTab("memoryMatch", "Memory Match"),
    GameTab("logicPuzzle", "Logic Puzzle"),
    GameTab("multipleChoice", "Multiple Choice"),
    GameTab("riddleQuest", "Riddle Quest"),
    GameTab("emojiSequence", "Emoji Sequence")
  ]

  /** The tabs are the six games, in the order of `GameKeys`. */
  lemma TabsAreTheGames()
    ensures |GameTabs| == |GameKeys|
    ensures forall i :: 0 <= i < |GameTabs| ==> GameTabs[i].key == GameKeys[i]
  {
  }

  /** `userProgress[`${selectedGame}Pieces`] || []`. */
  function PiecesFor(progress: ProgressView, key: string): (pieces: seq<MapPiece>)
    ensures PiecesField(key) in progress.pieceLists ==> pieces == progress.pieceLists[PiecesField(key)]
    ensures PiecesField(key) !in progress.pieceLists ==> pieces == []
  {
    if PiecesField(key) in progress.pieceLists then progress.pieceLists[PiecesField(key)] else []
  }

  /** `userProgress[`${selectedGame}FinalImage`] || ''`: a missing hash reads as the empty string. */
  function FinalImageFor(progress: ProgressView, key: string): (hash: string)
    ensures FinalImageField(key) in progress.finalImages ==> hash == progress.finalImages[FinalImageField(key)]
    ensures FinalImageField(key) !in progress.finalImages ==> hash == ""
  {
    if FinalImageField(key) in progress.finalImages then progress.finalImages[FinalImageField(key)] else ""
  }

  /** `allPiecesCollected`: there is at least one piece and every piece is collected. */
  function AllPiecesCollected(pieces: seq<MapPiece>): (all: bool)
    ensures all <==> |pieces| > 0 && CountCollected(pieces) == |pieces|
    ensures all ==> forall i :: 0 <= i < |pieces| ==> pieces[i].collected
    ensures pieces == [] ==> !all
  {
    |pieces| > 0 && EveryCollected(pieces)
  }

  /** The map reads a game's pieces from that game's own property only, unlike the navigation bar's fallback. */
  lemma MapHasNoFallback(progress: ProgressView, key: string)
    requires PiecesField(key) !in progress.pieceLists
    ensures !AllPiecesCollected(PiecesFor(progress, key))
    ensures CountCollected(PiecesFor(progress, key)) == 0
  {
  }

  /** `gameRouteMap[selectedGame] || 'word-puzzle'`. */
  function GameRoute(key: string): (route: string)
    ensures forall i :: 0 <= i < |GameKeys| ==> key == GameKeys[i] ==> route == GameRoutes[i]
    ensures key !in GameKeys ==> route == "word-puzzle"
    ensures route in GameRoutes
  {
    match key
    case "wordPuzzle" => "word-puzzle"
    case "memoryMatch" => "memory-match"
    case "logicPuzzle" => "logic-puzzle"
    case "multipleChoice" => "multiple-choice"
    case "riddleQuest" => "riddle-quest"
    case "emojiSequence" => "emoji-sequence"
    case _ => "word-puzzle"
  }

  /** The map's route table and the navigation bar's key switch invert each other on the six games. */
  lemma RouteRoundTrip(key: string)
    requires key in GameKeys
    ensures GetCurrentGameKey(GameRoute(key)) == key
  {
  }

  /** Every game page routes back to itself; any other page goes to the word puzzle. */
  lemma PageRoundTrip(page: string)
    ensures page in GameRoutes ==> GameRoute(GetCurrentGameKey(page)) == page
    ensures page !in GameRoutes ==> GameRoute(GetCurrentGameKey(page)) == "word-puzzle"
  {
  }

  /** The part of the page below the pieces. */
  datatype ClaimSection =
    | ClaimButton(disabled: bool)   // all collected, not yet claimed
    | ClaimedBanner                 // all collected and claimed: "View in Profile"
    | ContinueQuest(route: string)  // pieces still missing

  function ClaimSectionFor(pieces: seq<MapPiece>, hasClaimedNFT: bool, isClaiming: bool, selectedGame: string): (section: ClaimSection)
    ensures section.ClaimButton? <==> AllPiecesCollected(pieces) && !hasClaimedNFT
    ensures section.ClaimButton? ==> section.disabled == isClaiming
    ensures section.ClaimedBanner? <==> AllPiecesCollected(pieces) && hasClaimedNFT
    ensures section.ContinueQuest? ==> section.route == GameRoute(selectedGame)
  {
    if !AllPiecesCollected(pieces) then ContinueQuest(GameRoute(selectedGame))
    else if !hasClaimedNFT then ClaimButton(isClaiming)
    else ClaimedBanner
  }

  // ---------------------------------------------------------------- the component

  class MapViewerState {
    var selectedGame: string
    var showAnimation: bool
    var isClaiming: bool
    /** Claims whose three-second wait has not ended yet. */
    var pendingClaims: nat
    /** How many times `onClaimNFT` has been called. */
    var claimCalls: nat

    /** A tab is selected, and a claim is in flight exactly while the button shows it is. */
    predicate Valid()
      reads this
    {
      selectedGame in GameKeys && pendingClaims == (if isClaiming then 1 else 0)
    }

    constructor()
      ensures selectedGame == "wordPuzzle" && !showAnimation && !isClaiming
      ensures pendingClaims == 0 && claimCalls == 0
      ensures Valid()
    {
      selectedGame, showAnimation, isClaiming := "wordPuzzle", false, false;
      pendingClaims, claimCalls := 0, 0;
    }

    /** A tab click selects the game and stops the reveal animation. */
    method SelectTab(key: string)
      requires Valid() && key in GameKeys
      modifies this`selectedGame, this`showAnimation
      ensures selectedGame == key && !showAnimation
      ensures Valid()
    {
      selectedGame, showAnimation := key, false;
    }

    /** The animation effect: it switches the animation on once the selected game is complete, and never off. */
    method AnimationEffect(progress: ProgressView)
      modifies this`showAnimation
      ensures showAnimation <==> old(showAnimation) || AllPiecesCollected(PiecesFor(progress, selectedGame))
    {
      if AllPiecesCollected(PiecesFor(progress, selectedGame)) && !showAnimation {
        showAnimation := true;
      }
    }

    /** A click on the claim button starts a claim, and only when the button is on screen and enabled. */
    method ClickClaim(progress: ProgressView, hasClaimedNFT: bool)
      requires Valid()
      modifies this`isClaiming, this`pendingClaims
      ensures var section := ClaimSectionFor(PiecesFor(progress, selectedGame), hasClaimedNFT, old(isClaiming), selectedGame);
        if section.ClaimButton? && !section.disabled then isClaiming && pendingClaims == 1
        else unchanged(this)
      ensures Valid()
    {
      var section := ClaimSectionFor(PiecesFor(progress, selectedGame), hasClaimedNFT, isClaiming, selectedGame);
      if section.ClaimButton? && !section.disabled {
        isClaiming, pendingClaims := true, 1;
      }
    }

    /** The end of the wait in `handleClaimNFT`: `onClaimNFT` is called once and the button is released. */
    method FinishClaim()
      requires Valid() && pendingClaims > 0
      modifies this`isClaiming, this`pendingClaims, this`claimCalls
      ensures claimCalls == old(claimCalls) + 1
      ensures !isClaiming && pendingClaims == 0
      ensures Valid()
    {
      claimCalls := claimCalls + 1;
      isClaiming, pendingClaims := false, 0;
    }
  }

  /**
   * A whole claim from a click on the enabled button: `onClaimNFT` runs exactly
   * once and the page ends with `isClaiming` false.
   */
  method ClaimOnce(m: MapViewerState, progress: ProgressView)
    requires m.Valid() && !m.isClaiming
    requires AllPiecesCollected(PiecesFor(progress, m.selectedGame))
    modifies m
    ensures m.claimCalls == old(m.claimCalls) + 1 && !m.isClaiming && m.Valid()
  {
    m.ClickClaim(progress, false);
    m.FinishClaim();
  }
}
