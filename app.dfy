/**
 * The top-level progress store: the `userProgress` state cell, the two state
 * transformers the pages are given (`collectMapPiece`, `claimNFT`), the derived
 * "all pieces collected" flag, and the effects that load the progress from
 * `localStorage` on mount and write it back after every change.
 *
 * `new Date()` and `Date.now()` are parameters (`now`). The stored value is the
 * progress record itself; JSON text is not modelled.
 */
module App {
  import opened Wrappers
  import opened Text
  import opened Pieces

  /** The `userProgress` object. `nftTokenId` is absent until an NFT is claimed. */
  datatype UserProgress = UserProgress(
    currentLevel: int,
    mapPieces: seq<MapPiece>,
    hasClaimedNFT: bool,
    gamesCompleted: seq<string>,
    nftTokenId: Option<string>)

  /** The `localStorage` key the progress is saved under. */
  const ProgressKey: string := "treasureHuntProgress"

  /** The initial state of `userProgress`. */
  const InitialProgress: UserProgress := UserProgress(
    1,
    [ MapPiece(1, false, "Qm1...", None),
      MapPiece(2, false, "Qm2...", None),
      MapPiece(3, false, "Qm3...", None),
      MapPiece(4, false, "Qm4...", None) ],
    false,
    [],
    None)

  /** A fresh game: level 1, four uncollected pieces with ids 1 to 4 in order, nothing claimed or completed. */
  lemma InitialProgressShape()
    ensures InitialProgress.currentLevel == 1
    ensures |InitialProgress.mapPieces| == 4
    ensures forall i :: 0 <= i < 4 ==> InitialProgress.mapPieces[i].id == i + 1
    ensures CountCollected(InitialProgress.mapPieces) == 0
    ensures !EveryCollected(InitialProgress.mapPieces)
    ensures !InitialProgress.hasClaimedNFT && InitialProgress.gamesCompleted == []
  {
    assert !InitialProgress.mapPieces[0].collected;
  }

  /**
   * The `mapPieces.map(...)` of `collectMapPiece`: a piece whose id is strictly
   * equal to `pieceId` is marked collected at `now`; every other piece is kept.
   * `pieceId` is None when the caller passes no argument (`undefined`), which no
   * numeric id equals.
   */
  function CollectPieces(pieces: seq<MapPiece>, pieceId: Option<int>, now: int): (r: seq<MapPiece>)
    ensures |r| == |pieces|
    ensures forall i :: 0 <= i < |r| ==> r[i].id == pieces[i].id && r[i].ipfsHash == pieces[i].ipfsHash
    ensures forall i :: 0 <= i < |r| && pieceId == Some(pieces[i].id) ==>
              r[i].collected && r[i].collectedAt == Some(now)
    ensures forall i :: 0 <= i < |r| && pieceId != Some(pieces[i].id) ==> r[i] == pieces[i]
  {
    if pieces == [] then []
    else
      var piece := pieces[0];
      var head := if pieceId == Some(piece.id) then piece.(collected := true, collectedAt := Some(now)) else piece;
      [head] + CollectPieces(pieces[1..], pieceId, now)
  }

  /** `collectMapPiece(pieceId)` applied to `prev`: mark the matching pieces and advance the level by one, with no cap. */
  function Collect(prev: UserProgress, pieceId: Option<int>, now: int): UserProgress {
    prev.(mapPieces := CollectPieces(prev.mapPieces, pieceId, now), currentLevel := prev.currentLevel + 1)
  }

  /** `claimNFT()` applied to `prev`: the NFT is claimed with token id `THG-<now>`. */
  function Claim(prev: UserProgress, now: nat): UserProgress {
    prev.(hasClaimedNFT := true, nftTokenId := Some("THG-" + NatToDecimal(now)))
  }

  /** The mount-time load: a saved progress replaces the current one wholesale. */
  function LoadProgress(storage: map<string, UserProgress>, current: UserProgress): UserProgress {
    if ProgressKey in storage then storage[ProgressKey] else current
  }

  /** `collectMapPiece` only ever adds collected pieces: the collected count never drops. */
  lemma {:induction false} CollectNeverUncollects(pieces: seq<MapPiece>, pieceId: Option<int>, now: int)
    ensures CountCollected(CollectPieces(pieces, pieceId, now)) >= CountCollected(pieces)
  {
    if pieces != [] {
      CollectNeverUncollects(pieces[1..], pieceId, now);
      assert CollectPieces(pieces, pieceId, now)[1..] == CollectPieces(pieces[1..], pieceId, now);
    }
  }

  /**
   * Called with no argument, as the word puzzle calls it, `collectMapPiece`
   * collects nothing but still advances the level.
   */
  lemma NoArgumentCollectsNothing(prev: UserProgress, now: int)
    ensures Collect(prev, None, now).mapPieces == prev.mapPieces
    ensures Collect(prev, None, now).currentLevel == prev.currentLevel + 1
  {
  }

  /** `n` completions of the word puzzle, each calling `collectMapPiece()` with no argument. */
  function WordPuzzleRun(p: UserProgress, n: nat, now: int): UserProgress
    decreases n
  {
    if n == 0 then p else WordPuzzleRun(Collect(p, None, now), n - 1, now)
  }

  /** However many word levels are completed, the pieces stay as they were and only the level grows. */
  lemma {:induction false} WordPuzzleNeverCollects(p: UserProgress, n: nat, now: int)
    ensures WordPuzzleRun(p, n, now).mapPieces == p.mapPieces
    ensures WordPuzzleRun(p, n, now).currentLevel == p.currentLevel + n
    decreases n
  {
    if n > 0 {
      NoArgumentCollectsNothing(p, now);
      WordPuzzleNeverCollects(Collect(p, None, now), n - 1, now);
    }
  }

  /** So from a fresh game, the map is never completed through the word puzzle. */
  lemma FreshGameNeverCompletes(n: nat, now: int)
    ensures !EveryCollected(WordPuzzleRun(InitialProgress, n, now).mapPieces)
  {
    WordPuzzleNeverCollects(InitialProgress, n, now);
    assert !InitialProgress.mapPieces[0].collected;
  }

  /** `claimNFT` keeps pieces and level, and its token id carries the timestamp it was given. */
  lemma ClaimRecordsTimestamp(prev: UserProgress, now: nat)
    ensures Claim(prev, now).hasClaimedNFT
    ensures Claim(prev, now).mapPieces == prev.mapPieces && Claim(prev, now).currentLevel == prev.currentLevel
    ensures Claim(prev, now).nftTokenId.Some?
    ensures var id := Claim(prev, now).nftTokenId.value;
            "THG-" <= id && AllDigits(id[4..]) && DecimalValue(id[4..]) == now
  {
    var id := Claim(prev, now).nftTokenId.value;
    assert id[4..] == NatToDecimal(now);
    DecimalRoundTrip(now);
  }

  /** Saving writes the whole object; loading it back gives exactly what was saved. */
  lemma SaveThenLoad(storage: map<string, UserProgress>, p: UserProgress, current: UserProgress)
    ensures LoadProgress(storage[ProgressKey := p], current) == p
  {
  }

  /** The `App` component's state: the `userProgress` cell and the browser's `localStorage`. */
  class TreasureHuntApp {
    var userProgress: UserProgress
    var localStorage: map<string, UserProgress>

    /**
     * Mounting: the state starts as the initial progress, the load effect replaces it
     * by the saved progress if there is one, and the save effect writes the result back.
     */
    constructor (storage: map<string, UserProgress>)
      ensures userProgress == LoadProgress(storage, InitialProgress)
      ensures localStorage == storage[ProgressKey := userProgress]
    {
      var progress := InitialProgress;
      if ProgressKey in storage {
        progress := storage[ProgressKey];
      }
      userProgress := progress;
      localStorage := storage[ProgressKey := progress];
    }

    /** `collectMapPiece(pieceId)` followed by the save effect. */
    method CollectMapPiece(pieceId: Option<int>, now: int)
      modifies this
      ensures userProgress == Collect(old(userProgress), pieceId, now)
      ensures localStorage == old(localStorage)[ProgressKey := userProgress]
    {
      userProgress := Collect(userProgress, pieceId, now);
      localStorage := localStorage[ProgressKey := userProgress];
    }

    /** `claimNFT()` followed by the save effect. */
    method ClaimNFT(now: nat)
      modifies this
      ensures userProgress == Claim(old(userProgress), now)
      ensures localStorage == old(localStorage)[ProgressKey := userProgress]
    {
      userProgress := Claim(userProgress, now);
      localStorage := localStorage[ProgressKey := userProgress];
    }

    /** `allPiecesCollected`: every piece is collected, that is the collected count is the whole list (true when there are none). */
    function AllPiecesCollected(): (r: bool)
      reads this
      ensures r <==> CountCollected(userProgress.mapPieces) == |userProgress.mapPieces|
    {
      forall i :: 0 <= i < |userProgress.mapPieces| ==> userProgress.mapPieces[i].collected
    }
  }
}
