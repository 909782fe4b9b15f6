/**
 * Map pieces and the progress object the map, navigation bar and profile page read.
 */
module Pieces {
  import opened Wrappers

  /** One unlockable piece of the treasure map. `collectedAt` is the time it was collected, if it was. */
  datatype MapPiece = MapPiece(id: int, collected: bool, ipfsHash: string, collectedAt: Option<int>)

  /** `pieces.every(piece => piece.collected)`; true of the empty list. */
  predicate EveryCollected(pieces: seq<MapPiece>) {
    forall i :: 0 <= i < |pieces| ==> pieces[i].collected
  }

  /** `pieces.filter(piece => piece.collected).length`. */
  function CountCollected(pieces: seq<MapPiece>): (n: nat)
    ensures n <= |pieces|
    ensures n == |pieces| <==> EveryCollected(pieces)
    ensures n == 0 <==> forall i :: 0 <= i < |pieces| ==> !pieces[i].collected
  {
    if pieces == [] then 0
    else (if pieces[0].collected then 1 else 0) + CountCollected(pieces[1..])
  }

  /** The six game keys, in the order the map tabs and the profile page list them. */
  const GameKeys: seq<string> :=
    ["wordPuzzle", "memoryMatch", "logicPuzzle", "multipleChoice", "riddleQuest", "emojiSequence"]

  /**
   * The progress object as the map, navigation bar and profile page see it: the
   * properties `<key>Pieces` and `<key>FinalImage` that are present, by property name,
   * and `hasClaimedNFT`.
   */
  datatype ProgressView = ProgressView(
    pieceLists: map<string, seq<MapPiece>>,
    finalImages: map<string, string>,
    hasClaimedNFT: bool)

  /** The property name `${key}Pieces`. */
  function PiecesField(key: string): string { key + "Pieces" }

  /** The property name `${key}FinalImage`. */
  function FinalImageField(key: string): string { key + "FinalImage" }

  /** JavaScript truthiness of a string property that may be missing: present and not empty. */
  predicate Truthy(s: Option<string>) {
    s.Some? && s.value != ""
  }
}
