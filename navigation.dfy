/**
 * The navigation bar: which game's pieces it summarises, the map badge, the
 * profile button's label, badge and wallet guard, and the short form of a
 * wallet address.
 */
module Navigation {
  import opened Wrappers
  import opened Text
  import opened Pieces

  /** The route of each game page, in the order of `GameKeys`. */
  const GameRoutes: seq<string> :=
    ["word-puzzle", "memory-match", "logic-puzzle", "multiple-choice", "riddle-quest", "emoji-sequence"]

  /** `getCurrentGameKey`: the game whose page is open, and the word puzzle for every other page. */
  function GetCurrentGameKey(currentPage: string): (key: string)
    ensures key in GameKeys
    ensures forall i :: 0 <= i < |GameRoutes| ==> currentPage == GameRoutes[i] ==> key == GameKeys[i]
    ensures forall i :: 1 <= i < |GameKeys| ==> key == GameKeys[i] ==> currentPage == GameRoutes[i]
    ensures currentPage !in GameRoutes ==> key == "wordPuzzle"
  {
    match currentPage
    case "word-puzzle" => "wordPuzzle"
    case "memory-match" => "memoryMatch"
    case "logic-puzzle" => "logicPuzzle"
    case "multiple-choice" => "multipleChoice"
    case "riddle-quest" => "riddleQuest"
    case "emoji-sequence" => "emojiSequence"
    case _ => "wordPuzzle"
  }

  /**
   * `userProgress[`${key}Pieces`] || userProgress.wordPuzzlePieces || []`. A
   * present list, even an empty one, is truthy and is used as it is.
   */
  function CurrentPieces(progress: ProgressView, key: string): (pieces: seq<MapPiece>)
    ensures PiecesField(key) in progress.pieceLists ==> pieces == progress.pieceLists[PiecesField(key)]
    ensures PiecesField(key) !in progress.pieceLists && PiecesField("wordPuzzle") in progress.pieceLists ==>
      pieces == progress.pieceLists[PiecesField("wordPuzzle")]
    ensures pieces == [] || pieces in progress.pieceLists.Values
  {
    if PiecesField(key) in progress.pieceLists then progress.pieceLists[PiecesField(key)]
    else if PiecesField("wordPuzzle") in progress.pieceLists then progress.pieceLists[PiecesField("wordPuzzle")]
    else []
  }

  /** `collectedPieces`. */
  function CollectedPieces(progress: ProgressView, currentPage: string): (n: nat)
    ensures n <= |CurrentPieces(progress, GetCurrentGameKey(currentPage))|
  {
    CountCollected(CurrentPieces(progress, GetCurrentGameKey(currentPage)))
  }

  /**
   * `completionPercentage`, as an exact ratio: 0 without pieces, 100 exactly
   * when there are pieces and all are collected.
   */
  function CompletionPercentage(pieces: seq<MapPiece>): (r: real)
    ensures 0.0 <= r <= 100.0
    ensures pieces == [] ==> r == 0.0
    ensures r == 100.0 <==> pieces != [] && EveryCollected(pieces)
    ensures r == 0.0 <==> forall i :: 0 <= i < |pieces| ==> !pieces[i].collected
  {
    if |pieces| > 0 then
      RatioBounds(CountCollected(pieces), |pieces|);
      Percent(CountCollected(pieces), |pieces|)
    else 0.0
  }

  /** `count / total * 100`. */
  function Percent(count: nat, total: nat): real
    requires total > 0
  {
    (count as real / total as real) * 100.0
  }

  /** A share of a positive total lies in 0..100 and reaches either end only at an end of the count. */
  lemma RatioBounds(count: nat, total: nat)
    requires 0 < total && count <= total
    ensures 0.0 <= Percent(count, total) <= 100.0
    ensures Percent(count, total) == 100.0 <==> count == total
    ensures Percent(count, total) == 0.0 <==> count == 0
  {
    var q := count as real / total as real;
    assert q * total as real == count as real;
    assert 0.0 <= q;
    if count == total {
      assert q == 1.0;
    }
    if q == 1.0 {
      assert count == total;
    }
  }

  // ---------------------------------------------------------------- the wallet address

  /** `addr.slice(-4)`: the last four characters, or all of a shorter string. */
  function LastFour(s: string): (r: string)
    ensures |r| == if |s| < 4 then |s| else 4
    ensures r == s[|s| - |r|..]
  {
    if |s| < 4 then s else s[|s| - 4..]
  }

  /** `shortenAddress`: `''` for a falsy address, otherwise the first six and last four characters around `...`. */
  function ShortenAddress(addr: Option<string>): (r: string)
    ensures !Truthy(addr) ==> r == ""
    ensures Truthy(addr) ==> |r| == |Take(addr.value, 6)| + 3 + |LastFour(addr.value)|
    ensures Truthy(addr) && |addr.value| >= 10 ==>
      |r| == 13 && r[..6] == addr.value[..6] && r[6..9] == "..." && r[9..] == addr.value[|addr.value| - 4..]
  {
    if Truthy(addr) then Take(addr.value, 6) + "..." + LastFour(addr.value) else ""
  }

  /** A long address is cut to 13 characters and keeps its first six and last four. */
  lemma ShortenedAddressShape(addr: string)
    requires |addr| >= 10
    ensures |ShortenAddress(Some(addr))| == 13
    ensures Contains(ShortenAddress(Some(addr)), "...")
    ensures ShortenAddress(Some(addr)) == addr[..6] + "..." + addr[|addr| - 4..]
  {
    ContainsInfix(addr[..6], "...", addr[|addr| - 4..]);
  }

  // ---------------------------------------------------------------- the nav items

  /** The map item's badge: the collected count when positive, otherwise none. */
  function MapBadge(collected: nat): (badge: Option<nat>)
    ensures badge.Some? <==> collected > 0
    ensures badge.Some? ==> badge.value == collected
  {
    if collected > 0 then Some(collected) else None
  }

  const ConnectWalletLabel: string := "Connect Wallet"

  /** The profile item's label: the short address, or `Connect Wallet` without a wallet. */
  function ProfileLabel(walletAddress: Option<string>): (text: string)
    ensures Truthy(walletAddress) ==> text == ShortenAddress(walletAddress)
    ensures !Truthy(walletAddress) ==> text == ConnectWalletLabel
  {
    if Truthy(walletAddress) then ShortenAddress(walletAddress) else ConnectWalletLabel
  }

  /** The label reads `Connect Wallet` exactly when no wallet is connected: a short address is always shorter. */
  lemma LabelShowsWallet(walletAddress: Option<string>)
    ensures ProfileLabel(walletAddress) == ConnectWalletLabel <==> !Truthy(walletAddress)
  {
    if Truthy(walletAddress) {
      var v := walletAddress.value;
      assert |Take(v, 6)| <= 6 && |LastFour(v)| <= 4;
      assert |ProfileLabel(walletAddress)| <= 13 < |ConnectWalletLabel|;
    }
  }

  /**
   * The profile item's badge once the NFT is claimed. The literal in the source
   * file is a trophy emoji's UTF-8 bytes decoded as Mac Roman text, so these are
   * the four characters it actually holds.
   */
  const ClaimedBadge: string := "\U{F8FF}\U{00FC}\U{00E8}\U{00DC}"

  function ProfileBadge(hasClaimedNFT: bool): (badge: Option<string>)
    ensures badge.Some? <==> hasClaimedNFT
    ensures badge.Some? ==> badge.value == ClaimedBadge
  {
    if hasClaimedNFT then Some(ClaimedBadge) else None
  }

  /** What a click on a nav button does. */
  datatype ClickEffect = Navigate(page: string) | ConnectWallet | Alert(message: string)

  const ProfileAlert: string := "Please connect your wallet to view your profile."

  /**
   * The desktop profile button: with a wallet it opens the profile page;
   * without one it asks to connect (when a handler was given) or alerts.
   */
  function DesktopProfileClick(walletAddress: Option<string>, hasConnectHandler: bool): (effect: ClickEffect)
    ensures effect.Navigate? <==> Truthy(walletAddress)
    ensures effect.Navigate? ==> effect.page == "profile"
    ensures effect.ConnectWallet? <==> !Truthy(walletAddress) && hasConnectHandler
    ensures effect.Alert? ==> effect.message == ProfileAlert
  {
    if !Truthy(walletAddress) then
      if hasConnectHandler then ConnectWallet else Alert(ProfileAlert)
    else Navigate("profile")
  }

  /** The ids of `navItems`, in order; each id is also the page it stands for. */
  const NavItemIds: seq<string> := ["home", "selection", "map", "profile"]

  /** A mobile nav button: `navigateToPage(item.id)`, with no guard. */
  function MobileClick(itemId: string): ClickEffect {
    Navigate(itemId)
  }

  /**
   * The four mobile buttons, the profile one among them, each open their own
   * page, and no two open the same one.
   */
  lemma MobileNavItems()
    ensures |NavItemIds| == 4 && NavItemIds[3] == "profile"
    ensures forall i :: 0 <= i < |NavItemIds| ==> MobileClick(NavItemIds[i]) == Navigate(NavItemIds[i])
    ensures forall i, j :: 0 <= i < j < |NavItemIds| ==> MobileClick(NavItemIds[i]) != MobileClick(NavItemIds[j])
  {
  }

  /** The mobile profile button has no wallet guard: it opens the profile page where the desktop one would not. */
  lemma MobileSkipsWalletGuard(walletAddress: Option<string>, hasConnectHandler: bool)
    requires !Truthy(walletAddress)
    ensures MobileClick("profile") == Navigate("profile")
    ensures DesktopProfileClick(walletAddress, hasConnectHandler) != Navigate("profile")
  {
  }
}
