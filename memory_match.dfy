/**
 * The memory-match game: the level table, the deck (each pair dealt twice, tagged
 * with its position, then shuffled by sorting on random keys), and the board state
 * machine driven by card flips and the timers that resolve a pair and announce
 * completion.
 */
module MemoryMatch {
  import opened Wrappers
  import opened Levels
  import opened Emoji

  datatype PairCard = PairCard(id: int, value: string)

  datatype LevelData = LevelData(level: int, pairs: seq<PairCard>)

  /** A dealt card: a pair card and `key`, its position in the doubled list before shuffling. */
  datatype Card = Card(id: int, value: string, key: nat)

  const MemoryLevels: seq<LevelData> := [
    LevelData(1, [PairCard(1, PalmTree), PairCard(2, Island), PairCard(3, Anchor), PairCard(4, Parrot)]),
    LevelData(2, [PairCard(1, Gem), PairCard(2, Coin), PairCard(3, WorldMap), PairCard(4, Compass)]),
    LevelData(3, [PairCard(1, Ship), PairCard(2, Squid), PairCard(3, Shark), PairCard(4, Crab)]),
    LevelData(4, [PairCard(1, Mermaid), PairCard(2, Parrot), PairCard(3, Trophy), PairCard(4, Coin)]),
    LevelData(5, [PairCard(1, Parrot), PairCard(2, Crab), PairCard(3, Compass), PairCard(4, Gem)]),
    LevelData(6, [PairCard(1, Island), PairCard(2, WorldMap), PairCard(3, Ship), PairCard(4, PalmTree)])
  ]

  const PairsPerLevel: nat := 4

  function LevelOf(l: LevelData): int { l.level }

  /** The table holds levels 1 to 6 in order, each with four pairs whose ids are 1 to 4 in order. */
  lemma MemoryLevelsShape()
    ensures |MemoryLevels| == LastLevel
    ensures forall i :: 0 <= i < |MemoryLevels| ==> MemoryLevels[i].level == i + 1
    ensures forall i :: 0 <= i < |MemoryLevels| ==> |MemoryLevels[i].pairs| == PairsPerLevel
    ensures forall i, j :: 0 <= i < |MemoryLevels| && 0 <= j < PairsPerLevel ==> MemoryLevels[i].pairs[j].id == j + 1
  {
  }

  /**
   * `levelData`: the entry of level `min(currentLevel, 6)`, or the first entry when
   * none carries that level (a level below 1).
   */
  function LevelDataFor(currentLevel: int): (r: LevelData)
    ensures |r.pairs| == PairsPerLevel
  {
    MemoryLevelsShape();
    FindByLevel(MemoryLevels, LevelOf, ClampLevel(currentLevel)).GetOr(MemoryLevels[0])
  }

  /**
   * The lookup finds the level `min(currentLevel, 6)`, so every level from 6 on
   * plays level 6, and a level below 1 falls back to level 1.
   */
  lemma LevelDataLookup(currentLevel: int)
    ensures LevelDataFor(currentLevel) == MemoryLevels[if currentLevel >= 1 then ClampLevel(currentLevel) - 1 else 0]
    ensures LevelDataFor(currentLevel).level == if currentLevel >= 1 then ClampLevel(currentLevel) else 1
  {
    MemoryLevelsShape();
    ClampedLookup(MemoryLevels, LevelOf, currentLevel);
  }

  // ---------------------------------------------------------------------------
  // shuffle: tag every item with a random key, stable-sort by the key, drop the key

  /** An item carrying its random `sort` key. */
  datatype Keyed<T> = Keyed(item: T, sort: real)

  /** Each key is at most the next one. */
  predicate SortedByKey<T>(s: seq<Keyed<T>>) {
    |s| <= 1 || (s[0].sort <= s[1].sort && SortedByKey(s[1..]))
  }

  /** `array.map(item => ({ ...item, sort: Math.random() }))`, the draws given as `randoms`. */
  function Tag<T>(items: seq<T>, randoms: seq<real>): (r: seq<Keyed<T>>)
    requires |randoms| == |items|
    ensures |r| == |items|
    ensures forall i :: 0 <= i < |r| ==> r[i] == Keyed(items[i], randoms[i])
  {
    if items == [] then [] else [Keyed(items[0], randoms[0])] + Tag(items[1..], randoms[1..])
  }

  /** `.map(({ sort, ...item }) => item)`. */
  function Untag<T>(s: seq<Keyed<T>>): (r: seq<T>)
    ensures |r| == |s|
    ensures forall i :: 0 <= i < |r| ==> r[i] == s[i].item
  {
    if s == [] then [] else [s[0].item] + Untag(s[1..])
  }

  /** Inserts `x` before the first entry whose key is not below its own. */
  function InsertByKey<T>(x: Keyed<T>, s: seq<Keyed<T>>): (r: seq<Keyed<T>>)
    ensures |r| == |s| + 1
  {
    if s == [] || x.sort <= s[0].sort then [x] + s else [s[0]] + InsertByKey(x, s[1..])
  }

  /** `.sort((a, b) => a.sort - b.sort)`: an insertion sort, entries with equal keys kept in their order. */
  function SortByKey<T>(s: seq<Keyed<T>>): (r: seq<Keyed<T>>)
    ensures |r| == |s|
  {
    if s == [] then [] else InsertByKey(s[0], SortByKey(s[1..]))
  }

  /** Inserting into a key-sorted list keeps it sorted. */
  lemma {:induction false} InsertKeepsSorted<T>(x: Keyed<T>, s: seq<Keyed<T>>)
    requires SortedByKey(s)
    ensures InsertByKey(x, s)[0] == if s == [] || x.sort <= s[0].sort then x else s[0]
    ensures SortedByKey(InsertByKey(x, s))
  {
    if s == [] || x.sort <= s[0].sort {
      assert ([x] + s)[1..] == s;
    } else {
      var rest := InsertByKey(x, s[1..]);
      InsertKeepsSorted(x, s[1..]);
      assert ([s[0]] + rest)[1..] == rest;
    }
  }

  /** The sort orders the list by key. */
  lemma {:induction false} SortByKeySorts<T>(s: seq<Keyed<T>>)
    ensures SortedByKey(SortByKey(s))
  {
    if s != [] {
      SortByKeySorts(s[1..]);
      InsertKeepsSorted(s[0], SortByKey(s[1..]));
    }
  }

  /** `shuffle(array)`, given the `Math.random()` draw made for each item. */
  function Shuffle<T>(items: seq<T>, randoms: seq<real>): (r: seq<T>)
    requires |randoms| == |items|
    ensures |r| == |items|
  {
    Untag(SortByKey(Tag(items, randoms)))
  }

  /** The number of entries satisfying `p` (`filter(p).length`). */
  function CountWhere<T>(s: seq<T>, p: T -> bool): (n: nat)
    ensures n <= |s|
  {
    if s == [] then 0 else (if p(s[0]) then 1 else 0) + CountWhere(s[1..], p)
  }

  lemma {:induction false} CountAppend<T>(a: seq<T>, b: seq<T>, p: T -> bool)
    ensures CountWhere(a + b, p) == CountWhere(a, p) + CountWhere(b, p)
  {
    if a == [] {
      assert a + b == b;
    } else {
      assert (a + b)[1..] == a[1..] + b;
      CountAppend(a[1..], b, p);
    }
  }

  /** Untagging a list with `x` in front puts `x`'s item in front. */
  lemma UntagCons<T>(x: Keyed<T>, s: seq<Keyed<T>>)
    ensures Untag([x] + s) == [x.item] + Untag(s)
  {
    assert ([x] + s)[1..] == s;
  }

  lemma {:induction false} UntagInsertCount<T>(x: Keyed<T>, s: seq<Keyed<T>>, p: T -> bool)
    ensures CountWhere(Untag(InsertByKey(x, s)), p) == CountWhere(Untag(s), p) + (if p(x.item) then 1 else 0)
  {
    if s == [] || x.sort <= s[0].sort {
      UntagCons(x, s);
      assert ([x.item] + Untag(s))[1..] == Untag(s);
    } else {
      var rest := InsertByKey(x, s[1..]);
      UntagInsertCount(x, s[1..], p);
      UntagCons(s[0], rest);
      UntagCons(s[0], s[1..]);
      assert s == [s[0]] + s[1..];
      assert ([s[0].item] + Untag(rest))[1..] == Untag(rest);
      assert ([s[0].item] + Untag(s[1..]))[1..] == Untag(s[1..]);
    }
  }

  /** Shuffling a non-empty list inserts its first item, by its key, into the shuffled rest. */
  lemma ShuffleStep<T>(items: seq<T>, randoms: seq<real>)
    requires |randoms| == |items| > 0
    ensures Shuffle(items, randoms)
            == Untag(InsertByKey(Keyed(items[0], randoms[0]), SortByKey(Tag(items[1..], randoms[1..]))))
  {
    var tagged := Tag(items, randoms);
    assert tagged[0] == Keyed(items[0], randoms[0]);
    assert tagged[1..] == Tag(items[1..], randoms[1..]);
  }

  /** So every property holds of as many shuffled items as before. */
  lemma {:induction false} ShuffleKeepsCounts<T>(items: seq<T>, randoms: seq<real>, p: T -> bool)
    requires |randoms| == |items|
    ensures CountWhere(Shuffle(items, randoms), p) == CountWhere(items, p)
  {
    if items != [] {
      ShuffleStep(items, randoms);
      ShuffleKeepsCounts(items[1..], randoms[1..], p);
      UntagInsertCount(Keyed(items[0], randoms[0]), SortByKey(Tag(items[1..], randoms[1..])), p);
    }
  }

  function Is<T(==)>(y: T): T -> bool { (z: T) => z == y }

  /** Counting the entries equal to `y` gives `y`'s multiplicity. */
  lemma {:induction false} CountIsMultiplicity<T>(s: seq<T>, y: T)
    ensures CountWhere(s, Is(y)) == multiset(s)[y]
  {
    if s != [] {
      CountIsMultiplicity(s[1..], y);
      assert s == [s[0]] + s[1..];
      assert multiset(s) == multiset{s[0]} + multiset(s[1..]);
    }
  }

  /** `shuffle` only permutes the cards it is given: the result is the same multiset of cards. */
  lemma ShufflePermutes(items: seq<Card>, randoms: seq<real>)
    requires |randoms| == |items|
    ensures multiset(Shuffle(items, randoms)) == multiset(items)
  {
    var a, b := multiset(Shuffle(items, randoms)), multiset(items);
    forall y: Card
      ensures a[y] == b[y]
    {
      CountIsMultiplicity(Shuffle(items, randoms), y);
      CountIsMultiplicity(items, y);
      ShuffleKeepsCounts(items, randoms, Is(y));
    }
    assert a == b;
  }

  /** A list already in key order is left as it is: the sort is stable and moves nothing. */
  lemma {:induction false} SortKeepsOrdered<T>(s: seq<Keyed<T>>)
    requires forall i, j :: 0 <= i < j < |s| ==> s[i].sort <= s[j].sort
    ensures SortByKey(s) == s
  {
    if s != [] {
      var t := s[1..];
      assert forall i, j :: 0 <= i < j < |t| ==> t[i].sort <= t[j].sort by {
        forall i, j | 0 <= i < j < |t| ensures t[i].sort <= t[j].sort {
          assert t[i] == s[i + 1] && t[j] == s[j + 1];
        }
      }
      SortKeepsOrdered(t);
      assert s == [s[0]] + t;
    }
  }

  /**
   * The order of the draws decides the deck: draws that already ascend (ties
   * included) deal the cards in the order given.
   */
  lemma ShuffleOrdersByKeys<T>(items: seq<T>, randoms: seq<real>)
    requires |randoms| == |items|
    requires forall i, j :: 0 <= i < j < |randoms| ==> randoms[i] <= randoms[j]
    ensures Shuffle(items, randoms) == items
  {
    SortKeepsOrdered(Tag(items, randoms));
  }

  // ---------------------------------------------------------------------------
  // the deck

  /** Tags each card with its position, counting from `key`. */
  function Label(cards: seq<PairCard>, key: nat): (r: seq<Card>)
    ensures |r| == |cards|
  {
    if cards == [] then [] else [Card(cards[0].id, cards[0].value, key)] + Label(cards[1..], key + 1)
  }

  /** `[...levelData.pairs, ...levelData.pairs].map((card, idx) => ({ ...card, key: idx }))`. */
  function Dealt(pairs: seq<PairCard>): (r: seq<Card>)
    ensures |r| == 2 * |pairs|
  {
    Label(pairs + pairs, 0)
  }

  /** The deck of a level, given the draws the shuffle makes. */
  function Deck(level: LevelData, randoms: seq<real>): (r: seq<Card>)
    requires |randoms| == 2 * |level.pairs|
    ensures |r| == 2 * |level.pairs|
  {
    Shuffle(Dealt(level.pairs), randoms)
  }

  function HasId(id: int): Card -> bool { (c: Card) => c.id == id }
  function PairHasId(id: int): PairCard -> bool { (c: PairCard) => c.id == id }

  lemma {:induction false} LabelKeepsIds(cards: seq<PairCard>, key: nat, id: int)
    ensures CountWhere(Label(cards, key), HasId(id)) == CountWhere(cards, PairHasId(id))
  {
    if cards != [] {
      LabelKeepsIds(cards[1..], key + 1, id);
    }
  }

  lemma {:induction false} ConsecutiveIds(pairs: seq<PairCard>, first: int, id: int)
    requires forall j :: 0 <= j < |pairs| ==> pairs[j].id == first + j
    ensures CountWhere(pairs, PairHasId(id)) == if first <= id < first + |pairs| then 1 else 0
  {
    if pairs != [] {
      ConsecutiveIds(pairs[1..], first + 1, id);
      if first < id {
        assert !PairHasId(id)(pairs[0]);
      }
    }
  }

  /** Whatever the draws, the deck of every level has eight cards and each pair id 1 to 4 exactly twice. */
  lemma DeckHasEachPairTwice(currentLevel: int, randoms: seq<real>, id: int)
    requires |randoms| == 2 * PairsPerLevel
    ensures |Deck(LevelDataFor(currentLevel), randoms)| == 2 * PairsPerLevel
    ensures CountWhere(Deck(LevelDataFor(currentLevel), randoms), HasId(id)) == if 1 <= id <= PairsPerLevel then 2 else 0
  {
    var pairs := LevelDataFor(currentLevel).pairs;
    MemoryLevelsShape();
    ShuffleKeepsCounts(Dealt(pairs), randoms, HasId(id));
    LabelKeepsIds(pairs + pairs, 0, id);
    CountAppend(pairs, pairs, PairHasId(id));
    ConsecutiveIds(pairs, 1, id);
  }

  // ---------------------------------------------------------------------------
  // the board

  /** What the timer started by a second flip will do: append the matched pair, or only turn the cards back. */
  datatype FlipTimer = MatchTimer(first: nat, second: nat) | MismatchTimer

  predicate Distinct(s: seq<nat>) {
    forall i, j :: 0 <= i < j < |s| ==> s[i] != s[j]
  }

  predicate AllBelow(s: seq<nat>, n: nat) {
    forall i :: 0 <= i < |s| ==> s[i] < n
  }

  /** A list of distinct indices below `n` has at most `n` entries. */
  lemma {:induction false} DistinctBelowBound(s: seq<nat>, n: nat)
    requires Distinct(s) && AllBelow(s, n)
    ensures |s| <= n
    decreases n
  {
    if s != [] {
      assert s[0] < n;
      var m: nat := n - 1;
      if m in s {
        var j :| 0 <= j < |s| && s[j] == m;
        var t := s[..j] + s[j + 1..];
        assert forall k :: 0 <= k < |t| ==> t[k] == if k < j then s[k] else s[k + 1];
        DistinctBelowBound(t, m);
      } else {
        DistinctBelowBound(s, m);
      }
    }
  }

  /** When the distinct indices below `n` number `n`, every index below `n` is among them. */
  lemma FullListHasEveryIndex(s: seq<nat>, n: nat, idx: nat)
    requires Distinct(s) && AllBelow(s, n) && |s| == n && idx < n
    ensures idx in s
  {
    if idx !in s {
      DistinctBelowBound(s + [idx], n);
    }
  }

  /** The `k`-th appended pair of `matched` shows two cards with the same id. */
  predicate PairAgrees(cards: seq<Card>, matched: seq<nat>, k: int) {
    && 0 <= 2 * k && 2 * k + 1 < |matched|
    && matched[2 * k] < |cards| && matched[2 * k + 1] < |cards|
    && cards[matched[2 * k]].id == cards[matched[2 * k + 1]].id
  }

  /** `matched` is a list of appended pairs of distinct card indices, each pair showing equal ids. */
  predicate MatchedValid(cards: seq<Card>, matched: seq<nat>) {
    && |matched| % 2 == 0
    && Distinct(matched)
    && AllBelow(matched, |cards|)
    && forall k :: 0 <= k < |matched| / 2 ==> PairAgrees(cards, matched, k)
  }

  lemma AppendMatchedPair(cards: seq<Card>, matched: seq<nat>, first: nat, second: nat)
    requires MatchedValid(cards, matched)
    requires first < |cards| && second < |cards| && first != second
    requires first !in matched && second !in matched
    requires cards[first].id == cards[second].id
    ensures MatchedValid(cards, matched + [first, second])
    ensures |matched| + 2 <= |cards|
  {
    var m := matched + [first, second];
    forall k | 0 <= k < |m| / 2
      ensures PairAgrees(cards, m, k)
    {
      if k < |matched| / 2 {
        assert PairAgrees(cards, matched, k);
        assert m[2 * k] == matched[2 * k] && m[2 * k + 1] == matched[2 * k + 1];
      } else {
        assert m[2 * k] == first && m[2 * k + 1] == second;
      }
    }
    DistinctBelowBound(m, |cards|);
  }

  /** The timer a second flip of `first` then `second` starts. */
  function ResolveTimer(cards: seq<Card>, first: nat, second: nat): FlipTimer
    requires first < |cards| && second < |cards|
  {
    if cards[first].id == cards[second].id then MatchTimer(first, second) else MismatchTimer
  }

  /** `matched.length === levelData.pairs.length * 2 && matched.length > 0`. */
  predicate CompletionDue(matchedCount: int, level: LevelData) {
    matchedCount == |level.pairs| * 2 && matchedCount > 0
  }

  /**
   * The board invariant: the cards are a shuffle of the level's dealt deck; at most two
   * distinct, unmatched cards are face up, and exactly two while a flip timer is
   * pending, which then resolves them as they are; `matched` holds agreeing pairs;
   * the level is completed exactly when every card is matched, and only then is the
   * completion timer pending; every matched or pending pair cost one move.
   */
  ghost predicate BoardValid(currentLevel: int, levelData: LevelData, cards: seq<Card>, flipped: seq<nat>,
                             matched: seq<nat>, moves: nat, completed: bool,
                             flipTimer: Option<FlipTimer>, completionTimer: Option<int>)
  {
    && |levelData.pairs| == PairsPerLevel
    && multiset(cards) == multiset(Dealt(levelData.pairs))
    && |flipped| <= 2 && Distinct(flipped) && AllBelow(flipped, |cards|)
    && (forall i :: 0 <= i < |flipped| ==> flipped[i] !in matched)
    && MatchedValid(cards, matched)
    && (flipTimer.Some? <==> |flipped| == 2)
    && (flipTimer.Some? ==> flipTimer.value == ResolveTimer(cards, flipped[0], flipped[1]))
    && (completed <==> |matched| == |cards|)
    && (completionTimer.Some? ==> completed && completionTimer.value == currentLevel)
    && 2 * moves >= |matched| + (if flipTimer.Some? && flipTimer.value.MatchTimer? then 2 else 0)
  }

  /** A freshly dealt board, nothing flipped or matched and no timer pending, satisfies the invariant. */
  lemma FreshBoardValid(level: int, randoms: seq<real>)
    requires |randoms| == 2 * PairsPerLevel
    ensures BoardValid(level, LevelDataFor(level), Deck(LevelDataFor(level), randoms), [], [], 0, false, None, None)
  {
    ShufflePermutes(Dealt(LevelDataFor(level).pairs), randoms);
  }

  /** The state cells of the memory-match component and its pending timers. */
  class MemoryMatchGame {
    var currentLevel: int
    /** The table entry the component derives from `currentLevel` on every render. */
    var levelData: LevelData
    var cards: seq<Card>
    var flipped: seq<nat>
    var matched: seq<nat>
    var moves: nat
    var completed: bool
    /** The 700 ms (pair) or 900 ms (mismatch) timer a second flip starts, while pending. */
    var flipTimer: Option<FlipTimer>
    /** The 1500 ms timer that calls `onLevelComplete` with the level it captured, while pending. */
    var completionTimer: Option<int>

    ghost predicate Valid()
      reads this
    {
      BoardValid(currentLevel, levelData, cards, flipped, matched, moves, completed, flipTimer, completionTimer)
    }

    /** The `disabled` of card `idx`: face up (flipped or matched), or the level is complete. */
    predicate CardDisabled(idx: nat)
      reads this
    {
      idx in flipped || idx in matched || completed
    }

    /** Mounting at `currentLevel`: the reset effect deals a shuffled deck; nothing is matched yet. */
    constructor (currentLevel: int, randoms: seq<real>)
      requires |randoms| == 2 * PairsPerLevel
      ensures Valid()
      ensures this.currentLevel == currentLevel && levelData == LevelDataFor(currentLevel)
      ensures cards == Deck(levelData, randoms)
      ensures flipped == [] && matched == [] && moves == 0 && !completed
      ensures flipTimer == None && completionTimer == None
    {
      this.currentLevel := currentLevel;
      levelData := LevelDataFor(currentLevel);
      var deck := Deck(LevelDataFor(currentLevel), randoms);
      FreshBoardValid(currentLevel, randoms);
      cards := deck;
      flipped := [];
      matched := [];
      moves := 0;
      completed := false;
      flipTimer := None;
      completionTimer := None;
    }

    /**
     * `handleFlip(idx)`: ignored while two cards are face up or when `idx` is already
     * flipped or matched; otherwise `idx` is turned up, and a second card counts one
     * move and starts the timer that resolves the pair.
     */
    method HandleFlip(idx: nat)
      requires Valid() && idx < |cards|
      modifies this
      ensures Valid()
      ensures cards == old(cards) && matched == old(matched)
      ensures currentLevel == old(currentLevel) && levelData == old(levelData)
      ensures completed == old(completed) && completionTimer == old(completionTimer)
      ensures old(|flipped| == 2 || CardDisabled(idx)) ==>
                flipped == old(flipped) && moves == old(moves) && flipTimer == old(flipTimer)
      ensures !old(|flipped| == 2 || CardDisabled(idx)) ==> flipped == old(flipped) + [idx]
      ensures moves == old(moves) + (if |old(flipped)| < 2 && |flipped| == 2 then 1 else 0)
      ensures |old(flipped)| < 2 && |flipped| == 2 ==>
                flipTimer == Some(ResolveTimer(cards, flipped[0], flipped[1]))
      ensures !(|old(flipped)| < 2 && |flipped| == 2) ==> flipTimer == old(flipTimer)
    {
      if completed {
        FullListHasEveryIndex(matched, |cards|, idx);
      }
      if |flipped| == 2 || idx in flipped || idx in matched {
        return;
      }
      var newFlipped := flipped + [idx];
      flipped := newFlipped;
      if |newFlipped| == 2 {
        moves := moves + 1;
        var first, second := newFlipped[0], newFlipped[1];
        if cards[first].id == cards[second].id {
          flipTimer := Some(MatchTimer(first, second));
        } else {
          flipTimer := Some(MismatchTimer);
        }
      }
    }

    /**
     * The timer a second flip started fires: a pair is appended to `matched`, and either
     * way `flipped` is cleared. When the pair completes the board, the completion effect
     * marks the level completed and starts the timer that reports it.
     */
    method FireFlipTimer()
      requires Valid() && flipTimer.Some?
      modifies this
      ensures Valid()
      ensures flipped == [] && flipTimer == None
      ensures cards == old(cards) && moves == old(moves)
      ensures currentLevel == old(currentLevel) && levelData == old(levelData)
      ensures old(flipTimer.value.MatchTimer?) ==> matched == old(matched) + [old(flipped[0]), old(flipped[1])]
      ensures old(flipTimer.value.MismatchTimer?) ==> matched == old(matched)
      ensures completed <==> |matched| == |cards|
      ensures completionTimer == if !old(completed) && completed then Some(currentLevel) else old(completionTimer)
    {
      match flipTimer.value
      case MatchTimer(first, second) =>
        AppendMatchedPair(cards, matched, first, second);
        assert |multiset(cards)| == |cards|;
        matched := matched + [first, second];
        flipped := [];
        flipTimer := None;
        if CompletionDue(|matched|, levelData) {
          completed := true;
          completionTimer := Some(currentLevel);
        }
      case MismatchTimer =>
        flipped := [];
        flipTimer := None;
    }

    /** The completion timer fires and reports the level it was started for: the current, completed level. */
    method FireCompletionTimer() returns (reportedLevel: int)
      requires Valid() && completionTimer.Some?
      modifies this`completionTimer
      ensures Valid()
      ensures reportedLevel == currentLevel && completed && |matched| == |cards|
      ensures completionTimer == None
    {
      reportedLevel := completionTimer.value;
      completionTimer := None;
    }

    /**
     * `currentLevel` changes: the reset effect deals a new deck and clears the board.
     * The completion effect, which also runs on a level change, is taken to see the
     * cleared board (see `LevelChangedAsWritten` for what the component does).
     */
    method LevelChanged(newLevel: int, randoms: seq<real>)
      requires flipTimer.None? && completionTimer.None?
      requires |randoms| == 2 * PairsPerLevel
      modifies this
      ensures Valid()
      ensures currentLevel == newLevel && levelData == LevelDataFor(newLevel)
      ensures cards == Deck(levelData, randoms)
      ensures flipped == [] && matched == [] && moves == 0 && !completed
      ensures flipTimer == None && completionTimer == None
    {
      var data := LevelDataFor(newLevel);
      var deck := Deck(data, randoms);
      FreshBoardValid(newLevel, randoms);
      currentLevel, levelData, cards := newLevel, data, deck;
      flipped := [];
      matched := [];
      moves := 0;
      completed := false;
    }

    /**
     * `currentLevel` changes, as the component behaves: in the same commit as the reset
     * effect, the completion effect runs with the `matched` list of the finished level
     * and the new level's data. Its updates are applied after the reset's, so a level
     * change right after a completed level leaves the new board completed (every card
     * disabled, nothing matched) and reports the new level as completed too.
     */
    method LevelChangedAsWritten(newLevel: int, randoms: seq<real>)
      requires flipTimer.None? && completionTimer.None?
      requires completed <==> |matched| == 2 * PairsPerLevel
      requires |randoms| == 2 * PairsPerLevel
      modifies this
      ensures currentLevel == newLevel && levelData == LevelDataFor(newLevel)
      ensures cards == Deck(levelData, randoms)
      ensures flipped == [] && matched == [] && moves == 0 && flipTimer == None
      ensures completed == old(completed)
      ensures completionTimer == if old(completed) then Some(newLevel) else None
      ensures !old(completed) ==> Valid()
      ensures old(completed) ==> !Valid()
    {
      var staleMatched := matched;
      LevelChanged(newLevel, randoms);
      if CompletionDue(|staleMatched|, levelData) {
        completed := true;
        completionTimer := Some(newLevel);
        assert |matched| != |cards|;
      }
    }
  }

  /** Every completed board, whatever its level, makes the completion check pass for every other level. */
  lemma StaleCompletionDue(oldLevel: int, newLevel: int)
    ensures CompletionDue(2 * |LevelDataFor(oldLevel).pairs|, LevelDataFor(newLevel))
  {
  }
}
