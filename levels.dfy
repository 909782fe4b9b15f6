/**
 * What every puzzle component does to find its data: clamp the level with
 * `Math.min(currentLevel, 6)` and `find` the table entry carrying that level.
 */
module Levels {
  import opened Wrappers

  /** The last level every table defines. */
  const LastLevel: int := 6

  /** `Math.min(currentLevel, 6)`. */
  function ClampLevel(currentLevel: int): (r: int)
    ensures r <= LastLevel
    ensures r == currentLevel || (currentLevel > LastLevel && r == LastLevel)
  {
    if currentLevel < LastLevel then currentLevel else LastLevel
  }

  /** `table.find(entry => levelOf(entry) === level)`: undefined (None) when no entry carries `level`. */
  function FindByLevel<T>(table: seq<T>, levelOf: T -> int, level: int): (r: Option<T>)
    ensures r.None? <==> forall i :: 0 <= i < |table| ==> levelOf(table[i]) != level
    ensures r.Some? ==> r.value in table && levelOf(r.value) == level
  {
    if table == [] then None
    else if levelOf(table[0]) == level then Some(table[0])
    else FindByLevel(table[1..], levelOf, level)
  }

  /** `find` answers the first entry with the level: every entry before it has another level. */
  lemma {:induction false} FindByLevelFirst<T>(table: seq<T>, levelOf: T -> int, level: int)
    ensures FindByLevel(table, levelOf, level).Some? ==>
      exists i :: FirstWithLevel(table, levelOf, level, FindByLevel(table, levelOf, level).value, i)
  {
    if table != [] {
      if levelOf(table[0]) == level {
        assert FirstWithLevel(table, levelOf, level, table[0], 0);
      } else {
        FindByLevelFirst(table[1..], levelOf, level);
        if FindByLevel(table, levelOf, level).Some? {
          FirstShifts(table, levelOf, level, FindByLevel(table, levelOf, level).value);
        }
      }
    }
  }

  /** Index `i` holds the first entry of `table` with `level`, and it is `v`. */
  ghost predicate FirstWithLevel<T>(table: seq<T>, levelOf: T -> int, level: int, v: T, i: int) {
    0 <= i < |table| && table[i] == v && levelOf(table[i]) == level
    && forall j :: 0 <= j < i ==> levelOf(table[j]) != level
  }

  /** A first match in the tail is a first match in the table when the head does not match. */
  lemma FirstShifts<T>(table: seq<T>, levelOf: T -> int, level: int, v: T)
    requires table != [] && levelOf(table[0]) != level
    requires exists i :: FirstWithLevel(table[1..], levelOf, level, v, i)
    ensures exists i :: FirstWithLevel(table, levelOf, level, v, i)
  {
    var i :| FirstWithLevel(table[1..], levelOf, level, v, i);
    assert FirstWithLevel(table, levelOf, level, v, i + 1);
  }

  /** In a table whose entries carry the levels first, first + 1, ..., `find` returns the entry at `level - first`. */
  lemma {:induction false} FindInConsecutive<T>(table: seq<T>, levelOf: T -> int, first: int, level: int)
    requires forall i :: 0 <= i < |table| ==> levelOf(table[i]) == first + i
    ensures FindByLevel(table, levelOf, level)
            == if first <= level < first + |table| then Some(table[level - first]) else None
  {
    if table != [] && levelOf(table[0]) != level {
      FindInConsecutive(table[1..], levelOf, first + 1, level);
    }
  }

  /**
   * For a six-entry table with levels 1..6, the clamped lookup finds the entry of
   * `min(currentLevel, 6)`, so every level from 6 upwards shows the last entry, and
   * only a level below 1 finds nothing.
   */
  lemma ClampedLookup<T>(table: seq<T>, levelOf: T -> int, currentLevel: int)
    requires |table| == LastLevel
    requires forall i :: 0 <= i < |table| ==> levelOf(table[i]) == 1 + i
    ensures FindByLevel(table, levelOf, ClampLevel(currentLevel))
            == if currentLevel >= 1 then Some(table[ClampLevel(currentLevel) - 1]) else None
  {
    FindInConsecutive(table, levelOf, 1, ClampLevel(currentLevel));
  }
}
