/** Validator sets by height: the set in force at a height is the one saved
    at the greatest height not above it. */
module ValidatorStore {
  import opened Wrappers

  ghost predicate StrictlySorted(s: seq<int>) {
    forall i, j :: 0 <= i < j < |s| ==> s[i] < s[j]
  }

  /** h is the greatest key of m that is at most `height`. */
  ghost predicate InForce<V>(m: map<int, V>, height: int, h: int) {
    h in m && h <= height && forall k :: k in m && k <= height ==> k <= h
  }

  lemma OneInForce<V>(m: map<int, V>, height: int, h: int, g: int)
    requires InForce(m, height, h) && InForce(m, height, g)
    ensures h == g
  {
  }

  ghost predicate AllAtMost<V>(m: map<int, V>, height: int) {
    forall h :: h in m ==> h <= height
  }

  ghost predicate AllAbove<V>(m: map<int, V>, height: int) {
    forall h :: h in m ==> h > height
  }

  /** The saves of a run, oldest first; a later save at the same height replaces. */
  ghost function History<V>(saves: seq<(int, V)>): map<int, V> {
    if saves == [] then map[]
    else History(saves[..|saves| - 1])[saves[|saves| - 1].0 := saves[|saves| - 1].1]
  }

  /** The greatest positive height saved, or 0. */
  ghost function Latest<V>(saves: seq<(int, V)>): int {
    if saves == [] then 0
    else
      var before := Latest(saves[..|saves| - 1]);
      if saves[|saves| - 1].0 > before then saves[|saves| - 1].0 else before
  }

  lemma {:induction false} LatestIsGreatest<V>(saves: seq<(int, V)>)
    ensures Latest(saves) >= 0
    ensures Latest(saves) > 0 ==> InForce(History(saves), Latest(saves), Latest(saves))
    ensures forall h :: h in History(saves) ==> h <= Latest(saves)
  {
    if saves != [] { LatestIsGreatest(saves[..|saves| - 1]); }
  }

  /** The insertion point of x and whether x is there. */
  method BinarySearch(s: seq<int>, x: int) returns (idx: nat, found: bool)
    requires StrictlySorted(s)
    ensures idx <= |s|
    ensures forall i :: 0 <= i < idx ==> s[i] < x
    ensures forall i :: idx <= i < |s| ==> s[i] >= x
    ensures found <==> x in s
    ensures found ==> idx < |s| && s[idx] == x
  {
    var lo, hi := 0, |s|;
    while lo < hi
      invariant 0 <= lo <= hi <= |s|
      invariant forall i :: 0 <= i < lo ==> s[i] < x
      invariant forall i :: hi <= i < |s| ==> s[i] >= x
    {
      var mid := lo + (hi - lo) / 2;
      if s[mid] < x { lo := mid + 1; } else { hi := mid; }
    }
    return lo, lo < |s| && s[lo] == x;
  }

  class InMemoryValidatorSetStore<V> {
    var sets: map<int, V>
    var sortedHeights: seq<int>
    var latest: int
    ghost var saves: seq<(int, V)>

    ghost predicate Valid()
      reads this
    {
      && StrictlySorted(sortedHeights)
      && (forall h :: h in sets <==> h in sortedHeights)
      && sets == History(saves)
      && latest == Latest(saves)
    }

    constructor ()
      ensures Valid() && saves == []
    {
      sets, sortedHeights, latest, saves := map[], [], 0, [];
    }

    method SaveValidatorSet(height: int, valSet: V)
      requires Valid()
      modifies this
      ensures Valid() && saves == old(saves) + [(height, valSet)]
      ensures sets == old(sets)[height := valSet]
    {
      if height !in sets {
        var idx, _ := BinarySearch(sortedHeights, height);
        ghost var before := sortedHeights;
        sortedHeights := sortedHeights[..idx] + [height] + sortedHeights[idx..];
        InsertKeepsOrder(before, idx, height);
      }
      sets := sets[height := valSet];
      if height > latest { latest := height; }
      saves := saves + [(height, valSet)];
      assert saves[..|saves| - 1] == old(saves);
    }

    method LoadValidatorSet(height: int) returns (r: Option<V>)
      requires Valid()
      ensures r == if height in History(saves) then Some(History(saves)[height]) else None
    {
      return if height in sets then Some(sets[height]) else None;
    }

    /** Reports nothing exactly when no positive height was ever saved, even
        if a set was saved at height 0 or below. */
    method LatestValidatorSet() returns (r: Option<V>)
      requires Valid()
      ensures r.None? <==> AllAtMost(History(saves), 0)
      ensures forall h :: h > 0 && InForce(History(saves), Latest(saves), h) ==> r == Some(History(saves)[h])
    {
      LatestIsGreatest(saves);
      if latest == 0 { return None; }
      assert InForce(sets, latest, latest);
      assert latest in History(saves) && latest > 0;
      r := Some(sets[latest]);
      forall h | h > 0 && InForce(History(saves), Latest(saves), h) ensures r == Some(History(saves)[h]) {
        OneInForce(History(saves), latest, h, latest);
      }
    }

    method ValidatorSetAtHeight(height: int) returns (r: Option<V>)
      requires Valid()
      ensures r.None? <==> AllAbove(History(saves), height)
      ensures forall h :: InForce(History(saves), height, h) ==> r == Some(History(saves)[h])
    {
      hide History;
      if |sortedHeights| == 0 { return None; }
      var idx, found := BinarySearch(sortedHeights, height);
      var activeHeight: int;
      if found {
        activeHeight := sortedHeights[idx];
      } else if idx > 0 {
        activeHeight := sortedHeights[idx - 1];
      } else {
        return None;
      }
      assert activeHeight in sortedHeights;
      assert InForce(sets, height, activeHeight);
      assert activeHeight in History(saves) && !(activeHeight > height);
      r := Some(sets[activeHeight]);
      forall h | InForce(History(saves), height, h) ensures r == Some(History(saves)[h]) {
        OneInForce(History(saves), height, h, activeHeight);
      }
    }
  }

  lemma InsertKeepsOrder(s: seq<int>, idx: nat, x: int)
    requires StrictlySorted(s) && idx <= |s| && x !in s
    requires forall i :: 0 <= i < idx ==> s[i] < x
    requires forall i :: idx <= i < |s| ==> s[i] >= x
    ensures StrictlySorted(s[..idx] + [x] + s[idx..])
    ensures forall h :: h in s[..idx] + [x] + s[idx..] <==> h in s || h == x
  {
    assert s == s[..idx] + s[idx..];
  }
}
