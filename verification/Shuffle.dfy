/** The Fisher-Yates shuffle that spreads load over hosts (src/utils.ts). */
module Shuffles {
  import opened Common

  datatype ShuffleError = LimitExceedsItems

  function Swap<T>(s: seq<T>, i: nat, j: nat): seq<T>
    requires i < |s| && j < |s|
  {
    s[i := s[j]][j := s[i]]
  }

  /** One index per step, each below the number of items that remain. */
  predicate IsChoice(choices: seq<nat>, remaining: nat) {
    |choices| <= remaining && forall k :: 0 <= k < |choices| ==> choices[k] < remaining - k
  }

  /** The items after the steps that the choices drive, downwards from `remaining`. */
  function Shuffled<T>(items: seq<T>, remaining: nat, choices: seq<nat>): (r: seq<T>)
    requires remaining <= |items| && IsChoice(choices, remaining)
    ensures |r| == |items|
    decreases |choices|
  {
    if choices == [] then items else
      assert IsChoice(choices[1..], remaining - 1);
      Shuffled(Swap(items, remaining - 1, choices[0]), remaining - 1, choices[1..])
  }

  /** `limit % items.length === 0`, where a zero length gives NaN and so false. */
  predicate WholeArray(n: nat, limit: int) {
    n > 0 && limit % n == 0
  }

  /** The index below which no item is picked. */
  function LowerBound(n: nat, limit: int): int {
    if WholeArray(n, limit) then 1 else n - limit
  }

  /** `slice(lowerBound)` on the shuffled items; a bound beyond the end, from a negative limit, gives nothing. */
  function Picked<T>(items: seq<T>, limit: int, choices: seq<nat>): seq<T>
    requires limit <= |items| && IsChoice(choices, |items|) && |choices| == Steps(|items|, limit)
  {
    var shuffled := Shuffled(items, |items|, choices);
    if WholeArray(|items|, limit) then shuffled
    else if LowerBound(|items|, limit) > |items| then [] else shuffled[LowerBound(|items|, limit)..]
  }

  /** How many random indexes are drawn. */
  function Steps(n: nat, limit: int): nat
    requires limit <= n
  {
    if n >= LowerBound(n, limit) then n - LowerBound(n, limit) else 0
  }

  /** `random` holds one draw for each step. */
  method Shuffle<T>(sequence: seq<T>, limit: int, random: seq<nat>) returns (r: Result<seq<T>, ShuffleError>)
    requires limit <= |sequence| ==> IsChoice(random, |sequence|) && |random| == Steps(|sequence|, limit)
    ensures limit > |sequence| ==> r == Err(LimitExceedsItems)
    ensures limit <= |sequence| ==> r == Ok(Picked(sequence, limit, random))
  {
    var items := new T[|sequence|](i requires 0 <= i < |sequence| => sequence[i]);
    if limit > items.Length {
      return Err(LimitExceedsItems);
    }
    assert items[..] == sequence;
    var remainingItemsToShuffle := items.Length;
    var lowerBound := LowerBound(items.Length, limit);
    var k := 0;
    assert random[0..] == random;
    while remainingItemsToShuffle > lowerBound
      invariant 0 <= k <= |random| && remainingItemsToShuffle == items.Length - k
      invariant IsChoice(random[k..], remainingItemsToShuffle)
      invariant Shuffled(items[..], remainingItemsToShuffle, random[k..]) == Shuffled(sequence, |sequence|, random)
      decreases remainingItemsToShuffle
    {
      assert random[k..][1..] == random[k + 1..];
      var randomIndex := random[k];
      ghost var before := items[..];
      remainingItemsToShuffle := remainingItemsToShuffle - 1;
      var swapHold := items[remainingItemsToShuffle];
      items[remainingItemsToShuffle] := items[randomIndex];
      items[randomIndex] := swapHold;
      assert items[..] == Swap(before, remainingItemsToShuffle, randomIndex);
      k := k + 1;
    }
    assert random[k..] == [];
    r := Ok(if WholeArray(items.Length, limit) then items[..]
            else if lowerBound > items.Length then [] else items[lowerBound..]);
  }

  // ---------------------------------------------------------------- permutation

  lemma SwapKeeps<T>(s: seq<T>, i: nat, j: nat)
    requires i < |s| && j < |s|
    ensures multiset(Swap(s, i, j)) == multiset(s)
  {
  }

  lemma {:induction false} ShuffledPermutes<T>(items: seq<T>, remaining: nat, choices: seq<nat>)
    requires remaining <= |items| && IsChoice(choices, remaining)
    ensures multiset(Shuffled(items, remaining, choices)) == multiset(items)
    ensures Shuffled(items, remaining, choices)[remaining..] == items[remaining..]
    decreases |choices|
  {
    if choices != [] {
      var next := Swap(items, remaining - 1, choices[0]);
      SwapKeeps(items, remaining - 1, choices[0]);
      assert IsChoice(choices[1..], remaining - 1);
      ShuffledPermutes(next, remaining - 1, choices[1..]);
      assert next[remaining - 1..][1..] == next[remaining..] == items[remaining..];
    }
  }

  /** A whole shuffle is a permutation; a partial one holds `limit` items, none more often than it was given. */
  lemma PickedSelects<T>(items: seq<T>, limit: int, choices: seq<nat>)
    requires limit <= |items| && IsChoice(choices, |items|) && |choices| == Steps(|items|, limit)
    ensures WholeArray(|items|, limit) ==> multiset(Picked(items, limit, choices)) == multiset(items)
    ensures !WholeArray(|items|, limit) && limit >= 0 ==>
              |Picked(items, limit, choices)| == limit && multiset(Picked(items, limit, choices)) <= multiset(items)
    ensures !WholeArray(|items|, limit) && limit < 0 ==> Picked(items, limit, choices) == [] && choices == []
  {
    ShuffledPermutes(items, |items|, choices);
    if !WholeArray(|items|, limit) && limit >= 0 {
      var shuffled := Shuffled(items, |items|, choices);
      var b := |items| - limit;
      assert shuffled == shuffled[..b] + shuffled[b..];
    }
  }

  // ---------------------------------------------------------------- every arrangement, exactly once

  predicate Distinct<T(==)>(s: seq<T>) {
    forall i, j :: 0 <= i < j < |s| ==> s[i] != s[j]
  }

  lemma SwapDistinct<T>(s: seq<T>, i: nat, j: nat)
    requires i < |s| && j < |s| && Distinct(s)
    ensures Distinct(Swap(s, i, j))
  {
  }

  /** Different choices give different arrangements. */
  lemma {:induction false} ChoicesDiffer<T>(items: seq<T>, remaining: nat, a: seq<nat>, b: seq<nat>)
    requires remaining <= |items| && Distinct(items) && IsChoice(a, remaining) && IsChoice(b, remaining) && |a| == |b|
    requires Shuffled(items, remaining, a)[remaining - |a|..] == Shuffled(items, remaining, b)[remaining - |b|..]
    ensures a == b
    decreases |a|
  {
    if a != [] {
      var last := remaining - 1;
      var x, y := Swap(items, last, a[0]), Swap(items, last, b[0]);
      assert IsChoice(a[1..], last) && IsChoice(b[1..], last);
      ShuffledPermutes(x, last, a[1..]);
      ShuffledPermutes(y, last, b[1..]);
      var sa, sb := Shuffled(items, remaining, a), Shuffled(items, remaining, b);
      assert sa[last..][0] == x[last] == items[a[0]];
      assert sb[last..][0] == y[last] == items[b[0]];
      var low := remaining - |a|;
      assert sa[low..][last - low] == sb[low..][last - low];
      assert a[0] == b[0];
      SwapDistinct(items, last, a[0]);
      ChoicesDiffer(x, last, a[1..], b[1..]);
      HeadTail(a);
      HeadTail(b);
    }
  }

  /** Every arrangement of items that are still to be shuffled is reached. */
  lemma {:induction false} ChoicesReach<T>(items: seq<T>, remaining: nat, target: seq<T>) returns (choices: seq<nat>)
    requires |target| <= remaining <= |items| && Distinct(items) && Distinct(target)
    requires forall i :: 0 <= i < |target| ==> target[i] in items[..remaining]
    ensures IsChoice(choices, remaining) && |choices| == |target|
    ensures Shuffled(items, remaining, choices)[remaining - |target|..remaining] == target
    decreases |target|
  {
    if target == [] {
      choices := [];
    } else {
      var last, n := remaining - 1, |target| - 1;
      var c :| 0 <= c < remaining && items[c] == target[n];
      var next := Swap(items, last, c);
      SwapDistinct(items, last, c);
      forall i | 0 <= i < n
        ensures target[i] in next[..last]
      {
        StillThere(items, remaining, c, target[i]);
      }
      var rest := ChoicesReach(next, last, target[..n]);
      choices := [c] + rest;
      assert choices[1..] == rest;
      ShuffledPermutes(next, last, rest);
      Placed(Shuffled(next, last, rest), next, last, target);
    }
  }

  lemma StillThere<T>(items: seq<T>, remaining: nat, c: nat, x: T)
    requires c < remaining <= |items| && x in items[..remaining] && x != items[c]
    ensures x in Swap(items, remaining - 1, c)[..remaining - 1]
  {
    var k :| 0 <= k < remaining && items[k] == x;
    var next := Swap(items, remaining - 1, c);
    if k == remaining - 1 {
      assert next[..remaining - 1][c] == x;
    } else {
      assert next[..remaining - 1][k] == x;
    }
  }

  /** The item put at `last` stays there, behind the rest of the target. */
  lemma Placed<T>(s: seq<T>, next: seq<T>, last: nat, target: seq<T>)
    requires last < |s| == |next| && 0 < |target| <= last + 1 && s[last..] == next[last..]
    requires next[last] == target[|target| - 1]
    requires s[last - (|target| - 1)..last] == target[..|target| - 1]
    ensures s[last + 1 - |target|..last + 1] == target
  {
    assert s[last] == s[last..][0] == next[last..][0];
    assert s[last + 1 - |target|..last + 1] == s[last + 1 - |target|..last] + [s[last]];
  }

  lemma ProperLimit(n: nat, limit: nat)
    requires 0 < limit < n
    ensures !WholeArray(n, limit) && Steps(n, limit) == limit && LowerBound(n, limit) == n - limit
  {
  }

  /** A partial shuffle: each selection of `limit` items, in each order, comes from exactly one choice of indexes. */
  lemma PartialBijection<T>(items: seq<T>, limit: nat, target: seq<T>) returns (choices: seq<nat>)
    requires 0 < limit < |items| && Distinct(items)
    requires |target| == limit && Distinct(target) && forall i :: 0 <= i < limit ==> target[i] in items
    ensures IsChoice(choices, |items|) && |choices| == Steps(|items|, limit) && Picked(items, limit, choices) == target
    ensures forall other ::
              IsChoice(other, |items|) && |other| == Steps(|items|, limit) && Picked(items, limit, other) == target ==>
                other == choices
  {
    var n := |items|;
    assert items[..n] == items;
    ProperLimit(n, limit);
    choices := ChoicesReach(items, n, target);
    var s := Shuffled(items, n, choices);
    assert s[n - limit..n] == s[n - limit..];
    forall other | IsChoice(other, n) && |other| == Steps(n, limit) && Picked(items, limit, other) == target
      ensures other == choices
    {
      ChoicesDiffer(items, n, choices, other);
    }
  }

  /** A whole shuffle: each permutation comes from exactly one choice of indexes. */
  lemma WholeBijection<T>(items: seq<T>, limit: nat, target: seq<T>) returns (choices: seq<nat>)
    requires items != [] && (limit == 0 || limit == |items|) && Distinct(items) && multiset(target) == multiset(items)
    ensures IsChoice(choices, |items|) && |choices| == Steps(|items|, limit) && Picked(items, limit, choices) == target
    ensures forall other ::
              IsChoice(other, |items|) && |other| == Steps(|items|, limit) && Picked(items, limit, other) == target ==>
                other == choices
  {
    var n := |items|;
    SameSize(items, target);
    PermutationDistinct(items, target);
    assert items[..n] == items;
    forall i | 0 <= i < n - 1
      ensures target[1..][i] in items
    {
      assert target[i + 1] in multiset(target);
    }
    choices := ChoicesReach(items, n, target[1..]);
    var s := Shuffled(items, n, choices);
    assert s[1..n] == s[1..];
    ShuffledPermutes(items, n, choices);
    FirstDetermined(s, target);
    forall other | IsChoice(other, n) && |other| == Steps(n, limit) && Picked(items, limit, other) == target
      ensures other == choices
    {
      ChoicesDiffer(items, n, choices, other);
    }
  }

  lemma SameSize<T>(a: seq<T>, b: seq<T>)
    requires multiset(a) == multiset(b)
    ensures |a| == |b|
  {
    assert |multiset(a)| == |a| && |multiset(b)| == |b|;
  }

  lemma FirstDetermined<T>(a: seq<T>, b: seq<T>)
    requires multiset(a) == multiset(b) && a != [] && |a| == |b| && a[1..] == b[1..]
    ensures a == b
  {
    HeadTail(a);
    HeadTail(b);
    assert multiset(a) == multiset{a[0]} + multiset(a[1..]);
    assert multiset(b) == multiset{b[0]} + multiset(b[1..]);
    assert multiset(a)[a[0]] == multiset(b)[a[0]];
  }

  lemma PermutationDistinct<T>(a: seq<T>, b: seq<T>)
    requires Distinct(a) && multiset(a) == multiset(b)
    ensures Distinct(b)
  {
    forall i, j | 0 <= i < j < |b|
      ensures b[i] != b[j]
    {
      if b[i] == b[j] {
        Twice(b, i, j);
        AtMostOnce(a, b[i]);
      }
    }
  }

  lemma Twice<T>(s: seq<T>, i: nat, j: nat)
    requires i < j < |s| && s[i] == s[j]
    ensures multiset(s)[s[i]] >= 2
  {
    assert s == s[..i] + [s[i]] + s[i + 1..j] + [s[j]] + s[j + 1..];
  }

  lemma {:induction false} AtMostOnce<T>(s: seq<T>, x: T)
    requires Distinct(s)
    ensures multiset(s)[x] <= 1
  {
    if s != [] {
      HeadTail(s);
      AtMostOnce(s[1..], x);
      assert multiset(s) == multiset{s[0]} + multiset(s[1..]);
    }
  }
}
