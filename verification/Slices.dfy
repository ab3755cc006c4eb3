/** Go slices as (backing array, length), and the deletion loop shared by
    `delGroupClient` and `delSystemClient` (servers/clientmanager.go:404-412, 437-445).

    The loop ranges over the slice header it started with, while its body replaces the
    stored slice by a shorter header of the same array, after either moving the tail one
    place down or merely cutting the length. `s[:j]` is legal up to the capacity, so a
    later cut may make the slice longer again. */
module Slices {
  import opened Lists

  /** A list as the loop leaves it; `panicked` when a slice expression went out of range. */
  datatype Outcome<T> = Outcome(list: seq<T>, panicked: bool)

  /** `append(s[:i], s[i+1:]...)` on the backing array. */
  function Moved<T>(back: seq<T>, len: nat, i: nat): (r: seq<T>)
    requires i < len <= |back|
    ensures |r| == |back|
  {
    back[..i] + back[i + 1..len] + back[len - 1..]
  }

  /** The loop from index `i` on. `back` is the part of the backing array under the header
      being ranged over, `len` the current length of the stored slice, and `bound` the
      value that the code compares the index with. */
  function DeleteFrom<T(==)>(back: seq<T>, len: nat, i: nat, x: T, bound: nat): Outcome<T>
    requires len <= |back| && i <= |back|
    decreases |back| - i
  {
    if i == |back| then Outcome(back[..len], false)
    else if back[i] != x then DeleteFrom(back, len, i + 1, x, bound)
    else if i + 1 < bound then
      if i + 1 <= len then
        DeleteFrom(Moved(back, len, i), len - 1, i + 1, x, bound)
      else
        Outcome(back[..len], true)
    else DeleteFrom(back, i, i + 1, x, bound)
  }

  /** The backing array when that loop ends. */
  function BackAfter<T(==)>(back: seq<T>, len: nat, i: nat, x: T, bound: nat): (r: seq<T>)
    requires len <= |back| && i <= |back|
    ensures |r| == |back|
    decreases |back| - i
  {
    if i == |back| then back
    else if back[i] != x then BackAfter(back, len, i + 1, x, bound)
    else if i + 1 < bound then
      if i + 1 <= len then BackAfter(Moved(back, len, i), len - 1, i + 1, x, bound) else back
    else BackAfter(back, i, i + 1, x, bound)
  }

  lemma {:induction false} CutsMoveNothing<T>(back: seq<T>, len: nat, i: nat, x: T, bound: nat)
    requires len <= |back| && i <= |back|
    requires forall j :: i <= j < |back| && back[j] == x ==> j + 1 >= bound
    ensures BackAfter(back, len, i, x, bound) == back
    ensures !DeleteFrom(back, len, i, x, bound).panicked
    decreases |back| - i
  {
    if i < |back| {
      CutsMoveNothing(back, if back[i] == x then i else len, i + 1, x, bound);
    }
  }

  /** The stored slice is a prefix of that array. */
  lemma {:induction false} ListIsPrefix<T>(back: seq<T>, len: nat, i: nat, x: T, bound: nat)
    requires len <= |back| && i <= |back|
    ensures var list := DeleteFrom(back, len, i, x, bound).list;
            |list| <= |back| && list == BackAfter(back, len, i, x, bound)[..|list|]
    decreases |back| - i
  {
    if i < |back| {
      if back[i] != x {
        ListIsPrefix(back, len, i + 1, x, bound);
      } else if i + 1 < bound {
        if i + 1 <= len {
          ListIsPrefix(Moved(back, len, i), len - 1, i + 1, x, bound);
        }
      } else {
        ListIsPrefix(back, i, i + 1, x, bound);
      }
    }
  }

  function Delete<T(==)>(s: seq<T>, x: T, bound: nat): Outcome<T> {
    DeleteFrom(s, |s|, 0, x, bound)
  }

  // ---- the cutting phase: no index left is below the bound ----

  lemma {:induction false} CutPhase<T>(back: seq<T>, len: nat, i: nat, x: T, bound: nat)
    requires len <= |back| && i <= |back|
    requires i + 1 >= bound
    ensures DeleteFrom(back, len, i, x, bound) ==
            Outcome(if x in back[i..] then back[..LastIndex(back, x)] else back[..len], false)
    decreases |back| - i
  {
    if i < |back| {
      assert back[i..] == [back[i]] + back[i + 1..];
      if back[i] == x {
        CutPhase(back, i, i + 1, x, bound);
        if x !in back[i + 1..] {
          assert forall j :: i < j < |back| ==> back[j] == back[i + 1..][j - i - 1];
          assert LastIndex(back, x) == i;
        }
      } else {
        CutPhase(back, len, i + 1, x, bound);
      }
    }
  }

  /** With at most one group in the registry the loop never moves an element: whatever the
      list, it is cut before the last occurrence of `x`. */
  lemma DeleteWithFewGroups<T>(s: seq<T>, x: T, bound: nat)
    requires bound <= 1
    ensures Delete(s, x, bound) == Outcome(if x in s then s[..LastIndex(s, x)] else s, false)
  {
    CutPhase(s, |s|, 0, x, bound);
    assert s[0..] == s && s[..|s|] == s;
  }

  // ---- when the loop computes the order-preserving filter ----

  /** No two occurrences of `x` are neighbours. */
  ghost predicate Spread<T>(s: seq<T>, x: T) {
    |s| >= 2 ==> (s[0] == x ==> s[1] != x) && Spread(s[1..], x)
  }

  lemma {:induction false} SpreadMeans<T>(s: seq<T>, x: T)
    ensures Spread(s, x) <==> forall i, j :: 0 <= i < j < |s| && s[i] == x && s[j] == x ==> i + 1 < j
  {
    if |s| >= 2 {
      SpreadMeans(s[1..], x);
      if Spread(s, x) {
        forall i, j | 0 <= i < j < |s| && s[i] == x && s[j] == x ensures i + 1 < j {
          if i > 0 {
            assert s[1..][i - 1] == x && s[1..][j - 1] == x;
          }
        }
      } else if !Spread(s[1..], x) {
        var i, j :| 0 <= i < j < |s[1..]| && s[1..][i] == x && s[1..][j] == x && i + 1 >= j;
        assert s[i + 1] == x && s[j + 1] == x;
      }
    }
  }

  /** The exact condition on the input for the loop to leave `Without(s, x)`. */
  ghost predicate FilterCondition<T>(s: seq<T>, x: T, bound: nat) {
    x in s ==>
      var n, c := |s|, Count(s, x);
      || (c == 1 && s[n - 1] == x)
      || (Spread(s, x) && (if s[n - 1] == x then n - c + 2 < bound else LastIndex(s, x) - c + 2 < bound))
  }

  /** The loop state after `i` indices and `k` moves: what the remaining indices will read
      is the original list shifted by `k`, its last element repeated at the end. */
  ghost predicate Shifted<T>(s: seq<T>, back: seq<T>, len: nat, i: nat, k: nat) {
    && |back| == |s| && len + k == |s| && k <= i <= |s|
    && (forall j :: i <= j < |s| && j < |s| - k ==> back[j] == s[j + k])
    && (forall j :: i <= j < |s| && j >= |s| - k ==> back[j] == s[|s| - 1])
  }

  /** An occurrence already passed over stays. */
  lemma {:induction false} SkippedStays<T>(back: seq<T>, len: nat, i: nat, x: T, bound: nat, p: nat)
    requires len <= |back| && i <= |back|
    requires p < i && p < len && back[p] == x
    ensures x in DeleteFrom(back, len, i, x, bound).list
    decreases |back| - i
  {
    if i == |back| || (back[i] == x && i + 1 < bound && i + 1 > len) {
      assert back[..len][p] == x;
    } else if back[i] != x {
      SkippedStays(back, len, i + 1, x, bound, p);
    } else if i + 1 < bound {
      SkippedStays(Moved(back, len, i), len - 1, i + 1, x, bound, p);
    } else {
      SkippedStays(back, i, i + 1, x, bound, p);
    }
  }

  /** Spread occurrences need room: `m` of them from `q` on end at or after `q + 2m - 2`. */
  lemma {:induction false} SpreadRoom<T>(s: seq<T>, x: T, q: nat)
    requires q <= |s| && x in s[q..] && Spread(s, x)
    ensures x in s && LastIndex(s, x) + 2 >= q + 2 * Count(s[q..], x)
    decreases |s| - q
  {
    SpreadMeans(s, x);
    assert s[q..] == [s[q]] + s[q + 1..];
    if x !in s[q + 1..] {
      CountPositive(s[q + 1..], x);
      assert s[q] in s;
    } else if s[q] != x {
      SpreadRoom(s, x, q + 1);
    } else {
      assert s[q + 1..] == [s[q + 1]] + s[q + 2..];
      SpreadRoom(s, x, q + 2);
    }
  }

  /** The elements of `s` accounted for after `i` indices and `k` moves. */
  ghost function Seen<T>(s: seq<T>, i: nat, k: nat): seq<T> {
    if i + k <= |s| then s[..i + k] else s
  }

  /** The part of the stored slice that has been passed over. */
  ghost function Kept<T>(back: seq<T>, len: nat, i: nat): seq<T>
    requires len <= |back|
  {
    if i <= len then back[..i] else back[..len]
  }

  /** Everything read so far was handled as the filter would: `i` indices, `k` moves. */
  ghost predicate OnTrack<T>(s: seq<T>, back: seq<T>, len: nat, i: nat, x: T, k: nat) {
    && Shifted(s, back, len, i, k)
    && i + k <= |s| + 1
    && (i + k == |s| + 1 ==> s[|s| - 1] == x)
    && (i + k == |s| > 0 ==> s[|s| - 1] != x)
    && Count(Seen(s, i, k), x) == k
    && Kept(back, len, i) == Without(Seen(s, i, k), x)
  }

  lemma TakeMore<T>(s: seq<T>, q: nat, x: T)
    requires q < |s|
    ensures Count(s[..q + 1], x) == Count(s[..q], x) + if s[q] == x then 1 else 0
    ensures Without(s[..q + 1], x) == Without(s[..q], x) + if s[q] == x then [] else [s[q]]
  {
    assert s[..q + 1] == s[..q] + [s[q]];
    CountAppend(s[..q], [s[q]], x);
    WithoutAppend(s[..q], [s[q]], x);
  }

  /** Reading an element other than `x`. */
  lemma StepOver<T>(s: seq<T>, back: seq<T>, len: nat, i: nat, x: T, k: nat)
    requires OnTrack(s, back, len, i, x, k)
    requires i + k < |s| && back[i] != x
    ensures OnTrack(s, back, len, i + 1, x, k)
  {
    TakeMore(s, i + k, x);
    KeepOne(back, i);
  }

  lemma KeepOne<T>(back: seq<T>, i: nat)
    requires i < |back|
    ensures back[..i + 1] == back[..i] + [back[i]]
  {
  }

  lemma ShiftedMove<T>(s: seq<T>, back: seq<T>, len: nat, i: nat, k: nat)
    requires Shifted(s, back, len, i, k)
    requires i < len
    ensures Shifted(s, Moved(back, len, i), len - 1, i + 1, k + 1)
  {
  }

  lemma MovedPrefix<T>(s: seq<T>, back: seq<T>, len: nat, i: nat, k: nat)
    requires Shifted(s, back, len, i, k)
    requires i < len
    ensures i + 1 < len ==> Moved(back, len, i)[..i + 1] == back[..i] + [s[i + k + 1]]
    ensures i + 1 == len ==> Moved(back, len, i)[..len - 1] == back[..i]
  {
    var moved := Moved(back, len, i);
    assert moved[..i] == back[..i];
    if i + 1 < len {
      assert moved[i] == back[i + 1] == s[i + k + 1];
      assert moved[..i + 1] == moved[..i] + [moved[i]];
    }
  }

  lemma SeenAfterMove<T>(s: seq<T>, x: T, i: nat, k: nat)
    requires i + k < |s| && s[i + k] == x
    requires i + k + 1 < |s| ==> s[i + k + 1] != x
    ensures Count(Seen(s, i + 1, k + 1), x) == Count(Seen(s, i, k), x) + 1
    ensures Without(Seen(s, i + 1, k + 1), x) ==
            Without(Seen(s, i, k), x) + if i + k + 1 < |s| then [s[i + k + 1]] else []
  {
    TakeMore(s, i + k, x);
    if i + k + 1 < |s| {
      TakeMore(s, i + k + 1, x);
    } else {
      assert s[..i + k + 1] == s;
    }
  }

  lemma KeptAfterMove<T>(s: seq<T>, back: seq<T>, len: nat, i: nat, k: nat)
    requires Shifted(s, back, len, i, k) && i < len
    ensures Kept(Moved(back, len, i), len - 1, i + 1) ==
            Kept(back, len, i) + if i + k + 1 < |s| then [s[i + k + 1]] else []
  {
    MovedPrefix(s, back, len, i, k);
  }

  /** Moving the tail down over an occurrence that has no occurrence behind it. */
  lemma StepMove<T>(s: seq<T>, back: seq<T>, len: nat, i: nat, x: T, k: nat)
    requires OnTrack(s, back, len, i, x, k)
    requires i < len && back[i] == x
    requires i + 1 < len ==> s[i + k + 1] != x
    ensures OnTrack(s, Moved(back, len, i), len - 1, i + 1, x, k + 1)
  {
    assert s[i + k] == x;
    ShiftedMove(s, back, len, i, k);
    KeptAfterMove(s, back, len, i, k);
    SeenAfterMove(s, x, i, k);
  }

  /** The occurrences accounted for were spread, and each was moved over at an index
      below the bound. */
  ghost predicate MovesAllowed<T>(s: seq<T>, i: nat, x: T, k: nat, bound: nat) {
    var seen := Seen(s, i, k);
    && Spread(seen, x)
    && (i + k <= |s| ==> seen == [] || seen[|seen| - 1] != x)
    && (x in seen ==> LastIndex(seen, x) - k + 2 < bound)
  }

  lemma AllowedStepOver<T>(s: seq<T>, i: nat, x: T, k: nat, bound: nat)
    requires i + k < |s| && s[i + k] != x
    requires MovesAllowed(s, i, x, k, bound)
    ensures MovesAllowed(s, i + 1, x, k, bound)
  {
    var seen, seen' := Seen(s, i, k), Seen(s, i + 1, k);
    assert seen' == seen + [s[i + k]];
    SpreadMeans(seen, x);
    SpreadMeans(seen', x);
    if x in seen' {
      SameLastIndex(seen', seen, x);
    }
  }

  lemma SameLastIndex<T>(t: seq<T>, seen: seq<T>, x: T)
    requires seen <= t && x in t
    requires forall j :: |seen| <= j < |t| ==> t[j] != x
    ensures x in seen && LastIndex(t, x) == LastIndex(seen, x)
  {
  }

  lemma AllowedStepMove<T>(s: seq<T>, i: nat, x: T, k: nat, bound: nat)
    requires i + k < |s| && s[i + k] == x && i + 1 < bound
    requires i + k + 1 < |s| ==> s[i + k + 1] != x
    requires MovesAllowed(s, i, x, k, bound)
    ensures MovesAllowed(s, i + 1, x, k + 1, bound)
  {
    var q := i + k;
    var seen, seen' := Seen(s, i, k), Seen(s, i + 1, k + 1);
    assert forall j :: 0 <= j < |seen'| ==> seen'[j] == s[j];
    assert forall j :: 0 <= j < |seen| ==> seen[j] == s[j];
    SpreadMeans(seen, x);
    SpreadMeans(seen', x);
    assert seen'[q] == x && forall j :: q < j < |seen'| ==> seen'[j] != x;
    assert LastIndex(seen', x) == q;
  }

  /** The theorem about an outcome `r` of the loop. */
  ghost predicate Agrees<T>(s: seq<T>, r: Outcome<T>, x: T, bound: nat) {
    && (r.list == Without(s, x) <==> FilterCondition(s, x, bound))
    && (r.list == Without(s, x) ==> (r.panicked <==> Count(s, x) >= 2 && s[|s| - 1] == x))
  }

  lemma NotSpread<T>(s: seq<T>, x: T, q: nat, bound: nat)
    requires q + 1 < |s| && s[q] == x && s[q + 1] == x
    ensures !FilterCondition(s, x, bound)
  {
    SpreadMeans(s, x);
    assert s == s[..q] + ([x, x] + s[q + 2..]);
    CountAppend(s[..q], [x, x] + s[q + 2..], x);
    CountAppend([x, x], s[q + 2..], x);
  }

  /** A moved-over occurrence followed by another one: neither side of the theorem holds. */
  lemma NeighbourMissed<T>(s: seq<T>, back: seq<T>, len: nat, i: nat, x: T, bound: nat)
    requires i + 1 < len <= |back| && back[i] == x && back[i + 1] == x && i + 1 < bound
    requires !FilterCondition(s, x, bound)
    ensures Agrees(s, DeleteFrom(back, len, i, x, bound), x, bound)
  {
    SkippedStays(Moved(back, len, i), len - 1, i + 1, x, bound, i);
    WithoutLacks(s, x);
  }

  lemma CutCondition<T>(s: seq<T>, i: nat, x: T, k: nat, bound: nat)
    requires i + k < |s| && s[i + k] == x && Count(s[..i + k], x) == k
    requires i + 1 >= bound
    ensures FilterCondition(s, x, bound) <==> (k == 0 && i + 1 == |s|)
  {
    var q := i + k;
    SplitAt(s, q, x);
    var rest := s[q + 1..];
    assert s[q..] == [x] + rest;
    assert Count(s, x) == k + 1 + Count(rest, x);
    if q + 1 < |s| {
      CountPositive(rest, x);
      assert rest[|s| - q - 2] == s[|s| - 1];
      if Spread(s, x) {
        SpreadRoom(s, x, q);
      }
    }
  }

  /** From an occurrence at or above the bound on, the theorem holds only for one that is
      alone and last. */
  lemma CutAlone<T>(s: seq<T>, back: seq<T>, len: nat, i: nat, x: T, k: nat, bound: nat)
    requires OnTrack(s, back, len, i, x, k)
    requires i < len && back[i] == x && i + 1 >= bound
    ensures FilterCondition(s, x, bound) <==> (k == 0 && i + 1 == |s|)
  {
    assert s[i + k] == x;
    CutCondition(s, i, x, k, bound);
  }

  /** The filter of what comes before an occurrence is the whole filter only when nothing
      comes after it. */
  lemma CutTooShort<T>(s: seq<T>, q: nat, x: T)
    requires q < |s| && s[q] == x
    requires q + 1 < |s| ==> s[q + 1] != x
    ensures Without(s[..q], x) == Without(s, x) <==> q + 1 == |s|
  {
    TakeMore(s, q, x);
    if q + 1 < |s| {
      TakeMore(s, q + 1, x);
      SplitAt(s, q + 2, x);
    } else {
      assert s[..q + 1] == s;
    }
  }

  lemma CutResult<T>(s: seq<T>, back: seq<T>, len: nat, i: nat, x: T, k: nat, bound: nat)
    requires OnTrack(s, back, len, i, x, k)
    requires i < len && back[i] == x && i + 1 >= bound
    ensures var r := DeleteFrom(back, len, i, x, bound);
            !r.panicked && (r.list == Without(s, x) <==> k == 0 && i + 1 == |s|)
  {
    CutPhase(back, len, i, x, bound);
    assert back[i..][0] == x;
    var last := LastIndex(back, x);
    if last > i {
      assert back[..last][i] == x;
      WithoutLacks(s, x);
    } else {
      CutAtFirst(s, back, len, i, x, k);
    }
  }

  lemma CutAtFirst<T>(s: seq<T>, back: seq<T>, len: nat, i: nat, x: T, k: nat)
    requires OnTrack(s, back, len, i, x, k)
    requires i < len && back[i] == x
    requires forall j :: i < j < |back| ==> back[j] != x
    ensures back[..i] == Without(s, x) <==> k == 0 && i + 1 == |s|
  {
    assert s[i + k] == x;
    assert k > 0 ==> back[|s| - 1] == s[|s| - 1];
    if i + k + 1 < |s| {
      assert back[i + 1] == s[i + k + 1];
    }
    CutTooShort(s, i + k, x);
  }

  /** After the last element was moved over, the indices that remain read copies of it. */
  lemma TailOfCopies<T>(s: seq<T>, back: seq<T>, len: nat, i: nat, x: T, k: nat, bound: nat)
    requires OnTrack(s, back, len, i, x, k)
    requires i + k == |s| + 1 && MovesAllowed(s, i, x, k, bound)
    ensures Agrees(s, DeleteFrom(back, len, i, x, bound), x, bound)
  {
    assert s[|s| - 1] == x;
    if i < |s| {
      assert back[i] == x;
      if i + 1 >= bound {
        CutPhase(back, len, i, x, bound);
        assert back[i..][0] == x;
        assert back[|s| - 1] == x;
        assert LastIndex(back, x) == |s| - 1;
        WithoutCounts(s, x, x);
      }
    }
  }

  lemma AllRead<T>(s: seq<T>, back: seq<T>, len: nat, i: nat, x: T, k: nat, bound: nat)
    requires OnTrack(s, back, len, i, x, k)
    requires i + k == |s| && MovesAllowed(s, i, x, k, bound)
    ensures Agrees(s, DeleteFrom(back, len, i, x, bound), x, bound)
  {
    assert s[..|s|] == s;
    NothingLeft(back, len, i, x, bound);
  }

  lemma FirstCut<T>(s: seq<T>, back: seq<T>, len: nat, i: nat, x: T, k: nat, bound: nat)
    requires OnTrack(s, back, len, i, x, k)
    requires i < len && back[i] == x && i + 1 >= bound
    ensures Agrees(s, DeleteFrom(back, len, i, x, bound), x, bound)
  {
    CutAlone(s, back, len, i, x, k, bound);
    CutResult(s, back, len, i, x, k, bound);
    if k == 0 && i + 1 == |s| {
      TakeMore(s, i, x);
      assert s[..i + 1] == s;
    }
  }

  lemma {:induction false} NothingLeft<T>(back: seq<T>, len: nat, i: nat, x: T, bound: nat)
    requires len <= |back| && i <= |back|
    requires forall j :: i <= j < |back| ==> back[j] != x
    ensures DeleteFrom(back, len, i, x, bound) == Outcome(back[..len], false)
    decreases |back| - i
  {
    if i < |back| {
      NothingLeft(back, len, i + 1, x, bound);
    }
  }

  /** Whether index `i` leaves the loop on track for the filter. */
  predicate StaysOnTrack<T(==)>(back: seq<T>, len: nat, i: nat, x: T, bound: nat)
    requires len <= |back|
  {
    && i < len
    && (back[i] == x ==> i + 1 < bound && (i + 1 < len ==> back[i + 1] != x))
  }

  lemma Settled<T>(s: seq<T>, back: seq<T>, len: nat, i: nat, x: T, k: nat, bound: nat)
    requires OnTrack(s, back, len, i, x, k) && MovesAllowed(s, i, x, k, bound)
    requires !StaysOnTrack(back, len, i, x, bound)
    ensures Agrees(s, DeleteFrom(back, len, i, x, bound), x, bound)
  {
    if i + k == |s| {
      AllRead(s, back, len, i, x, k, bound);
    } else if i + k > |s| {
      TailOfCopies(s, back, len, i, x, k, bound);
    } else if i + 1 >= bound {
      FirstCut(s, back, len, i, x, k, bound);
    } else {
      NotSpread(s, x, i + k, bound);
      NeighbourMissed(s, back, len, i, x, bound);
    }
  }

  lemma {:induction false} FilterFrom<T>(s: seq<T>, back: seq<T>, len: nat, i: nat, x: T, k: nat, bound: nat)
    requires OnTrack(s, back, len, i, x, k) && MovesAllowed(s, i, x, k, bound)
    ensures Agrees(s, DeleteFrom(back, len, i, x, bound), x, bound)
    decreases |s| - i, 1
  {
    if !StaysOnTrack(back, len, i, x, bound) {
      Settled(s, back, len, i, x, k, bound);
    } else if back[i] == x {
      FilterMoving(s, back, len, i, x, k, bound);
    } else {
      FilterReading(s, back, len, i, x, k, bound);
    }
  }

  /** The state after a move, as a value whose definition is not needed any more. */
  lemma MoveOn<T>(s: seq<T>, back: seq<T>, len: nat, i: nat, x: T, k: nat, bound: nat) returns (moved: seq<T>)
    requires OnTrack(s, back, len, i, x, k) && MovesAllowed(s, i, x, k, bound)
    requires StaysOnTrack(back, len, i, x, bound) && back[i] == x
    ensures OnTrack(s, moved, len - 1, i + 1, x, k + 1) && MovesAllowed(s, i + 1, x, k + 1, bound)
    ensures DeleteFrom(back, len, i, x, bound) == DeleteFrom(moved, len - 1, i + 1, x, bound)
  {
    StepMove(s, back, len, i, x, k);
    AllowedStepMove(s, i, x, k, bound);
    moved := Moved(back, len, i);
  }

  lemma {:induction false} FilterMoving<T>(s: seq<T>, back: seq<T>, len: nat, i: nat, x: T, k: nat, bound: nat)
    requires OnTrack(s, back, len, i, x, k) && MovesAllowed(s, i, x, k, bound)
    requires StaysOnTrack(back, len, i, x, bound) && back[i] == x
    ensures Agrees(s, DeleteFrom(back, len, i, x, bound), x, bound)
    decreases |s| - i, 0
  {
    var moved := MoveOn(s, back, len, i, x, k, bound);
    FilterFrom(s, moved, len - 1, i + 1, x, k + 1, bound);
  }

  lemma {:induction false} FilterReading<T>(s: seq<T>, back: seq<T>, len: nat, i: nat, x: T, k: nat, bound: nat)
    requires OnTrack(s, back, len, i, x, k) && MovesAllowed(s, i, x, k, bound)
    requires StaysOnTrack(back, len, i, x, bound) && back[i] != x
    ensures Agrees(s, DeleteFrom(back, len, i, x, bound), x, bound)
    decreases |s| - i, 0
  {
    StepOver(s, back, len, i, x, k);
    AllowedStepOver(s, i, x, k, bound);
    FilterFrom(s, back, len, i + 1, x, k, bound);
  }

  /** For every list, with or without duplicates, and every bound: the loop leaves the
      order-preserving filter exactly when `FilterCondition` holds, and then goes out of
      range exactly when `x` was there twice or more and also last. */
  lemma {:induction false} DeleteIsFilterIff<T>(s: seq<T>, x: T, bound: nat)
    ensures Delete(s, x, bound).list == Without(s, x) <==> FilterCondition(s, x, bound)
    ensures FilterCondition(s, x, bound) ==>
              (Delete(s, x, bound).panicked <==> Count(s, x) >= 2 && s[|s| - 1] == x)
  {
    assert Kept(s, |s|, 0) == [] == Seen(s, 0, 0);
    FilterFrom(s, s, |s|, 0, x, 0, bound);
  }

  // ---- the lists the registry can hold ----

  lemma {:induction false} NothingUntil<T>(back: seq<T>, len: nat, i: nat, p: nat, x: T, bound: nat)
    requires len <= |back| && i <= p <= |back|
    requires forall j :: i <= j < p ==> back[j] != x
    ensures DeleteFrom(back, len, i, x, bound) == DeleteFrom(back, len, p, x, bound)
    decreases p - i
  {
    if i < p {
      NothingUntil(back, len, i + 1, p, x, bound);
    }
  }

  lemma DistinctCount<T>(s: seq<T>, x: T)
    requires NoDuplicates(s) && x in s
    ensures Count(s, x) == 1
  {
    var p := LastIndex(s, x);
    SplitAt(s, p, x);
    assert s[p..] == [x] + s[p + 1..];
    CountPositive(s[..p], x);
    CountPositive(s[p + 1..], x);
  }

  lemma DistinctSpread<T>(s: seq<T>, x: T)
    requires NoDuplicates(s)
    ensures Spread(s, x)
  {
  }

  /** A list without duplicates: the filter when the index after `x` is below the bound,
      otherwise everything from `x` on is lost. So it is the filter exactly when `x` is
      absent, last, or below the bound. */
  lemma DeleteDistinct<T>(s: seq<T>, x: T, bound: nat)
    requires NoDuplicates(s)
    ensures x !in s ==> Delete(s, x, bound) == Outcome(s, false)
    ensures x in s ==>
              var p := LastIndex(s, x);
              Delete(s, x, bound) == Outcome(if p + 1 < bound then Without(s, x) else s[..p], false)
    ensures Delete(s, x, bound) == Outcome(Without(s, x), false)
            <==> (x in s ==> LastIndex(s, x) + 1 == |s| || LastIndex(s, x) + 1 < bound)
  {
    DeleteIsFilterIff(s, x, bound);
    DistinctSpread(s, x);
    if x in s {
      DistinctCount(s, x);
      var p := LastIndex(s, x);
      if p + 1 >= bound {
        NothingUntil(s, |s|, 0, p, x, bound);
        CutPhase(s, |s|, p, x, bound);
        assert s[p..][0] == x;
      }
    } else {
      NothingUntil(s, |s|, 0, |s|, x, bound);
      WithoutAbsent(s, x);
      assert s[..|s|] == s;
    }
  }

  function Copies<T>(n: nat, x: T): (s: seq<T>)
    ensures |s| == n && forall i :: 0 <= i < n ==> s[i] == x
  {
    seq(n, _ => x)
  }

  lemma CutCopies<T>(n: nat, len: nat, i: nat, x: T, bound: nat)
    requires i < n && len <= n && i + 1 >= bound
    ensures DeleteFrom(Copies(n, x), len, i, x, bound) == Outcome(Copies(n - 1, x), false)
  {
    var back := Copies(n, x);
    CutPhase(back, len, i, x, bound);
    assert back[i..][0] == x;
    assert back[n - 1] == x;
    assert back[..n - 1] == Copies(n - 1, x);
  }

  lemma MovedCopies<T>(n: nat, len: nat, i: nat, x: T)
    requires i < len <= n
    ensures Moved(Copies(n, x), len, i) == Copies(n, x)
  {
  }

  lemma {:induction false} DeleteCopiesFrom<T>(n: nat, i: nat, x: T, bound: nat)
    requires i <= n && 2 * i <= n + 1
    ensures DeleteFrom(Copies(n, x), n - i, i, x, bound) ==
            if n >= 2 && (n + 1) / 2 + 1 < bound then Outcome(Copies(n / 2, x), true)
            else Outcome(Copies(if n == 0 then 0 else n - 1, x), false)
    decreases n - i
  {
    var back := Copies(n, x);
    if i == n {
      assert back[..n - i] == Copies(0, x);
    } else if i + 1 >= bound {
      CutCopies(n, n - i, i, x, bound);
    } else if i + 1 <= n - i {
      MovedCopies(n, n - i, i, x);
      DeleteCopiesFrom(n, i + 1, x, bound);
    } else {
      assert back[..n - i] == Copies(n / 2, x);
    }
  }

  /** A list of `n` copies of `x` loses exactly one of them, unless the bound is above
      `(n + 1) / 2 + 1` (and `n > 1`): then the loop goes out of range with half left. */
  lemma DeleteFromCopies<T>(n: nat, x: T, bound: nat)
    ensures Delete(Copies(n, x), x, bound) ==
            if n >= 2 && (n + 1) / 2 + 1 < bound then Outcome(Copies(n / 2, x), true)
            else Outcome(Copies(if n == 0 then 0 else n - 1, x), false)
  {
    DeleteCopiesFrom(n, 0, x, bound);
  }

  /** When two bounds make a difference on a list without duplicates: only when they are on
      different sides of the index after `x`, and something comes after it. */
  lemma BoundsAgreeIff<T>(s: seq<T>, x: T, b1: nat, b2: nat)
    requires NoDuplicates(s)
    ensures Delete(s, x, b1) == Delete(s, x, b2)
            <==> (x in s && LastIndex(s, x) + 1 < |s| ==> (LastIndex(s, x) + 1 < b1 <==> LastIndex(s, x) + 1 < b2))
  {
    DeleteDistinct(s, x, b1);
    DeleteDistinct(s, x, b2);
    if x in s {
      DistinctCount(s, x);
      WithoutCounts(s, x, x);
    }
  }

  /** When they make a difference on copies: only when the loop goes out of range with one of
      them. */
  lemma BoundsAgreeOnCopiesIff<T>(n: nat, x: T, b1: nat, b2: nat)
    ensures Delete(Copies(n, x), x, b1) == Delete(Copies(n, x), x, b2)
            <==> (n >= 2 ==> ((n + 1) / 2 + 1 < b1 <==> (n + 1) / 2 + 1 < b2))
  {
    DeleteFromCopies(n, x, b1);
    DeleteFromCopies(n, x, b2);
  }

  // ---- a bound that is read anew at every index ----

  /** The loop when what the index is compared with may change while it runs: `bounds(i)` is
      its value at index `i`. */
  function DeleteVarying<T(==)>(back: seq<T>, len: nat, i: nat, x: T, bounds: nat -> nat): Outcome<T>
    requires len <= |back| && i <= |back|
    decreases |back| - i
  {
    if i == |back| then Outcome(back[..len], false)
    else if back[i] != x then DeleteVarying(back, len, i + 1, x, bounds)
    else if i + 1 < bounds(i) then
      if i + 1 <= len then DeleteVarying(Moved(back, len, i), len - 1, i + 1, x, bounds)
      else Outcome(back[..len], true)
    else DeleteVarying(back, i, i + 1, x, bounds)
  }

  /** With the same value at every index it is the loop as above, on any list. */
  lemma {:induction false} VaryingNever<T>(back: seq<T>, len: nat, i: nat, x: T, bounds: nat -> nat, bound: nat)
    requires len <= |back| && i <= |back|
    requires forall j :: bounds(j) == bound
    ensures DeleteVarying(back, len, i, x, bounds) == DeleteFrom(back, len, i, x, bound)
    decreases |back| - i
  {
    if i < |back| {
      if back[i] != x {
        VaryingNever(back, len, i + 1, x, bounds, bound);
      } else if i + 1 >= bound {
        VaryingNever(back, i, i + 1, x, bounds, bound);
      } else if i + 1 <= len {
        VaryingNever(Moved(back, len, i), len - 1, i + 1, x, bounds, bound);
      }
    }
  }

  lemma {:induction false} VaryingConstant<T>(back: seq<T>, len: nat, i: nat, x: T, bounds: nat -> nat, bound: nat)
    requires len <= |back| && i <= |back|
    requires forall j :: i <= j < |back| && back[j] == x ==> bounds(j) == bound
    requires forall j, k :: i <= j < k < |back| && back[j] == x ==> back[k] != x
    ensures DeleteVarying(back, len, i, x, bounds) == DeleteFrom(back, len, i, x, bound)
    decreases |back| - i
  {
    if i < |back| {
      if back[i] != x {
        VaryingConstant(back, len, i + 1, x, bounds, bound);
      } else if i + 1 >= bound {
        VaryingConstant(back, i, i + 1, x, bounds, bound);
      } else if i + 1 <= len {
        VaryingAfterMove(back, len, i, x, bounds, bound);
      }
    }
  }

  lemma {:induction false} VaryingAfterMove<T>(back: seq<T>, len: nat, i: nat, x: T, bounds: nat -> nat, bound: nat)
    requires i < len <= |back| && back[i] == x && forall k :: i < k < |back| ==> back[k] != x
    ensures var moved := Moved(back, len, i);
            DeleteVarying(moved, len - 1, i + 1, x, bounds) == DeleteFrom(moved, len - 1, i + 1, x, bound)
  {
    var moved := Moved(back, len, i);
    NothingLeft(moved, len - 1, i + 1, x, bound);
    NothingVarying(moved, len - 1, i + 1, x, bounds);
  }

  lemma {:induction false} NothingVarying<T>(back: seq<T>, len: nat, i: nat, x: T, bounds: nat -> nat)
    requires len <= |back| && i <= |back|
    requires forall j :: i <= j < |back| ==> back[j] != x
    ensures DeleteVarying(back, len, i, x, bounds) == Outcome(back[..len], false)
    decreases |back| - i
  {
    if i < |back| {
      NothingVarying(back, len, i + 1, x, bounds);
    }
  }

  /** On a list without duplicates only one reading matters: the loop does what it does with
      the bound fixed at the value read at the index of `x`. */
  lemma VaryingIsFixed<T>(s: seq<T>, x: T, bounds: nat -> nat)
    requires NoDuplicates(s)
    ensures DeleteVarying(s, |s|, 0, x, bounds) == Delete(s, x, if x in s then bounds(LastIndex(s, x)) else 0)
  {
    VaryingConstant(s, |s|, 0, x, bounds, if x in s then bounds(LastIndex(s, x)) else 0);
  }

  // ---- the loop on a real backing array ----

  datatype Slice<T> = Slice(data: array<T>, len: nat)

  /** `append(s[:index], s[index+1:]...)`: the tail moves one place down, in place. */
  method MoveDown<T>(data: array<T>, len: nat, index: nat, ghost n: nat)
    requires index < len <= n <= data.Length
    modifies data
    ensures data[..n] == Moved(old(data[..n]), len, index)
    ensures data[n..] == old(data[n..])
  {
    ghost var moved := Moved(data[..n], len, index);
    forall j | index <= j < len - 1 {
      data[j] := data[j + 1];
    }
    forall k | 0 <= k < n ensures data[k] == moved[k] {
    }
    assert data[..n] == moved;
  }

  /** The two deletion loops. `header` is the stored slice when the loop starts; the result
      is the slice stored when it ends, on the same backing array. */
  method DeleteInPlace<T(==)>(header: Slice<T>, x: T, bound: nat) returns (stored: Slice<T>, panicked: bool)
    requires header.len <= header.data.Length
    modifies header.data
    ensures stored.data == header.data && stored.len <= header.len
    ensures Outcome(stored.data[..stored.len], panicked) == Delete(old(header.data[..header.len]), x, bound)
    ensures header.data[header.len..] == old(header.data[header.len..])
    ensures header.data[..header.len] == BackAfter(old(header.data[..header.len]), header.len, 0, x, bound)
  {
    var data := header.data;
    ghost var was := data[..header.len];
    stored, panicked := header, false;
    var index := 0;
    while index < header.len
      invariant index <= header.len && stored.data == data && stored.len <= header.len
      invariant DeleteFrom(data[..header.len], stored.len, index, x, bound) == Delete(was, x, bound)
      invariant data[header.len..] == old(data[header.len..])
      invariant BackAfter(data[..header.len], stored.len, index, x, bound) == BackAfter(was, header.len, 0, x, bound)
    {
      if data[index] == x {
        if index + 1 < bound {
          if index + 1 > stored.len {
            assert data[..header.len][..stored.len] == data[..stored.len];
            panicked := true;
            return;
          }
          MoveDown(data, stored.len, index, header.len);
          stored := Slice(data, stored.len - 1);
        } else {
          stored := Slice(data, index);
        }
      }
      index := index + 1;
    }
    assert data[..header.len][..stored.len] == data[..stored.len];
  }

  /** `removeElement` (servers/clientmanager.go:301-311): a new list, without the value. */
  method RemoveElement<T(==)>(nums: seq<T>, val: T) returns (result: seq<T>)
    ensures result == Without(nums, val)
  {
    result := [];
    for i := 0 to |nums|
      invariant result == Without(nums[..i], val)
    {
      TakeMore(nums, i, val);
      if nums[i] != val {
        result := result + [nums[i]];
      }
    }
    assert nums[..|nums|] == nums;
  }
}
