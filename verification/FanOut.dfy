/** When the fan-out of `SendMessage2LocalGroup`, which deletes from the list that it ranges
    over, still reaches exactly the registered members (servers/clientmanager.go:331-346). */
module FanOut {
  import opened Lists
  import opened Slices
  import opened Registry
  import opened Groups

  // ---- what the loop enqueues for, in terms of the list alone ----

  /** From the element with index `q` on, after `k` deletions that moved elements: each of
      them made the loop skip one element, and leaves one more copy of the last element to
      be read at the end. */
  function Enqueued(s: seq<string>, q: nat, k: nat, registered: set<string>, bound: nat): seq<string>
    requires k <= q
    decreases |s| - q
  {
    if q >= |s| then
      if s != [] && s[|s| - 1] in registered && q <= |s| + k then Copies(|s| + k - q, s[|s| - 1]) else []
    else if s[q] in registered then [s[q]] + Enqueued(s, q + 1, k, registered, bound)
    else if q - k + 1 < bound then Enqueued(s, q + 2, k + 1, registered, bound)
    else Enqueued(s, q + 1, k, registered, bound)
  }

  // ---- one deletion from a list without duplicates ----

  /** What is read next after moving the tail of the first `len` elements over index `p`. */
  lemma DeletedFrom(list: seq<string>, x: string, bound: nat)
    requires NoDuplicates(list)
    ensures var outcome, back := Delete(list, x, bound), BackAfter(list, |list|, 0, x, bound);
            && !outcome.panicked && |outcome.list| <= |list|
            && NoDuplicates(outcome.list)
            && (x !in list ==> outcome.list == list && back == list)
            && (x in list ==>
                  var p := LastIndex(list, x);
                  if p + 1 < bound then |outcome.list| == |list| - 1 && back == Moved(list, |list|, p)
                  else |outcome.list| == p && back == list)
  {
    DeleteDistinct(list, x, bound);
    if x !in list {
      BackUnchanged(list, |list|, 0, x, bound);
    } else {
      var p := LastIndex(list, x);
      OnlyThere(list, x);
      BackUntil(list, |list|, 0, p, x, bound);
      if p + 1 < bound {
        DistinctCount(list, x);
        WithoutCounts(list, x, x);
        WithoutDistinct(list, x);
        var moved := Moved(list, |list|, p);
        BackUnchanged(moved, |list| - 1, p + 1, x, bound);
      } else {
        BackUnchanged(list, p, p + 1, x, bound);
      }
    }
  }

  lemma OnlyThere(list: seq<string>, x: string)
    requires NoDuplicates(list) && x in list
    ensures forall j :: 0 <= j < |list| && j != LastIndex(list, x) ==> list[j] != x
  {
  }

  lemma {:induction false} BackUntil(back: seq<string>, len: nat, i: nat, p: nat, x: string, bound: nat)
    requires len <= |back| && i <= p <= |back|
    requires forall j :: i <= j < p ==> back[j] != x
    ensures BackAfter(back, len, i, x, bound) == BackAfter(back, len, p, x, bound)
    decreases p - i
  {
    if i < p {
      BackUntil(back, len, i + 1, p, x, bound);
    }
  }

  lemma {:induction false} WithoutDistinct(list: seq<string>, x: string)
    requires NoDuplicates(list)
    ensures NoDuplicates(Without(list, x))
  {
    if list != [] {
      WithoutDistinct(list[1..], x);
      if list[0] != x {
        WithoutCounts(list[1..], x, list[0]);
        CountPositive(list[1..], list[0]);
        CountPositive(Without(list[1..], x), list[0]);
        assert list[0] !in list[1..];
      }
    }
  }

  // ---- the live array ----

  /** The array as the loop finds it at index `i` after `k` moves. */
  ghost predicate Live(s: seq<string>, back: seq<string>, len: nat, i: nat, k: nat, bound: nat) {
    && |back| == |s| && len <= |s| && i <= |s|
    && NoDuplicates(back[..len])
    && (len + k == |s| || (bound <= i && len + k <= |s|))
    && (forall j :: i <= j < |s| ==> back[j] == s[if j + k < |s| then j + k else |s| - 1])
    && (forall j, q :: 0 <= j < i && i + k <= q < |s| ==> back[j] != s[q])
  }

  /** The array and the stored length after the deletion of the unregistered `back[i]`. */
  function AfterDrop(back: seq<string>, len: nat, i: nat, bound: nat): (r: (seq<string>, nat))
    requires len <= |back| && i < |back|
  {
    (BackAfter(back[..len], len, 0, back[i], bound) + back[len..], |Delete(back[..len], back[i], bound).list|)
  }

  /** The array after a move at `p`, position by position. */
  lemma MovedAt(back: seq<string>, len: nat, p: nat, j: nat)
    requires p < len <= |back| && j < |back|
    ensures (Moved(back[..len], len, p) + back[len..])[j] == if p <= j < len - 1 then back[j + 1] else back[j]
  {
  }

  /** The deletion of an element that is at `i` in the stored list, below the bound. */
  lemma DroppedByMove(back: seq<string>, len: nat, i: nat, bound: nat) returns (back': seq<string>)
    requires i < len <= |back| && NoDuplicates(back[..len]) && i + 1 < bound
    ensures !Delete(back[..len], back[i], bound).panicked
    ensures AfterDrop(back, len, i, bound) == (back', len - 1)
    ensures |back'| == |back| && NoDuplicates(back'[..len - 1])
    ensures forall j {:trigger back'[j]} :: 0 <= j < |back| ==>
              back'[j] == if i <= j < len - 1 then back[j + 1] else back[j]
  {
    var list, x := back[..len], back[i];
    assert list[i] == x;
    OnlyThere(list, x);
    DeletedFrom(list, x, bound);
    back' := Moved(list, len, i) + back[len..];
    ListIsPrefix(list, len, 0, x, bound);
    forall j | 0 <= j < |back| ensures back'[j] == if i <= j < len - 1 then back[j + 1] else back[j] {
      MovedAt(back, len, i, j);
    }
    assert back'[..len - 1] == Delete(list, x, bound).list;
  }

  lemma LiveAfterMove(s: seq<string>, back: seq<string>, len: nat, i: nat, k: nat, bound: nat, back': seq<string>)
    requires NoDuplicates(s) && Live(s, back, len, i, k, bound)
    requires i < len && len + k == |s| && |back'| == |back| && NoDuplicates(back'[..len - 1])
    requires forall j {:trigger back'[j]} :: 0 <= j < |back| ==>
               back'[j] == if i <= j < len - 1 then back[j + 1] else back[j]
    ensures Live(s, back', len - 1, i + 1, k + 1, bound)
  {
    var n := |s|;
    forall j | i + 1 <= j < n ensures back'[j] == s[if j + k + 1 < n then j + k + 1 else n - 1] {
      assert back'[j] == if j < len - 1 then back[j + 1] else back[j];
    }
    forall j, q | 0 <= j < i + 1 && i + k + 2 <= q < n ensures back'[j] != s[q] {
      if j == i {
        assert back'[i] == s[if i < len - 1 then i + 1 + k else i + k];
      } else {
        assert back'[j] == back[j];
      }
    }
  }

  lemma DropMoves(s: seq<string>, back: seq<string>, len: nat, i: nat, k: nat, bound: nat)
    requires NoDuplicates(s) && Live(s, back, len, i, k, bound)
    requires i + k < |s| && i + 1 < bound
    ensures !Delete(back[..len], back[i], bound).panicked
    ensures var r := AfterDrop(back, len, i, bound);
            Live(s, r.0, r.1, i + 1, k + 1, bound)
  {
    var back' := DroppedByMove(back, len, i, bound);
    LiveAfterMove(s, back, len, i, k, bound, back');
  }

  lemma DropCuts(s: seq<string>, back: seq<string>, len: nat, i: nat, k: nat, bound: nat)
    requires NoDuplicates(s) && Live(s, back, len, i, k, bound)
    requires i + k < |s| && bound <= i + 1
    ensures !Delete(back[..len], back[i], bound).panicked
    ensures var r := AfterDrop(back, len, i, bound);
            Live(s, r.0, r.1, i + 1, k, bound)
  {
    var list, x := back[..len], back[i];
    DeletedFrom(list, x, bound);
    if i < len {
      assert list[i] == x;
      OnlyThere(list, x);
    } else {
      assert forall j :: 0 <= j < len ==> list[j] != s[i + k];
    }
    assert AfterDrop(back, len, i, bound).0 == back;
    ListIsPrefix(list, len, 0, x, bound);
    StepPast(s, back, len, i, k, bound);
  }

  lemma StepPast(s: seq<string>, back: seq<string>, len: nat, i: nat, k: nat, bound: nat)
    requires NoDuplicates(s) && Live(s, back, len, i, k, bound) && i + k < |s|
    ensures len + k == |s| || bound <= i ==> Live(s, back, len, i + 1, k, bound)
  {
  }

  // ---- the tail of copies ----

  /** Nothing but copies of `e` from index `i` on. */
  ghost predicate Tail(back: seq<string>, len: nat, i: nat, e: string) {
    && len <= |back| && i <= |back| && NoDuplicates(back[..len])
    && (forall j :: i <= j < |back| ==> back[j] == e)
  }

  lemma DropInTail(back: seq<string>, len: nat, i: nat, e: string, bound: nat)
    requires Tail(back, len, i, e) && i < |back|
    ensures !Delete(back[..len], e, bound).panicked
    ensures var r := AfterDrop(back, len, i, bound);
            Tail(r.0, r.1, i + 1, e)
  {
    var list := back[..len];
    DeletedFrom(list, e, bound);
    ListIsPrefix(list, len, 0, e, bound);
    var back' := AfterDrop(back, len, i, bound).0;
    if e in list && LastIndex(list, e) + 1 < bound {
      var p := LastIndex(list, e);
      forall j | i + 1 <= j < |back| ensures back'[j] == e {
        MovedAt(back, len, p, j);
      }
    } else {
      assert back' == back;
    }
  }

  lemma {:induction false} SendTail(back: seq<string>, len: nat, i: nat, e: string, registered: set<string>, bound: nat)
    requires Tail(back, len, i, e)
    ensures var r := SendFrom(back, len, i, registered, bound);
            !r.panicked && r.to == if e in registered then Copies(|back| - i, e) else []
    decreases |back| - i
  {
    if i < |back| {
      if e in registered {
        SendTail(back, len, i + 1, e, registered, bound);
      } else {
        DropInTail(back, len, i, e, bound);
        var r := AfterDrop(back, len, i, bound);
        SendTail(r.0, r.1, i + 1, e, registered, bound);
      }
    }
  }

  // ---- the loop is `Enqueued` ----

  /** One unregistered element: the state after its deletion, as values whose definition is
      not needed any more. */
  lemma SendOn(s: seq<string>, back: seq<string>, len: nat, i: nat, k: nat, registered: set<string>, bound: nat)
    returns (back': seq<string>, len': nat)
    requires NoDuplicates(s) && Live(s, back, len, i, k, bound)
    requires i + k < |s| && back[i] !in registered
    ensures Live(s, back', len', i + 1, if i + 1 < bound then k + 1 else k, bound)
    ensures SendFrom(back, len, i, registered, bound) == SendFrom(back', len', i + 1, registered, bound)
  {
    if i + 1 < bound {
      DropMoves(s, back, len, i, k, bound);
    } else {
      DropCuts(s, back, len, i, k, bound);
    }
    var r := AfterDrop(back, len, i, bound);
    back', len' := r.0, r.1;
  }

  lemma {:induction false} SendLive(s: seq<string>, back: seq<string>, len: nat, i: nat, k: nat,
                                    registered: set<string>, bound: nat)
    requires NoDuplicates(s) && Live(s, back, len, i, k, bound)
    ensures var r := SendFrom(back, len, i, registered, bound);
            !r.panicked && r.to == Enqueued(s, i + k, k, registered, bound)
    decreases |s| - i
  {
    if i + k >= |s| {
      SendAtEnd(s, back, len, i, k, registered, bound);
    } else {
      assert back[i] == s[i + k];
      if back[i] in registered {
        StepPast(s, back, len, i, k, bound);
        SendLive(s, back, len, i + 1, k, registered, bound);
      } else {
        var back', len' := SendOn(s, back, len, i, k, registered, bound);
        SendLive(s, back', len', i + 1, if i + 1 < bound then k + 1 else k, registered, bound);
      }
    }
  }

  lemma SendAtEnd(s: seq<string>, back: seq<string>, len: nat, i: nat, k: nat, registered: set<string>, bound: nat)
    requires Live(s, back, len, i, k, bound) && i + k >= |s|
    ensures var r := SendFrom(back, len, i, registered, bound);
            !r.panicked && r.to == Enqueued(s, i + k, k, registered, bound)
  {
    if s != [] {
      SendTail(back, len, i, s[|s| - 1], registered, bound);
    }
  }

  lemma SendIsEnqueued(s: seq<string>, registered: set<string>, bound: nat)
    requires NoDuplicates(s)
    ensures !SendToGroup(s, registered, bound).panicked
    ensures SendToGroup(s, registered, bound).to == Enqueued(s, 0, 0, registered, bound)
  {
    assert s[..|s|] == s;
    SendLive(s, s, |s|, 0, 0, registered, bound);
  }

  // ---- when that is every registered member, once ----

  /** No move skips a registered element: the one after an unregistered element whose
      deletion moves the rest is unregistered too, or there is none. */
  predicate NoneSkipped(s: seq<string>, q: nat, k: nat, registered: set<string>, bound: nat)
    requires k <= q
    decreases |s| - q
  {
    if q >= |s| then true
    else if s[q] in registered || q - k + 1 >= bound then NoneSkipped(s, q + 1, k, registered, bound)
    else (q + 1 == |s| || s[q + 1] !in registered) && NoneSkipped(s, q + 2, k + 1, registered, bound)
  }

  /** No deletion from index `q` on moves anything. */
  predicate NothingMoves(s: seq<string>, q: nat, registered: set<string>, bound: nat) {
    forall j :: q <= j < |s| && s[j] !in registered ==> j + 1 >= bound
  }

  /** Of the members from index `q` on, exactly the next to last is gone. */
  predicate NextToLastGone(s: seq<string>, q: nat, registered: set<string>) {
    q + 2 <= |s| && s[|s| - 2] !in registered && forall j :: q <= j < |s| && j != |s| - 2 ==> s[j] in registered
  }

  /** The condition on the list, the registry and the number of groups. */
  predicate ReachesAll(s: seq<string>, registered: set<string>, bound: nat) {
    || NothingMoves(s, 0, registered, bound)
    || NextToLastGone(s, 0, registered)
    || (s != [] && s[|s| - 1] !in registered && NoneSkipped(s, 0, 0, registered, bound))
  }

  function SuffixFrom(s: seq<string>, q: nat): seq<string> {
    if q <= |s| then s[q..] else []
  }

  lemma WithinHead(s: seq<string>, q: nat, registered: set<string>)
    requires q < |s|
    ensures Within(SuffixFrom(s, q), registered) ==
            (if s[q] in registered then [s[q]] else []) + Within(SuffixFrom(s, q + 1), registered)
  {
    assert SuffixFrom(s, q) == [s[q]] + SuffixFrom(s, q + 1);
  }

  /** `sent` is all of it exactly when `ok`, and shorter otherwise. */
  predicate Complete(sent: seq<string>, all: seq<string>, ok: bool) {
    (ok ==> sent == all) && (!ok ==> |sent| < |all|)
  }

  lemma CompleteMore(x: string, sent: seq<string>, all: seq<string>, ok: bool)
    requires Complete(sent, all, ok)
    ensures Complete([x] + sent, [x] + all, ok) && Complete(sent, [x] + all, false)
  {
  }

  /** When the last member is unregistered, the loop reaches the registered ones but those it
      skips. */
  lemma {:induction false} LastGone(s: seq<string>, q: nat, k: nat, registered: set<string>, bound: nat)
    requires k <= q && s != [] && s[|s| - 1] !in registered
    ensures Complete(Enqueued(s, q, k, registered, bound), Within(SuffixFrom(s, q), registered),
                     NoneSkipped(s, q, k, registered, bound))
    decreases |s| - q
  {
    if q < |s| {
      WithinHead(s, q, registered);
      if s[q] in registered {
        LastGone(s, q + 1, k, registered, bound);
        CompleteMore(s[q], Enqueued(s, q + 1, k, registered, bound), Within(SuffixFrom(s, q + 1), registered),
                     NoneSkipped(s, q + 1, k, registered, bound));
      } else if q - k + 1 >= bound {
        LastGone(s, q + 1, k, registered, bound);
      } else {
        LastGone(s, q + 2, k + 1, registered, bound);
        SkipOne(s, q, k, registered, bound);
      }
    }
  }

  lemma SkipOne(s: seq<string>, q: nat, k: nat, registered: set<string>, bound: nat)
    requires k <= q < |s| && s[q] !in registered && q - k + 1 < bound
    requires Complete(Enqueued(s, q + 2, k + 1, registered, bound), Within(SuffixFrom(s, q + 2), registered),
                      NoneSkipped(s, q + 2, k + 1, registered, bound))
    ensures Complete(Enqueued(s, q, k, registered, bound), Within(SuffixFrom(s, q + 1), registered),
                     NoneSkipped(s, q, k, registered, bound))
  {
    if q + 1 < |s| {
      WithinHead(s, q + 1, registered);
      CompleteMore(s[q + 1], Enqueued(s, q + 2, k + 1, registered, bound), Within(SuffixFrom(s, q + 2), registered),
                   NoneSkipped(s, q + 2, k + 1, registered, bound));
    }
  }

  /** When the last member is registered, each move leaves one more message for it. */
  lemma {:induction false} LastAgain(s: seq<string>, q: nat, k: nat, registered: set<string>, bound: nat)
    requires k <= q <= |s| && s != [] && s[|s| - 1] in registered
    ensures Count(Enqueued(s, q, k, registered, bound), s[|s| - 1]) >= if q < |s| then k + 1 else k
    decreases |s| - q
  {
    var last := s[|s| - 1];
    if q == |s| {
      CountCopies(k, last);
    } else if s[q] in registered {
      LastAgain(s, q + 1, k, registered, bound);
    } else if q - k + 1 < bound {
      LastAgain(s, q + 2, k + 1, registered, bound);
    } else {
      LastAgain(s, q + 1, k, registered, bound);
    }
  }

  lemma {:induction false} CountCopies(n: nat, x: string)
    ensures Count(Copies(n, x), x) == n
  {
    if n > 0 {
      assert Copies(n, x)[1..] == Copies(n - 1, x);
      CountCopies(n - 1, x);
    }
  }

  /** With the last member registered: what the loop still reaches in full before it has
      moved anything. */
  predicate FullFrom(s: seq<string>, q: nat, registered: set<string>, bound: nat) {
    NothingMoves(s, q, registered, bound) || NextToLastGone(s, q, registered)
  }

  lemma FullFromNext(s: seq<string>, q: nat, registered: set<string>, bound: nat)
    requires q + 1 < |s| && (s[q] in registered || q + 1 >= bound)
    ensures FullFrom(s, q, registered, bound) <==> FullFrom(s, q + 1, registered, bound)
  {
    if s[q] in registered {
      assert NothingMoves(s, q + 1, registered, bound) ==> NothingMoves(s, q, registered, bound);
      assert NextToLastGone(s, q + 1, registered) <==> NextToLastGone(s, q, registered);
    } else {
      assert NothingMoves(s, q, registered, bound) && NothingMoves(s, q + 1, registered, bound);
    }
  }

  /** Before the first move, with the last member registered. */
  lemma {:induction false} LastThere(s: seq<string>, q: nat, registered: set<string>, bound: nat)
    requires NoDuplicates(s) && q < |s| && s[|s| - 1] in registered
    ensures Enqueued(s, q, 0, registered, bound) == Within(SuffixFrom(s, q), registered)
            <==> FullFrom(s, q, registered, bound)
    decreases |s| - q
  {
    if s[q] !in registered && q + 1 < bound {
      FirstMove(s, q, registered, bound);
      assert !NothingMoves(s, q, registered, bound);
      assert NextToLastGone(s, q, registered) <==> q + 2 == |s|;
    } else {
      WithinHead(s, q, registered);
      if q + 1 < |s| {
        FullFromNext(s, q, registered, bound);
        LastThere(s, q + 1, registered, bound);
        SameRest(s[q], Enqueued(s, q + 1, 0, registered, bound), Within(SuffixFrom(s, q + 1), registered));
      } else {
        assert NothingMoves(s, q, registered, bound);
        assert Enqueued(s, q + 1, 0, registered, bound) == [];
      }
    }
  }

  lemma SameRest(x: string, a: seq<string>, b: seq<string>)
    ensures [x] + a == [x] + b <==> a == b
  {
    assert ([x] + a)[1..] == a && ([x] + b)[1..] == b;
  }

  lemma FirstMove(s: seq<string>, q: nat, registered: set<string>, bound: nat)
    requires NoDuplicates(s) && q < |s| && s[|s| - 1] in registered
    requires s[q] !in registered && q + 1 < bound
    ensures Enqueued(s, q, 0, registered, bound) == Within(SuffixFrom(s, q), registered) <==> q + 2 == |s|
  {
    var last := s[|s| - 1];
    WithinHead(s, q, registered);
    WithinHead(s, q + 1, registered);
    if q + 2 == |s| {
      assert SuffixFrom(s, q + 2) == [] && s[q + 1] == last;
      assert Enqueued(s, q + 2, 1, registered, bound) == Copies(1, last) == [last];
      assert Within(SuffixFrom(s, q), registered) == [last];
    } else {
      LastAgain(s, q + 2, 1, registered, bound);
      WithinCounts(SuffixFrom(s, q), registered, last);
      DistinctCount(SuffixFrom(s, q), last);
    }
  }

  lemma {:induction false} NothingMovedNothingSkipped(s: seq<string>, q: nat, registered: set<string>, bound: nat)
    requires NothingMoves(s, q, registered, bound)
    ensures NoneSkipped(s, q, 0, registered, bound)
    decreases |s| - q
  {
    if q < |s| {
      NothingMovedNothingSkipped(s, q + 1, registered, bound);
    }
  }

  /** For every list without duplicates, registry and number of groups: the fan-out as written
      enqueues exactly one message for each registered member, in list order, and for nobody
      else, exactly when one of these holds: no unregistered member stands where its deletion
      moves others; the next to last member is the only one unregistered; or the last one is
      unregistered and every move skips another unregistered member or none. It never goes
      out of range. */
  lemma SendReachesAllIff(s: seq<string>, registered: set<string>, bound: nat)
    requires NoDuplicates(s)
    ensures SendToGroup(s, registered, bound).to == Within(s, registered) <==> ReachesAll(s, registered, bound)
    ensures !SendToGroup(s, registered, bound).panicked
  {
    SendIsEnqueued(s, registered, bound);
    assert SuffixFrom(s, 0) == s;
    if s != [] {
      if s[|s| - 1] in registered {
        LastThere(s, 0, registered, bound);
      } else {
        LastGone(s, 0, 0, registered, bound);
        if NothingMoves(s, 0, registered, bound) {
          NothingMovedNothingSkipped(s, 0, registered, bound);
        }
      }
    }
  }
}
