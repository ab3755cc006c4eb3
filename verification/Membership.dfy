/** What the fan-out of `SendMessage2LocalGroup` leaves in the group, and when it does all that
    is meant: every registered member gets one message, and exactly the others leave
    (servers/clientmanager.go:331-346, 400-413). */
module Membership {
  import opened Lists
  import opened Slices
  import opened Registry
  import opened Groups
  import opened FanOut

  /** The members left of those with index `q` and later, after `k` deletions that moved
      elements: a move keeps the member that it skips, registered or not, unless that is the
      last one, which is read again; a cut drops everything after it. */
  function Remaining(s: seq<string>, q: nat, k: nat, registered: set<string>, bound: nat): seq<string>
    requires k <= q
    decreases |s| - q
  {
    if q >= |s| then []
    else if s[q] in registered then [s[q]] + Remaining(s, q + 1, k, registered, bound)
    else if q - k + 1 >= bound || q + 1 == |s| then []
    else if q + 2 == |s| then if s[q + 1] in registered then [s[q + 1]] else []
    else [s[q + 1]] + Remaining(s, q + 2, k + 1, registered, bound)
  }

  // ---- the loop leaves `Remaining` ----

  /** Nothing that is still read is unregistered and in the list. */
  ghost predicate Settled(back: seq<string>, len: nat, i: nat, registered: set<string>) {
    && len <= |back| && i <= |back| && NoDuplicates(back[..len])
    && (forall j :: i <= j < |back| ==> back[j] in registered || back[j] !in back[..len])
  }

  lemma {:induction false} SettledStays(back: seq<string>, len: nat, i: nat, registered: set<string>, bound: nat)
    requires Settled(back, len, i, registered)
    ensures SendFrom(back, len, i, registered, bound).list == back[..len]
    decreases |back| - i
  {
    if i < |back| {
      if back[i] !in registered {
        DeletedFrom(back[..len], back[i], bound);
        assert back[..len] + back[len..] == back;
      }
      SettledStays(back, len, i + 1, registered, bound);
    }
  }

  lemma DropLast(list: seq<string>, bound: nat)
    requires NoDuplicates(list) && list != []
    ensures Delete(list, list[|list| - 1], bound).list == list[..|list| - 1]
  {
    var n := |list| - 1;
    var front, e := list[..n], list[n];
    assert list == front + [e];
    OnlyThere(list, e);
    DeleteDistinct(list, e, bound);
    WithoutAppend(front, [e], e);
    WithoutAbsent(front, e);
  }

  /** The last member was skipped and is unregistered: reading its copies removes it. */
  lemma TailRemovesLast(back: seq<string>, len: nat, i: nat, registered: set<string>, bound: nat)
    requires 0 < len <= i < |back| && Tail(back, len, i, back[len - 1]) && back[len - 1] !in registered
    ensures SendFrom(back, len, i, registered, bound).list == back[..len - 1]
  {
    var list, e := back[..len], back[len - 1];
    assert list[len - 1] == e && back[i] == e;
    DropLast(list, bound);
    DropInTail(back, len, i, e, bound);
    var r := AfterDrop(back, len, i, bound);
    ListIsPrefix(list, len, 0, e, bound);
    assert r.0[..len - 1] == list[..len - 1] == back[..len - 1];
    assert e !in back[..len - 1];
    SettledStays(r.0, r.1, i + 1, registered, bound);
  }

  /** The deletion at `i` cuts the list. */
  lemma DroppedByCut(back: seq<string>, len: nat, i: nat, bound: nat)
    requires i < len <= |back| && NoDuplicates(back[..len]) && bound <= i + 1
    ensures !Delete(back[..len], back[i], bound).panicked
    ensures AfterDrop(back, len, i, bound) == (back, i)
  {
    var list, x := back[..len], back[i];
    assert list[i] == x;
    DeletedFrom(list, x, bound);
    OnlyThere(list, x);
    assert back[..len] + back[len..] == back;
  }

  /** At an unregistered member whose deletion cuts the list: nothing later is kept. */
  lemma LeftByCut(s: seq<string>, back: seq<string>, len: nat, i: nat, k: nat, registered: set<string>, bound: nat)
    requires NoDuplicates(s) && Live(s, back, len, i, k, bound) && len + k == |s|
    requires i + k < |s| && back[i] !in registered && bound <= i + 1
    ensures SendFrom(back, len, i, registered, bound).list == back[..i]
  {
    DroppedByCut(back, len, i, bound);
    NothingToDrop(s, back, len, i, k, registered, bound);
    SettledStays(back, i, i + 1, registered, bound);
  }

  lemma NothingToDrop(s: seq<string>, back: seq<string>, len: nat, i: nat, k: nat, registered: set<string>, bound: nat)
    requires NoDuplicates(s) && Live(s, back, len, i, k, bound) && i + k < |s| && i <= len
    ensures Settled(back, i, i + 1, registered)
  {
    assert back[..i] == back[..len][..i];
    forall j | i + 1 <= j < |back| ensures back[j] !in back[..i] {
      var q := if j + k < |s| then j + k else |s| - 1;
      assert back[j] == s[q];
    }
  }

  /** At an unregistered member whose deletion moves the last one or two. */
  lemma LeftByLastMove(s: seq<string>, back: seq<string>, len: nat, i: nat, k: nat, registered: set<string>, bound: nat)
    requires NoDuplicates(s) && Live(s, back, len, i, k, bound) && len + k == |s|
    requires |s| <= i + k + 2 && i + k < |s| && back[i] !in registered && i + 1 < bound
    ensures SendFrom(back, len, i, registered, bound).list == back[..i] + Remaining(s, i + k, k, registered, bound)
  {
    var back' := LastMove(s, back, len, i, k, registered, bound);
    if i + k + 1 == |s| {
      LastMoved(s, back, back', len, i, k, registered, bound);
    } else {
      NextToLastMoved(s, back', len, i, k, registered, bound);
    }
  }

  lemma LastMove(s: seq<string>, back: seq<string>, len: nat, i: nat, k: nat, registered: set<string>, bound: nat)
    returns (back': seq<string>)
    requires NoDuplicates(s) && Live(s, back, len, i, k, bound) && len + k == |s|
    requires |s| <= i + k + 2 && i + k < |s| && back[i] !in registered && i + 1 < bound
    ensures |back'| == |back| && back'[..i] == back[..i] && Tail(back', len - 1, i + 1, s[|s| - 1])
    ensures i + k + 2 == |s| ==> back'[i] == s[|s| - 1]
    ensures SendFrom(back, len, i, registered, bound) == SendFrom(back', len - 1, i + 1, registered, bound)
  {
    back' := DroppedByMove(back, len, i, bound);
    LiveAfterMove(s, back, len, i, k, bound, back');
  }

  lemma NextToLastMoved(s: seq<string>, back': seq<string>, len: nat, i: nat, k: nat,
                        registered: set<string>, bound: nat)
    requires len + k == |s| == |back'| == i + k + 2 && back'[i] == s[|s| - 1]
    requires Tail(back', len - 1, i + 1, s[|s| - 1])
    ensures SendFrom(back', len - 1, i + 1, registered, bound).list ==
            back'[..i] + if s[|s| - 1] in registered then [s[|s| - 1]] else []
  {
    assert back'[..i + 1] == back'[..i] + [back'[i]];
    if s[|s| - 1] in registered {
      SettledStays(back', len - 1, i + 1, registered, bound);
    } else {
      TailRemovesLast(back', len - 1, i + 1, registered, bound);
    }
  }

  lemma LastMoved(s: seq<string>, back: seq<string>, back': seq<string>, len: nat, i: nat, k: nat,
                  registered: set<string>, bound: nat)
    requires NoDuplicates(s) && Live(s, back, len, i, k, bound) && len + k == |s| == i + k + 1
    requires |back'| == |back| && back'[..i] == back[..i] && Tail(back', i, i + 1, s[|s| - 1])
    ensures SendFrom(back', i, i + 1, registered, bound).list == back[..i]
  {
    forall j | 0 <= j < i ensures back'[..i][j] != s[|s| - 1] {
      assert back'[..i][j] == back[j];
    }
    SettledStays(back', i, i + 1, registered, bound);
  }

  lemma LeftByMove(s: seq<string>, back: seq<string>, len: nat, i: nat, k: nat, registered: set<string>, bound: nat)
    returns (back': seq<string>)
    requires NoDuplicates(s) && Live(s, back, len, i, k, bound) && len + k == |s|
    requires i + k + 2 < |s| && back[i] !in registered && i + 1 < bound
    ensures Live(s, back', len - 1, i + 1, k + 1, bound)
    ensures SendFrom(back, len, i, registered, bound) == SendFrom(back', len - 1, i + 1, registered, bound)
    ensures back'[..i + 1] == back[..i] + [s[i + k + 1]]
  {
    back' := DroppedByMove(back, len, i, bound);
    LiveAfterMove(s, back, len, i, k, bound, back');
    assert back'[i] == s[i + k + 1];
  }

  lemma LeftByReading(s: seq<string>, back: seq<string>, len: nat, i: nat, k: nat, registered: set<string>, bound: nat)
    requires NoDuplicates(s) && Live(s, back, len, i, k, bound) && len + k == |s|
    requires i + k < |s| && back[i] in registered
    ensures Live(s, back, len, i + 1, k, bound)
    ensures SendFrom(back, len, i, registered, bound).list == SendFrom(back, len, i + 1, registered, bound).list
    ensures s[i + k] in registered && back[..i + 1] == back[..i] + [s[i + k]]
  {
    assert back[i] == s[i + k];
    StepPast(s, back, len, i, k, bound);
  }

  lemma Regroup(front: seq<string>, x: string, rest: seq<string>)
    ensures (front + [x]) + rest == front + ([x] + rest)
  {
  }

  lemma {:induction false} LeftFrom(s: seq<string>, back: seq<string>, len: nat, i: nat, k: nat,
                                    registered: set<string>, bound: nat)
    requires NoDuplicates(s) && Live(s, back, len, i, k, bound) && len + k == |s|
    requires i + k <= |s| && (i + k == |s| > 0 ==> s[|s| - 1] in registered)
    ensures SendFrom(back, len, i, registered, bound).list == back[..i] + Remaining(s, i + k, k, registered, bound)
    decreases |s| - i, 1
  {
    if i + k == |s| {
      SettledStays(back, len, i, registered, bound);
    } else if back[i] in registered {
      LeftReading(s, back, len, i, k, registered, bound);
    } else if bound <= i + 1 {
      LeftByCut(s, back, len, i, k, registered, bound);
    } else if |s| <= i + k + 2 {
      LeftByLastMove(s, back, len, i, k, registered, bound);
    } else {
      LeftMoving(s, back, len, i, k, registered, bound);
    }
  }

  lemma {:induction false} LeftReading(s: seq<string>, back: seq<string>, len: nat, i: nat, k: nat,
                                       registered: set<string>, bound: nat)
    requires NoDuplicates(s) && Live(s, back, len, i, k, bound) && len + k == |s|
    requires i + k < |s| && back[i] in registered
    ensures SendFrom(back, len, i, registered, bound).list == back[..i] + Remaining(s, i + k, k, registered, bound)
    decreases |s| - i, 0
  {
    LeftByReading(s, back, len, i, k, registered, bound);
    LeftFrom(s, back, len, i + 1, k, registered, bound);
    Regroup(back[..i], s[i + k], Remaining(s, i + k + 1, k, registered, bound));
  }

  lemma {:induction false} LeftMoving(s: seq<string>, back: seq<string>, len: nat, i: nat, k: nat,
                                      registered: set<string>, bound: nat)
    requires NoDuplicates(s) && Live(s, back, len, i, k, bound) && len + k == |s|
    requires i + k + 2 < |s| && back[i] !in registered && i + 1 < bound
    ensures SendFrom(back, len, i, registered, bound).list == back[..i] + Remaining(s, i + k, k, registered, bound)
    decreases |s| - i, 0
  {
    assert back[i] == s[i + k];
    var back' := LeftByMove(s, back, len, i, k, registered, bound);
    LeftFrom(s, back', len - 1, i + 1, k + 1, registered, bound);
    Regroup(back[..i], s[i + k + 1], Remaining(s, i + k + 2, k + 1, registered, bound));
  }

  /** For every list without duplicates: the group is left with exactly these members. */
  lemma SendLeaves(s: seq<string>, registered: set<string>, bound: nat)
    requires NoDuplicates(s)
    ensures SendToGroup(s, registered, bound).list == Remaining(s, 0, 0, registered, bound)
  {
    assert s[..|s|] == s;
    LeftFrom(s, s, |s|, 0, 0, registered, bound);
  }

  // ---- when everything is as meant ----

  /** Exactly the members before index `p` are registered, as far as `p` goes. */
  predicate FirstGone(s: seq<string>, registered: set<string>, p: nat) {
    p < |s| && s[p] !in registered && forall j :: 0 <= j < p ==> s[j] in registered
  }

  predicate GoneFrom(s: seq<string>, registered: set<string>, p: nat) {
    forall j :: p <= j < |s| ==> s[j] !in registered
  }

  /** With the first unregistered member at `p`: either nobody from there on is registered, and
      they are at most two or the deletion cuts them all off; or only the next to last member
      is gone, and its deletion moves the last one into its place. */
  predicate AsMeantFrom(s: seq<string>, registered: set<string>, bound: nat, p: nat)
    requires p < |s|
  {
    || (GoneFrom(s, registered, p) && (|s| - p <= 2 || bound <= p + 1))
    || (p + 2 == |s| && s[|s| - 1] in registered && p + 1 < bound)
  }

  /** The condition on the list, the registry and the number of groups. */
  predicate AsMeant(s: seq<string>, registered: set<string>, bound: nat) {
    forall p :: 0 <= p < |s| && FirstGone(s, registered, p) ==> AsMeantFrom(s, registered, bound, p)
  }

  /** What is meant is reached and left alike for the members before the first one gone. */
  lemma AllAlikeBefore(s: seq<string>, p: nat, registered: set<string>, bound: nat)
    requires p <= |s| && forall j :: 0 <= j < p ==> s[j] in registered
    ensures Within(s, registered) == s[..p] + Within(SuffixFrom(s, p), registered)
    ensures Enqueued(s, 0, 0, registered, bound) == s[..p] + Enqueued(s, p, 0, registered, bound)
    ensures Remaining(s, 0, 0, registered, bound) == s[..p] + Remaining(s, p, 0, registered, bound)
  {
    assert s[0..p] == s[..p] && s == s[..p] + SuffixFrom(s, p);
    WithinAppend(s[..p], SuffixFrom(s, p), registered);
    WithinAll(s[..p], registered);
    EnqueuedBefore(s, 0, p, registered, bound);
    RemainingBefore(s, 0, p, registered, bound);
  }

  lemma {:induction false} EnqueuedBefore(s: seq<string>, q: nat, p: nat, registered: set<string>, bound: nat)
    requires q <= p <= |s| && forall j :: 0 <= j < p ==> s[j] in registered
    ensures Enqueued(s, q, 0, registered, bound) == s[q..p] + Enqueued(s, p, 0, registered, bound)
    decreases p - q
  {
    if q < p {
      EnqueuedBefore(s, q + 1, p, registered, bound);
      assert s[q..p] == [s[q]] + s[q + 1..p];
    }
  }

  lemma {:induction false} RemainingBefore(s: seq<string>, q: nat, p: nat, registered: set<string>, bound: nat)
    requires q <= p <= |s| && forall j :: 0 <= j < p ==> s[j] in registered
    ensures Remaining(s, q, 0, registered, bound) == s[q..p] + Remaining(s, p, 0, registered, bound)
    decreases p - q
  {
    if q < p {
      RemainingBefore(s, q + 1, p, registered, bound);
      assert s[q..p] == [s[q]] + s[q + 1..p];
    }
  }

  lemma {:induction false} NobodyWithin(s: seq<string>, registered: set<string>)
    ensures Within(s, registered) == [] <==> forall j :: 0 <= j < |s| ==> s[j] !in registered
  {
    if s != [] {
      NobodyWithin(s[1..], registered);
      assert s == [s[0]] + s[1..];
    }
  }

  lemma {:induction false} EnqueuesOnlyRegistered(s: seq<string>, q: nat, k: nat, registered: set<string>, bound: nat)
    requires k <= q && GoneFrom(s, registered, q) && (q >= |s| > 0 ==> s[|s| - 1] !in registered)
    ensures Enqueued(s, q, k, registered, bound) == []
    decreases |s| - q
  {
    if q < |s| {
      if q - k + 1 < bound {
        EnqueuesOnlyRegistered(s, q + 2, k + 1, registered, bound);
      } else {
        EnqueuesOnlyRegistered(s, q + 1, k, registered, bound);
      }
    }
  }

  /** The first deletion cuts the list. */
  lemma AsMeantByCut(s: seq<string>, p: nat, registered: set<string>, bound: nat)
    requires FirstGone(s, registered, p) && bound <= p + 1
    ensures var all := Within(SuffixFrom(s, p), registered);
            Enqueued(s, p, 0, registered, bound) == all && Remaining(s, p, 0, registered, bound) == all
            <==> AsMeantFrom(s, registered, bound, p)
  {
    var rest := SuffixFrom(s, p);
    NobodyWithin(rest, registered);
    if GoneFrom(s, registered, p) {
      EnqueuesOnlyRegistered(s, p, 0, registered, bound);
      assert forall j :: 0 <= j < |rest| ==> rest[j] == s[p + j];
    } else {
      var j :| p <= j < |s| && s[j] in registered;
      assert rest[j - p] == s[j];
    }
  }

  /** The first deletion moves the last one or two. */
  lemma AsMeantByLastMove(s: seq<string>, p: nat, registered: set<string>, bound: nat)
    requires FirstGone(s, registered, p) && p + 1 < bound && |s| - p <= 2
    ensures var all := Within(SuffixFrom(s, p), registered);
            Enqueued(s, p, 0, registered, bound) == all && Remaining(s, p, 0, registered, bound) == all
    ensures AsMeantFrom(s, registered, bound, p)
  {
    WithinHead(s, p, registered);
    if p + 1 < |s| {
      WithinHead(s, p + 1, registered);
      assert SuffixFrom(s, p + 2) == [];
      assert Enqueued(s, p + 2, 1, registered, bound) ==
             if s[p + 1] in registered then Copies(1, s[p + 1]) else [];
      assert Copies(1, s[p + 1]) == [s[p + 1]];
    } else {
      assert SuffixFrom(s, p + 1) == [];
    }
  }

  lemma {:induction false} NoneSkippedAt(s: seq<string>, q: nat, p: nat, registered: set<string>, bound: nat)
    requires q <= p <= |s| && forall j :: 0 <= j < p ==> s[j] in registered
    ensures NoneSkipped(s, q, 0, registered, bound) <==> NoneSkipped(s, p, 0, registered, bound)
    decreases p - q
  {
    if q < p {
      NoneSkippedAt(s, q + 1, p, registered, bound);
    }
  }

  /** The first deletion moves more than that: the member it skips is kept though it is not
      registered, or gets no message though it is. */
  lemma NotAsMeantByMove(s: seq<string>, p: nat, registered: set<string>, bound: nat)
    requires NoDuplicates(s) && FirstGone(s, registered, p) && p + 1 < bound && |s| - p >= 3
    ensures Enqueued(s, 0, 0, registered, bound) == Within(s, registered) ==>
              Remaining(s, 0, 0, registered, bound) != Within(s, registered)
    ensures !AsMeantFrom(s, registered, bound, p)
  {
    AllAlikeBefore(s, p, registered, bound);
    assert Remaining(s, p, 0, registered, bound)[0] == s[p + 1];
    if s[p + 1] !in registered {
      assert Remaining(s, 0, 0, registered, bound)[p] == s[p + 1];
      NotWithin(s, registered, s[p + 1]);
    } else {
      SendIsEnqueued(s, registered, bound);
      SendReachesAllIff(s, registered, bound);
      NoneSkippedAt(s, 0, p, registered, bound);
      assert !NoneSkipped(s, p, 0, registered, bound);
    }
  }

  lemma NotWithin(s: seq<string>, registered: set<string>, x: string)
    requires x !in registered
    ensures x !in Within(s, registered)
  {
    WithinCounts(s, registered, x);
    CountPositive(Within(s, registered), x);
  }

  lemma AsMeantAt(s: seq<string>, p: nat, registered: set<string>, bound: nat)
    requires NoDuplicates(s) && FirstGone(s, registered, p)
    ensures Enqueued(s, 0, 0, registered, bound) == Within(s, registered) == Remaining(s, 0, 0, registered, bound)
            <==> AsMeantFrom(s, registered, bound, p)
  {
    if p + 1 < bound && |s| - p >= 3 {
      NotAsMeantByMove(s, p, registered, bound);
    } else {
      AllAlikeBefore(s, p, registered, bound);
      if bound <= p + 1 {
        AsMeantByCut(s, p, registered, bound);
      } else {
        AsMeantByLastMove(s, p, registered, bound);
      }
      SamePrefix(s[..p], Enqueued(s, p, 0, registered, bound), Within(SuffixFrom(s, p), registered));
      SamePrefix(s[..p], Remaining(s, p, 0, registered, bound), Within(SuffixFrom(s, p), registered));
    }
  }

  lemma SamePrefix(front: seq<string>, a: seq<string>, b: seq<string>)
    ensures front + a == front + b <==> a == b
  {
    assert (front + a)[|front|..] == a && (front + b)[|front|..] == b;
  }

  lemma {:induction false} FindGone(s: seq<string>, q: nat, registered: set<string>) returns (p: nat)
    requires q <= |s| && (forall j :: 0 <= j < q ==> s[j] in registered)
    requires exists j :: 0 <= j < |s| && s[j] !in registered
    ensures FirstGone(s, registered, p)
    decreases |s| - q
  {
    if s[q] in registered {
      p := FindGone(s, q + 1, registered);
    } else {
      p := q;
    }
  }

  /** For every list without duplicates, registry and number of groups: the fan-out as written
      does all that is meant, messages and membership, exactly when all members are
      registered, or from the first one that is not on nobody is, and they are at most two or
      its deletion cuts them all off, or only the next to last member is gone and its deletion
      moves the last one up. */
  lemma SendAsMeantIff(s: seq<string>, registered: set<string>, bound: nat)
    requires NoDuplicates(s)
    ensures SendToGroup(s, registered, bound) == SendMeantFrom(s, s, registered) <==> AsMeant(s, registered, bound)
  {
    SendAsMeant(s, registered);
    SendIsEnqueued(s, registered, bound);
    SendLeaves(s, registered, bound);
    if exists j :: 0 <= j < |s| && s[j] !in registered {
      var p := FindGone(s, 0, registered);
      AsMeantAt(s, p, registered, bound);
      assert forall p': nat :: FirstGone(s, registered, p') ==> p' == p;
    } else {
      AllAlikeBefore(s, |s|, registered, bound);
      assert s[..|s|] == s;
    }
  }

  /** Where every member is reached and yet not all is as meant: with one group and the first of
      two members gone, the second gets its message and is dropped from the group all the same. */
  lemma SendDropsRegistered()
    ensures ReachesAll(["x", "a"], {"a"}, 1) && !AsMeant(["x", "a"], {"a"}, 1)
    ensures SendToGroup(["x", "a"], {"a"}, 1) == Sent(["a"], [], false)
    ensures SendMeantFrom(["x", "a"], ["x", "a"], {"a"}) == Sent(["a"], ["a"], false)
  {
    var s := ["x", "a"];
    assert NothingMoves(s, 0, {"a"}, 1);
    assert Within(s, {"a"}) == ["a"] by {
      assert s[1..] == ["a"];
    }
    SendReachesAllIff(s, {"a"}, 1);
    SendLeaves(s, {"a"}, 1);
    SendAsMeantIff(s, {"a"}, 1);
    SendAsMeant(s, {"a"});
  }
}
