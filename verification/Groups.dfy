/** Group membership and the fan-out to a group (servers/clientmanager.go:331-420). */
module Groups {
  import opened Lists
  import opened Slices
  import opened Registry

  // ---- AddClient2LocalGroup ----

  /** `Groups` together with the `GroupList` of every client object. */
  datatype Binding = Binding(groups: Lookup, groupLists: map<Conn, seq<string>>)

  function GroupListOf(b: Binding, c: Conn): seq<string> {
    if c in b.groupLists then b.groupLists[c] else []
  }

  function Bind(b: Binding, c: Conn, groupName: string): Binding {
    if groupName in GroupListOf(b, c) then b
    else
      var key := GroupKey(c.systemId, groupName);
      Binding(AppendTo(b.groups, key, c.clientId),
              b.groupLists[c := GroupListOf(b, c) + [groupName]])
  }

  /** One call, for one client. */
  lemma BindOne(groups: Lookup, groupList: seq<string>, c: Conn, groupName: string)
    ensures var b := Bind(Binding(groups, map[c := groupList]), c, groupName);
            && c in b.groupLists
            && b.groups == (if groupName in groupList then groups
                            else AppendTo(groups, GroupKey(c.systemId, groupName), c.clientId))
            && b.groupLists[c] == groupList + if groupName in groupList then [] else [groupName]
  {
  }

  datatype BindCall = BindCall(c: Conn, groupName: string)

  function BindAll(calls: seq<BindCall>): Binding {
    if calls == [] then Binding(map[], map[])
    else
      var last := calls[|calls| - 1];
      Bind(BindAll(calls[..|calls| - 1]), last.c, last.groupName)
  }

  /** One id continues the other behind a colon. */
  predicate Clash(s1: string, s2: string) {
    s1 + ":" <= s2 || s2 + ":" <= s1
  }

  lemma LongerSystem(s1: string, g1: string, s2: string, g2: string)
    requires |s1| < |s2|
    ensures GroupKey(s1, g1) == GroupKey(s2, g2) <==> s1 + ":" <= s2 && g1 == s2[|s1| + 1..] + ":" + g2
  {
    var key1, key2 := GroupKey(s1, g1), GroupKey(s2, g2);
    var n := |s1| + 1;
    assert key1[..n] == s1 + ":" && key1[n..] == g1;
    assert key2[..n] == s2[..n] && key2[n..] == s2[n..] + ":" + g2;
    assert key1 == key1[..n] + key1[n..] && key2 == key2[..n] + key2[n..];
  }

  /** Two groups have the same key exactly when they are the same, or one system's id
      continues the other's behind a colon and the group name of the shorter one makes up
      for it. */
  lemma GroupKeyEqualIff(s1: string, g1: string, s2: string, g2: string)
    ensures GroupKey(s1, g1) == GroupKey(s2, g2)
            <==> || (s1 == s2 && g1 == g2)
                 || (s1 + ":" <= s2 && g1 == s2[|s1| + 1..] + ":" + g2)
                 || (s2 + ":" <= s1 && g2 == s1[|s2| + 1..] + ":" + g1)
  {
    if |s1| < |s2| {
      LongerSystem(s1, g1, s2, g2);
    } else if |s2| < |s1| {
      LongerSystem(s2, g2, s1, g1);
    } else if GroupKey(s1, g1) == GroupKey(s2, g2) {
      assert GroupKey(s1, g1)[..|s1|] == s1 && GroupKey(s2, g2)[..|s1|] == s2;
      assert GroupKey(s1, g1)[|s1| + 1..] == g1 && GroupKey(s2, g2)[|s1| + 1..] == g2;
    }
  }

  /** The parts of a key are those of the system id and those of the group name. */
  lemma {:induction false} KeyParts(s: string, g: string)
    ensures Split(GroupKey(s, g), ':') == Split(s, ':') + Split(g, ':')
  {
    var key := GroupKey(s, g);
    if s == "" {
      assert key[1..] == g;
    } else {
      assert key[1..] == GroupKey(s[1..], g);
      KeyParts(s[1..], g);
    }
  }

  ghost predicate ShareKey(s1: string, s2: string) {
    exists g1, g2 :: GroupKey(s1, g1) == GroupKey(s2, g2)
  }

  /** Two systems share some group key exactly when they are the same or their ids clash; in
      particular systems without a colon in their ids never do. */
  lemma SystemsShareKeyIff(s1: string, s2: string)
    ensures ShareKey(s1, s2) <==> s1 == s2 || Clash(s1, s2)
    ensures ':' !in s1 && ':' !in s2 ==> !Clash(s1, s2)
  {
    if s1 == s2 {
      assert GroupKey(s1, "") == GroupKey(s2, "");
    } else if s1 + ":" <= s2 {
      assert s2[|s1|] == (s1 + ":")[|s1|] == ':';
      GroupKeyEqualIff(s1, s2[|s1| + 1..] + ":" + "", s2, "");
    } else if s2 + ":" <= s1 {
      assert s1[|s2|] == (s2 + ":")[|s2|] == ':';
      GroupKeyEqualIff(s1, "", s2, s1[|s2| + 1..] + ":" + "");
    } else if ShareKey(s1, s2) {
      var g1, g2 :| GroupKey(s1, g1) == GroupKey(s2, g2);
      GroupKeyEqualIff(s1, g1, s2, g2);
    }
  }

  /** The client objects with a given id that are in a group of a system. */
  ghost function Members(b: Binding, systemId: string, groupName: string, id: string): set<Conn> {
    set c | c in b.groupLists && c.clientId == id && c.systemId == systemId && groupName in b.groupLists[c]
  }

  /** The memberships of that id in other groups that happen to have the same key. */
  ghost function Strangers(b: Binding, systemId: string, groupName: string, id: string): set<(Conn, string)> {
    set c, g | c in b.groupLists && g in b.groupLists[c] && c.clientId == id
               && IsStranger(c, g, systemId, groupName) :: (c, g)
  }

  predicate IsStranger(c: Conn, g: string, systemId: string, groupName: string) {
    GroupKey(c.systemId, g) == GroupKey(systemId, groupName) && !(c.systemId == systemId && g == groupName)
  }

  lemma BindMembers(b: Binding, c: Conn, groupName: string, s: string, g: string, id: string)
    ensures Members(Bind(b, c, groupName), s, g, id) ==
            Members(b, s, g, id) + if c.clientId == id && c.systemId == s && groupName == g then {c} else {}
  {
  }

  lemma BindStrangers(b: Binding, c: Conn, groupName: string, s: string, g: string, id: string)
    ensures Strangers(Bind(b, c, groupName), s, g, id) ==
            Strangers(b, s, g, id) +
            if c.clientId == id && IsStranger(c, groupName, s, g) then {(c, groupName)} else {}
  {
    var b' := Bind(b, c, groupName);
    forall m ensures m in Strangers(b', s, g, id) <==>
      m in Strangers(b, s, g, id) || (m == (c, groupName) && c.clientId == id && IsStranger(c, groupName, s, g))
    {
      if m.0 == c && groupName !in GroupListOf(b, c) {
        assert b'.groupLists[c] == GroupListOf(b, c) + [groupName];
        assert c in b'.groupLists;
      }
    }
  }

  lemma BindCounts(b: Binding, c: Conn, groupName: string, s: string, g: string, id: string)
    ensures Count(Get(Bind(b, c, groupName).groups, GroupKey(s, g)), id) ==
            Count(Get(b.groups, GroupKey(s, g)), id) +
            if groupName !in GroupListOf(b, c) && c.clientId == id && GroupKey(c.systemId, groupName) == GroupKey(s, g)
            then 1 else 0
  {
    CountAppend(Get(b.groups, GroupKey(c.systemId, groupName)), [c.clientId], id);
  }

  lemma {:induction false} GroupListsDistinct(calls: seq<BindCall>)
    ensures forall c :: c in BindAll(calls).groupLists ==> NoDuplicates(BindAll(calls).groupLists[c])
  {
    if calls != [] {
      GroupListsDistinct(calls[..|calls| - 1]);
    }
  }

  /** After any sequence of bindings, by systems with any ids: no GroupList repeats a name,
      and an id stands in the list of a group once for each client object with that id in
      it and once for each membership of another group with the same key. */
  lemma {:induction false} GroupMultiplicity(calls: seq<BindCall>, s: string, g: string, id: string)
    ensures var b := BindAll(calls);
            && Count(Get(b.groups, GroupKey(s, g)), id) == |Members(b, s, g, id)| + |Strangers(b, s, g, id)|
            && (forall c :: c in b.groupLists ==> NoDuplicates(b.groupLists[c]))
  {
    GroupListsDistinct(calls);
    if calls != [] {
      var before, last := BindAll(calls[..|calls| - 1]), calls[|calls| - 1];
      GroupMultiplicity(calls[..|calls| - 1], s, g, id);
      BindMembers(before, last.c, last.groupName, s, g, id);
      BindStrangers(before, last.c, last.groupName, s, g, id);
      BindCounts(before, last.c, last.groupName, s, g, id);
    }
  }

  /** So systems do not mix: the list of a group counts its own members only, exactly when
      no client object with that id is in another group of the same key; and there is none
      when no system that bound anybody clashes with this one. */
  lemma GroupsDoNotMixIff(calls: seq<BindCall>, s: string, g: string, id: string)
    ensures var b := BindAll(calls);
            Count(Get(b.groups, GroupKey(s, g)), id) == |Members(b, s, g, id)| <==> Strangers(b, s, g, id) == {}
    ensures (forall i :: 0 <= i < |calls| ==> !Clash(calls[i].c.systemId, s)) ==>
              Strangers(BindAll(calls), s, g, id) == {}
  {
    GroupMultiplicity(calls, s, g, id);
    if forall i :: 0 <= i < |calls| ==> !Clash(calls[i].c.systemId, s) {
      NoStrangers(calls, s, g, id);
    }
  }

  lemma {:induction false} NoStrangers(calls: seq<BindCall>, s: string, g: string, id: string)
    requires forall i :: 0 <= i < |calls| ==> !Clash(calls[i].c.systemId, s)
    ensures Strangers(BindAll(calls), s, g, id) == {}
  {
    if calls != [] {
      var last := calls[|calls| - 1];
      NoStrangers(calls[..|calls| - 1], s, g, id);
      BindStrangers(BindAll(calls[..|calls| - 1]), last.c, last.groupName, s, g, id);
      GroupKeyEqualIff(last.c.systemId, last.groupName, s, g);
    }
  }

  // ---- SendMessage2LocalGroup ----

  /** What one call does: the ids a message is enqueued for, in order, the list of the group
      afterwards, and whether a deletion loop went out of range. */
  datatype Sent = Sent(to: seq<string>, list: seq<string>, panicked: bool)

  /** The loop from index `i` on. It ranges over the live slice: `back` is the array under
      the header it started with, `len` the length now stored; an id that is not registered
      is deleted from the stored slice of the same array. */
  function SendFrom(back: seq<string>, len: nat, i: nat, registered: set<string>, bound: nat): Sent
    requires len <= |back| && i <= |back|
    decreases |back| - i
  {
    if i == |back| then Sent([], back[..len], false)
    else if back[i] in registered then
      var rest := SendFrom(back, len, i + 1, registered, bound);
      rest.(to := [back[i]] + rest.to)
    else
      var outcome := Delete(back[..len], back[i], bound);
      ListIsPrefix(back[..len], len, 0, back[i], bound);
      var back' := BackAfter(back[..len], len, 0, back[i], bound) + back[len..];
      if outcome.panicked then Sent([], outcome.list, true)
      else SendFrom(back', |outcome.list|, i + 1, registered, bound)
  }

  function Prepend(to: seq<string>, rest: Sent): Sent {
    rest.(to := to + rest.to)
  }

  lemma SendNext(to: seq<string>, back: seq<string>, len: nat, i: nat, registered: set<string>, bound: nat)
    requires len <= |back| && i < |back| && back[i] in registered
    ensures Prepend(to, SendFrom(back, len, i, registered, bound)) ==
            Prepend(to + [back[i]], SendFrom(back, len, i + 1, registered, bound))
  {
  }

  lemma SendDrop(to: seq<string>, back: seq<string>, len: nat, i: nat, registered: set<string>, bound: nat)
    requires len <= |back| && i < |back| && back[i] !in registered
    ensures |Delete(back[..len], back[i], bound).list| <= len
    ensures var outcome := Delete(back[..len], back[i], bound);
            var back' := BackAfter(back[..len], len, 0, back[i], bound) + back[len..];
            Prepend(to, SendFrom(back, len, i, registered, bound)) ==
            if outcome.panicked then Sent(to, outcome.list, true)
            else Prepend(to, SendFrom(back', |outcome.list|, i + 1, registered, bound))
  {
    ListIsPrefix(back[..len], len, 0, back[i], bound);
  }

  function SendToGroup(s: seq<string>, registered: set<string>, bound: nat): Sent {
    SendFrom(s, |s|, 0, registered, bound)
  }

  lemma {:induction false} SendWithoutMoves(s: seq<string>, len: nat, i: nat, registered: set<string>, bound: nat)
    requires len <= |s| && i <= |s|
    requires forall j :: 0 <= j < |s| && s[j] !in registered ==> j + 1 >= bound
    ensures var r := SendFrom(s, len, i, registered, bound);
            && r.to == Within(s[i..], registered) && !r.panicked
            && ((forall j :: i <= j < |s| ==> s[j] in registered) ==> r.list == s[..len])
    decreases |s| - i
  {
    if i < |s| {
      assert s[i..] == [s[i]] + s[i + 1..];
      if s[i] in registered {
        SendWithoutMoves(s, len, i + 1, registered, bound);
      } else {
        var outcome := Delete(s[..len], s[i], bound);
        CutsMoveNothing(s[..len], len, 0, s[i], bound);
        ListIsPrefix(s[..len], len, 0, s[i], bound);
        assert s[..len] + s[len..] == s;
        SendWithoutMoves(s, |outcome.list|, i + 1, registered, bound);
      }
    }
  }

  /** As written, for any list: as long as no unregistered member stands at an index after
      which a deletion moves elements, each registered entry gets one message, in list order;
      if every member is registered the group is left as it was. */
  lemma SendAsWritten(s: seq<string>, registered: set<string>, bound: nat)
    requires forall j :: 0 <= j < |s| && s[j] !in registered ==> j + 1 >= bound
    ensures SendToGroup(s, registered, bound).to == Within(s, registered)
    ensures !SendToGroup(s, registered, bound).panicked
    ensures (forall j :: 0 <= j < |s| ==> s[j] in registered) ==>
              SendToGroup(s, registered, bound) == Sent(s, s, false)
  {
    SendWithoutMoves(s, |s|, 0, registered, bound);
    assert s[0..] == s && s[..|s|] == s;
    if forall j :: 0 <= j < |s| ==> s[j] in registered {
      WithinAll(s, registered);
    }
  }

  /** Otherwise messages can be lost and doubled: with five groups and the first of three
      members gone, the second gets nothing and the third gets the message twice. */
  lemma SendLosesAndDoubles()
    ensures SendToGroup(["x", "a", "b"], {"a", "b"}, 5) == Sent(["b", "b"], ["a", "b"], false)
  {
    var s := ["x", "a", "b"];
    assert NoDuplicates(s);
    DeleteOne(s, "x", 5);
    assert s[..3] == s;
    var moved := ["a", "b", "b"];
    assert Moved(s, 3, 0) == moved;
    NothingUntil(moved, 2, 1, 3, "x", 5);
    assert moved[..2] == ["a", "b"];
    BackUnchanged(moved, 2, 1, "x", 5);
    assert BackAfter(s, 3, 0, "x", 5) == moved;
    assert moved + s[3..] == moved;
    assert SendFrom(moved, 2, 3, {"a", "b"}, 5) == Sent([], ["a", "b"], false);
    assert SendFrom(moved, 2, 2, {"a", "b"}, 5) == Sent(["b"], ["a", "b"], false);
    assert SendFrom(moved, 2, 1, {"a", "b"}, 5) == Sent(["b", "b"], ["a", "b"], false);
  }

  lemma DeleteOne(s: seq<string>, x: string, bound: nat)
    requires s == ["x", "a", "b"] && x == "x" && bound == 5
    ensures Delete(s, x, bound) == Outcome(["a", "b"], false)
  {
    assert Moved(s, 3, 0) == ["a", "b", "b"];
    NothingUntil(["a", "b", "b"], 2, 1, 3, x, bound);
    assert ["a", "b", "b"][..2] == ["a", "b"];
  }

  lemma {:induction false} BackUnchanged(back: seq<string>, len: nat, i: nat, x: string, bound: nat)
    requires len <= |back| && i <= |back|
    requires forall j :: i <= j < |back| ==> back[j] != x
    ensures BackAfter(back, len, i, x, bound) == back
    decreases |back| - i
  {
    if i < |back| {
      BackUnchanged(back, len, i + 1, x, bound);
    }
  }

  /** As meant: ranging over a copy, deleting with the bound taken from the list itself. */
  function SendMeantFrom(copy: seq<string>, list: seq<string>, registered: set<string>): Sent
    decreases |copy|
  {
    if copy == [] then Sent([], list, false)
    else if copy[0] in registered then
      var rest := SendMeantFrom(copy[1..], list, registered);
      rest.(to := [copy[0]] + rest.to)
    else
      var outcome := Delete(list, copy[0], |list|);
      if outcome.panicked then Sent([], outcome.list, true)
      else SendMeantFrom(copy[1..], outcome.list, registered)
  }

  lemma WithoutHead(done: seq<string>, rest: seq<string>)
    requires rest != [] && NoDuplicates(done + rest)
    ensures Without(done + rest, rest[0]) == done + rest[1..]
  {
    var list := done + rest;
    WithoutAppend(done, rest, rest[0]);
    assert forall j :: 0 <= j < |done| ==> done[j] == list[j];
    assert list[|done|] == rest[0];
    WithoutAbsent(done, rest[0]);
    assert forall j :: 1 <= j < |rest| ==> rest[j] == list[|done| + j];
    WithoutAbsent(rest[1..], rest[0]);
  }

  lemma StillDistinct(done: seq<string>, rest: seq<string>)
    requires rest != [] && NoDuplicates(done + rest)
    ensures NoDuplicates(done + rest[1..])
  {
    var list, left, p := done + rest, done + rest[1..], |done|;
    forall i, j | 0 <= i < j < |left| ensures left[i] != left[j] {
      assert left[i] == list[if i < p then i else i + 1];
      assert left[j] == list[if j < p then j else j + 1];
    }
  }

  lemma DeleteHead(done: seq<string>, rest: seq<string>)
    requires rest != [] && NoDuplicates(done + rest)
    ensures Delete(done + rest, rest[0], |done + rest|) == Outcome(done + rest[1..], false)
  {
    var list, x := done + rest, rest[0];
    assert list[|done|] == x;
    DeleteDistinct(list, x, |list|);
    WithoutHead(done, rest);
  }

  lemma {:induction false} SendMeant(done: seq<string>, copy: seq<string>, registered: set<string>)
    requires NoDuplicates(done + copy)
    ensures SendMeantFrom(copy, done + copy, registered) ==
            Sent(Within(copy, registered), done + Within(copy, registered), false)
    decreases |copy|
  {
    if copy != [] {
      if copy[0] in registered {
        assert done + copy == (done + [copy[0]]) + copy[1..];
        SendMeant(done + [copy[0]], copy[1..], registered);
        assert (done + [copy[0]]) + Within(copy[1..], registered) == done + ([copy[0]] + Within(copy[1..], registered));
      } else {
        DeleteHead(done, copy);
        StillDistinct(done, copy);
        SendMeant(done, copy[1..], registered);
      }
    }
  }

  /** As meant, on every list without duplicates: each registered member gets exactly one
      message, in order, and exactly the unregistered ones leave the group. */
  lemma SendAsMeant(s: seq<string>, registered: set<string>)
    requires NoDuplicates(s)
    ensures SendMeantFrom(s, s, registered) == Sent(Within(s, registered), Within(s, registered), false)
    ensures forall id :: Count(Within(s, registered), id) == if id in s && id in registered then 1 else 0
  {
    assert [] + s == s;
    SendMeant([], s, registered);
    assert [] + Within(s, registered) == Within(s, registered);
    forall id ensures Count(Within(s, registered), id) == if id in s && id in registered then 1 else 0 {
      WithinCounts(s, registered, id);
      CountPositive(s, id);
      if id in s {
        DistinctCount(s, id);
      }
    }
  }
}
