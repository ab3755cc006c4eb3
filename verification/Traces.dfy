/** What a run did, in terms of its labels alone: the logs, marks and passes of a state say
    nothing else than the labels that led to it. */
module Traces {
  import opened Lists
  import opened Registry
  import opened History
  import opened Server
  import opened Safety
  import opened Delivery
  import opened Disconnects
  import opened Handlers
  import opened Liveness
  import opened Reachable

  // ---- what came from outside ----

  lemma InputStep(s: State, l: Label)
    requires |s.threads| >= 3 && Enabled(s, l)
    ensures var s' := Next(s, l);
            && s'.log.arrived == s.log.arrived + (if l.Arrives? then [l.c] else [])
            && s'.log.requested == s.log.requested + (if l.Requested? then [l.message] else [])
            && s'.log.bound == s.log.bound + if l.Binds? then [JoinGroup(l.key, l.id)] else []
  {
  }

  /** The last step of a run, as far as the inputs are concerned. */
  lemma LastInput(s: State, labels: seq<Label>)
    requires Initial(s) && Possible(s, labels) && labels != []
    ensures Possible(s, labels[..|labels| - 1])
    ensures var t, t', l := After(s, labels[..|labels| - 1]), After(s, labels), labels[|labels| - 1];
            && t'.log.arrived == t.log.arrived + (if l.Arrives? then [l.c] else [])
            && t'.log.requested == t.log.requested + (if l.Requested? then [l.message] else [])
            && t'.log.bound == t.log.bound + if l.Binds? then [JoinGroup(l.key, l.id)] else []
  {
    LastStep(s, labels);
    ReachedShape(s, labels[..|labels| - 1]);
    InputStep(After(s, labels[..|labels| - 1]), labels[|labels| - 1]);
  }

  lemma {:induction false} ArrivalsLogged(s: State, labels: seq<Label>, c: Conn)
    requires Initial(s) && Possible(s, labels)
    ensures Count(After(s, labels).log.arrived, c) == Count(labels, Arrives(c))
  {
    if labels != [] {
      var l := labels[|labels| - 1];
      LastInput(s, labels);
      ArrivalsLogged(s, labels[..|labels| - 1], c);
      CountLast(labels, Arrives(c));
      CountAppend(After(s, labels[..|labels| - 1]).log.arrived, if l.Arrives? then [l.c] else [], c);
    }
  }

  lemma {:induction false} RequestsLogged(s: State, labels: seq<Label>, m: Message)
    requires Initial(s) && Possible(s, labels)
    ensures Count(After(s, labels).log.requested, m) == Count(labels, Requested(m))
  {
    if labels != [] {
      var l := labels[|labels| - 1];
      LastInput(s, labels);
      RequestsLogged(s, labels[..|labels| - 1], m);
      CountLast(labels, Requested(m));
      CountAppend(After(s, labels[..|labels| - 1]).log.requested, if l.Requested? then [l.message] else [], m);
    }
  }

  lemma {:induction false} BindingsLogged(s: State, labels: seq<Label>, key: string, id: string)
    requires Initial(s) && Possible(s, labels)
    ensures Count(After(s, labels).log.bound, JoinGroup(key, id)) == Count(labels, Binds(key, id))
  {
    if labels != [] {
      var l, op := labels[|labels| - 1], JoinGroup(key, id);
      LastInput(s, labels);
      BindingsLogged(s, labels[..|labels| - 1], key, id);
      CountLast(labels, Binds(key, id));
      CountAppend(After(s, labels[..|labels| - 1]).log.bound, if l.Binds? then [JoinGroup(l.key, l.id)] else [], op);
    }
  }

  lemma FindStep(s: State, l: Label)
    requires |s.threads| >= 3 && Enabled(s, l)
    ensures s.launched <= Next(s, l).launched
    ensures var more := Next(s, l).launched[|s.launched|..];
            if l.CloseRequested? then more == [Find(l.clientId, l.systemId, l.addr)]
            else forall j :: 0 <= j < |more| ==> !more[j].Find?
  {
  }

  lemma LastLaunch(s: State, labels: seq<Label>) returns (more: seq<Instr>)
    requires Initial(s) && Possible(s, labels) && labels != []
    ensures Possible(s, labels[..|labels| - 1])
    ensures After(s, labels).launched == After(s, labels[..|labels| - 1]).launched + more
    ensures var l := labels[|labels| - 1];
            && (if l.CloseRequested? then more == [Find(l.clientId, l.systemId, l.addr)]
                else forall j :: 0 <= j < |more| ==> !more[j].Find?)
            && (l.Tries? ==> more == [] && l.i < 3 + |After(s, labels).launched|)
  {
    var l := labels[|labels| - 1];
    LastStep(s, labels);
    var before := After(s, labels[..|labels| - 1]);
    ReachedShape(s, labels[..|labels| - 1]);
    FindStep(before, l);
    more := Next(before, l).launched[|before.launched|..];
  }

  /** One closer is started for each call of `CloseLocalClient`. */
  lemma {:induction false} ClosersLaunched(s: State, labels: seq<Label>, id: string, systemId: string, addr: string)
    requires Initial(s) && Possible(s, labels)
    ensures Count(After(s, labels).launched, Find(id, systemId, addr)) ==
            Count(labels, CloseRequested(id, systemId, addr))
  {
    if labels != [] {
      var more := LastLaunch(s, labels);
      ClosersLaunched(s, labels[..|labels| - 1], id, systemId, addr);
      CountLast(labels, CloseRequested(id, systemId, addr));
      CountAppend(After(s, labels[..|labels| - 1]).launched, more, Find(id, systemId, addr));
      NoneOf(more, Find(id, systemId, addr));
    }
  }

  lemma {:induction false} LaunchedGrows(s: State, labels: seq<Label>, k: nat)
    requires Initial(s) && Possible(s, labels) && k <= |labels|
    ensures Possible(s, labels[..k]) && After(s, labels[..k]).launched <= After(s, labels).launched
    decreases |labels|
  {
    if k == |labels| {
      assert labels[..k] == labels;
    } else {
      var more := LastLaunch(s, labels);
      LaunchedGrows(s, labels[..|labels| - 1], k);
      assert labels[..|labels| - 1][..k] == labels[..k];
    }
  }

  lemma NoneOf<T>(s: seq<T>, x: T)
    ensures x !in s ==> Count(s, x) == 0
  {
    CountPositive(s, x);
  }

  // ---- answers ----

  /** The connection whose handler got its answer out, or did not, in this step. */
  function Response(launched: seq<Instr>, l: Label, ok: bool): seq<Conn> {
    if l.Tries? && l.ok == ok && 3 <= l.i < 3 + |launched| && launched[l.i - 3].Change? && launched[l.i - 3].op.Add?
    then [launched[l.i - 3].op.c] else []
  }

  /** The connections whose handlers got their answers out, or did not, in the order of the
      attempts. */
  function Responses(launched: seq<Instr>, labels: seq<Label>, ok: bool): seq<Conn> {
    if labels == [] then []
    else Responses(launched, labels[..|labels| - 1], ok) + Response(launched, labels[|labels| - 1], ok)
  }

  lemma {:induction false} ResponsesStay(launched: seq<Instr>, more: seq<Instr>, labels: seq<Label>, ok: bool)
    requires launched <= more
    requires forall k :: 0 <= k < |labels| && labels[k].Tries? ==> labels[k].i < 3 + |launched|
    ensures Responses(more, labels, ok) == Responses(launched, labels, ok)
  {
    if labels != [] {
      ResponsesStay(launched, more, labels[..|labels| - 1], ok);
    }
  }

  lemma {:induction false} TriersExist(s: State, labels: seq<Label>)
    requires Initial(s) && Possible(s, labels)
    ensures forall k :: 0 <= k < |labels| && labels[k].Tries? ==> labels[k].i < 3 + |After(s, labels).launched|
  {
    if labels != [] {
      var more := LastLaunch(s, labels);
      TriersExist(s, labels[..|labels| - 1]);
    }
  }

  lemma OthersAnswerNobody(s: State, l: Label)
    requires |s.threads| >= 3 && Enabled(s, l) && !(l.Tries? && First(s, l.i).Answer?)
    ensures Next(s, l).log.answered == s.log.answered && Next(s, l).log.refused == s.log.refused
  {
  }

  lemma AnswerOfHandler(s: State, i: nat)
    requires Shaped(s.threads) && HandlersOk(s) && i < |s.threads| && s.threads[i].ops != []
    ensures First(s, i).Answer? ==> i >= 3 && s.launched[i - 3] == Change(Add(First(s, i).c))
    ensures i >= 3 && s.launched[i - 3].Change? && s.launched[i - 3].op.Add? ==> !First(s, i).Write?
  {
    assert ThreadOk(i, s.threads[i]) && Allowed(i, First(s, i));
    assert i >= 3 ==> HandlerOk(s.launched[i - 3], s.threads[i].ops);
  }

  lemma AnswerStep(s: State, l: Label)
    requires Shaped(s.threads) && HandlersOk(s) && Enabled(s, l)
    ensures Next(s, l).log.answered == s.log.answered + Response(s.launched, l, true)
    ensures Next(s, l).log.refused == s.log.refused + Response(s.launched, l, false)
  {
    if l.Tries? {
      AnswerOfHandler(s, l.i);
    }
    if l.Tries? && First(s, l.i).Answer? {
      assert Next(s, l) == Tried(s, l.i, l.ok);
    } else {
      OthersAnswerNobody(s, l);
    }
  }

  lemma LastAnswer(s: State, labels: seq<Label>)
    requires Initial(s) && Possible(s, labels) && labels != []
    ensures Possible(s, labels[..|labels| - 1])
    ensures var t, t', l := After(s, labels[..|labels| - 1]), After(s, labels), labels[|labels| - 1];
            && t'.log.answered == t.log.answered + Response(t.launched, l, true)
            && t'.log.refused == t.log.refused + Response(t.launched, l, false)
  {
    LastStep(s, labels);
    ReachedShape(s, labels[..|labels| - 1]);
    AnswerStep(After(s, labels[..|labels| - 1]), labels[|labels| - 1]);
  }

  lemma ResponsesNext(launched: seq<Instr>, more: seq<Instr>, labels: seq<Label>, l: Label, ok: bool)
    requires l.Tries? ==> more == []
    requires forall k :: 0 <= k < |labels| && labels[k].Tries? ==> labels[k].i < 3 + |launched|
    ensures Responses(launched + more, labels + [l], ok) == Responses(launched, labels, ok) + Response(launched, l, ok)
  {
    assert (labels + [l])[..|labels|] == labels;
    ResponsesStay(launched, launched + more, labels, ok);
    assert more == [] ==> launched + more == launched;
  }

  lemma {:induction false} AnswersLogged(s: State, labels: seq<Label>)
    requires Initial(s) && Possible(s, labels)
    ensures var t := After(s, labels);
            && t.log.answered == Responses(t.launched, labels, true)
            && t.log.refused == Responses(t.launched, labels, false)
  {
    if labels != [] {
      var front, l := labels[..|labels| - 1], labels[|labels| - 1];
      assert labels == front + [l];
      var more := LastLaunch(s, labels);
      LastAnswer(s, labels);
      AnswersLogged(s, front);
      TriersExist(s, front);
      ResponsesNext(After(s, front).launched, more, front, l, true);
      ResponsesNext(After(s, front).launched, more, front, l, false);
    }
  }

  // ---- groups to leave ----

  /** The group lists of the connections that the loop took from the DisConnect channel. */
  function GroupLists(labels: seq<Label>): seq<seq<string>> {
    if labels == [] then []
    else
      var l := labels[|labels| - 1];
      GroupLists(labels[..|labels| - 1]) + if l.TakesDisconnect? then [l.names] else []
  }

  /** How often `c` was to leave the group, over those disconnects. */
  function LeavesDue(got: seq<Gone>, names: seq<seq<string>>, c: Conn, groupName: string): nat {
    if got == [] || names == [] then 0
    else
      LeavesDue(got[..|got| - 1], names[..|names| - 1], c, groupName) +
      if got[|got| - 1].c == c && c.clientId != "" then Count(names[|names| - 1], groupName) else 0
  }

  lemma {:induction false} AskedCounts(d: Conn, names: seq<string>, c: Conn, groupName: string)
    ensures Count(Asked(d, names), LeaveGroup(c, groupName)) ==
            if d == c && c.clientId != "" then Count(names, groupName) else 0
  {
    if d.clientId != "" && names != [] {
      assert Asked(d, names)[1..] == Asked(d, names[1..]);
      AskedCounts(d, names[1..], c, groupName);
    }
  }

  lemma AskStep(s: State, l: Label)
    requires |s.threads| >= 3 && Enabled(s, l)
    ensures var s' := Next(s, l);
            if l.TakesDisconnect? then
              && s'.disconnect.got == s.disconnect.got + [s.disconnect.queue[0]]
              && s'.log.asked == s.log.asked + Asked(s.disconnect.queue[0].c, l.names)
            else s'.disconnect.got == s.disconnect.got && s'.log.asked == s.log.asked
  {
  }

  lemma LastAsked(s: State, labels: seq<Label>)
    requires Initial(s) && Possible(s, labels) && labels != []
    ensures Possible(s, labels[..|labels| - 1])
    ensures var t, t', l := After(s, labels[..|labels| - 1]), After(s, labels), labels[|labels| - 1];
            if l.TakesDisconnect? then
              && t.disconnect.queue != []
              && t'.disconnect.got == t.disconnect.got + [t.disconnect.queue[0]]
              && t'.log.asked == t.log.asked + Asked(t.disconnect.queue[0].c, l.names)
            else t'.disconnect.got == t.disconnect.got && t'.log.asked == t.log.asked
  {
    LastStep(s, labels);
    ReachedShape(s, labels[..|labels| - 1]);
    AskStep(After(s, labels[..|labels| - 1]), labels[|labels| - 1]);
  }

  lemma {:induction false} AskedLogged(s: State, labels: seq<Label>, c: Conn, groupName: string)
    requires Initial(s) && Possible(s, labels)
    ensures var t := After(s, labels);
            && |GroupLists(labels)| == |t.disconnect.got|
            && Count(t.log.asked, LeaveGroup(c, groupName)) ==
               LeavesDue(t.disconnect.got, GroupLists(labels), c, groupName)
  {
    if labels != [] {
      var front, l := labels[..|labels| - 1], labels[|labels| - 1];
      LastAsked(s, labels);
      AskedLogged(s, front, c, groupName);
      if l.TakesDisconnect? {
        var t := After(s, front);
        var g := t.disconnect.queue[0];
        CountAppend(t.log.asked, Asked(g.c, l.names), LeaveGroup(c, groupName));
        AskedCounts(g.c, l.names, c, groupName);
        LeavesDueMore(t.disconnect.got, GroupLists(front), g, l.names, c, groupName);
      } else {
        assert GroupLists(front) + [] == GroupLists(front);
      }
    }
  }

  lemma LeavesDueMore(got: seq<Gone>, lists: seq<seq<string>>, g: Gone, names: seq<string>, c: Conn, groupName: string)
    ensures LeavesDue(got + [g], lists + [names], c, groupName) ==
            LeavesDue(got, lists, c, groupName) +
            if g.c == c && c.clientId != "" then Count(names, groupName) else 0
  {
    assert (got + [g])[..|got|] == got && (lists + [names])[..|lists|] == lists;
  }

  // ---- sockets that end ----

  lemma EndStep(s: State, l: Label)
    requires Shaped(s.threads) && AllFulfil(s) && Enabled(s, l)
    ensures var s' := Next(s, l);
            if l.SocketEnds? then l.i !in s.marks.ended && s'.marks.ended == s.marks.ended[l.i := l.closed]
            else s'.marks.ended == s.marks.ended
  {
    if l.SocketEnds? {
      assert ThreadOk(l.i, s.threads[l.i]) && Allowed(l.i, First(s, l.i));
      assert Fulfils(s, l.i);
    }
  }

  lemma LastEnd(s: State, labels: seq<Label>)
    requires Initial(s) && Possible(s, labels) && labels != []
    ensures Possible(s, labels[..|labels| - 1])
    ensures var t, t', l := After(s, labels[..|labels| - 1]), After(s, labels), labels[|labels| - 1];
            if l.SocketEnds? then l.i !in t.marks.ended && t'.marks.ended == t.marks.ended[l.i := l.closed]
            else t'.marks.ended == t.marks.ended
  {
    LastStep(s, labels);
    Reached(s, labels[..|labels| - 1]);
    EndStep(After(s, labels[..|labels| - 1]), labels[|labels| - 1]);
  }

  /** A reader is over, by a close or not, exactly when its socket ended that way. */
  lemma {:induction false} EndsMarked(s: State, labels: seq<Label>, i: nat, closed: bool)
    requires Initial(s) && Possible(s, labels)
    ensures var ended := After(s, labels).marks.ended;
            i in ended && ended[i] == closed <==> SocketEnds(i, closed) in labels
  {
    if labels != [] {
      var front, l := labels[..|labels| - 1], labels[|labels| - 1];
      assert labels == front + [l];
      LastEnd(s, labels);
      EndsMarked(s, front, i, closed);
      if l.SocketEnds? && l.i == i && l.closed != closed {
        EndsMarked(s, front, i, closed);
      }
    }
  }

  // ---- closers that look ----

  /** At its step `k` the run has closer `i` look at the registry. */
  ghost predicate LooksAt(s: State, labels: seq<Label>, k: nat, i: nat, find: Instr) {
    && k < |labels| && labels[k] == Runs(i) && Possible(s, labels[..k])
    && i < |After(s, labels[..k]).threads| && After(s, labels[..k]).threads[i].ops != []
    && First(After(s, labels[..k]), i) == find && find.Find?
  }

  lemma LookStep(s: State, l: Label)
    requires Shaped(s.threads) && Enabled(s, l)
    ensures var s' := Next(s, l);
            if l.Runs? && First(s, l.i).Find? then s'.marks.looked == s.marks.looked[l.i := |s.history|]
            else s'.marks.looked == s.marks.looked
  {
  }

  lemma LastLook(s: State, labels: seq<Label>) returns (looks: bool)
    requires Initial(s) && Possible(s, labels) && labels != []
    ensures var front, n, l := labels[..|labels| - 1], |labels| - 1, labels[|labels| - 1];
            && Possible(s, front)
            && (if looks then
                  && l.Runs? && After(s, labels).marks.looked ==
                                After(s, front).marks.looked[l.i := |After(s, front).history|]
                  && l.i < |After(s, front).threads| && After(s, front).threads[l.i].ops != []
                  && LooksAt(s, labels, n, l.i, First(After(s, front), l.i))
                else After(s, labels).marks.looked == After(s, front).marks.looked)
  {
    var front, l := labels[..|labels| - 1], labels[|labels| - 1];
    LastStep(s, labels);
    ReachedShape(s, front);
    LookStep(After(s, front), l);
    looks := l.Runs? && First(After(s, front), l.i).Find?;
  }

  /** The mark of a closer is the length of the history at a step in which it looked. */
  lemma {:induction false} LooksMarked(s: State, labels: seq<Label>, i: nat) returns (k: nat, find: Instr)
    requires Initial(s) && Possible(s, labels) && i in After(s, labels).marks.looked
    ensures LooksAt(s, labels, k, i, find)
    ensures After(s, labels).marks.looked[i] == |After(s, labels[..k]).history|
  {
    assert labels != [];
    var front, l := labels[..|labels| - 1], labels[|labels| - 1];
    var looks := LastLook(s, labels);
    if looks && l.i == i {
      k, find := |labels| - 1, First(After(s, front), i);
    } else {
      k, find := LooksMarked(s, front, i);
      assert front[..k] == labels[..k] && front[k] == labels[k];
    }
  }

  // ---- passes ----

  /** The steps of the run in which a pass is begun. */
  function PickSteps(labels: seq<Label>): (at: seq<nat>)
    ensures forall k :: 0 <= k < |at| ==> at[k] < |labels| && labels[at[k]].Picks?
    ensures forall j, k :: 0 <= j < k < |at| ==> at[j] < at[k]
    ensures forall j :: 0 <= j < |labels| && labels[j].Picks? ==> j in at
  {
    if labels == [] then []
    else
      var n := |labels| - 1;
      var front, last := PickSteps(labels[..n]), if labels[n].Picks? then [n] else [];
      assert forall j :: j in front || j in last ==> j in front + last;
      assert labels[n].Picks? ==> n in last;
      front + last
  }

  lemma PickStep(s: State, l: Label)
    requires Shaped(s.threads) && Enabled(s, l)
    ensures var p, p' := s.passes, Next(s, l).passes;
            if l.Picks? then |p'| == |p| + 1 && p'[..|p|] == p && p'[|p|].at == |s.history|
            else |p'| == |p| && forall k :: 0 <= k < |p| ==> p'[k].at == p[k].at
  {
  }

  lemma LastPick(s: State, labels: seq<Label>)
    requires Initial(s) && Possible(s, labels) && labels != []
    ensures Possible(s, labels[..|labels| - 1])
    ensures var t, t', l := After(s, labels[..|labels| - 1]), After(s, labels), labels[|labels| - 1];
            if l.Picks? then
              && |t'.passes| == |t.passes| + 1 && t'.passes[..|t.passes|] == t.passes
              && t'.passes[|t.passes|].at == |t.history|
            else |t'.passes| == |t.passes| && forall k :: 0 <= k < |t.passes| ==> t'.passes[k].at == t.passes[k].at
  {
    LastStep(s, labels);
    ReachedShape(s, labels[..|labels| - 1]);
    PickStep(After(s, labels[..|labels| - 1]), labels[|labels| - 1]);
  }

  /** Pass `k` is marked with the length of the history before step `at[k]`. */
  ghost predicate MarkedAt(s: State, labels: seq<Label>, passes: seq<Pass>, at: seq<nat>) {
    && |passes| == |at|
    && forall k :: 0 <= k < |at| ==> at[k] <= |labels| && MarkedBy(s, labels, passes[k], at[k])
  }

  ghost predicate MarkedBy(s: State, labels: seq<Label>, p: Pass, n: nat)
    requires n <= |labels|
  {
    Possible(s, labels[..n]) && p.at == |After(s, labels[..n]).history|
  }

  lemma MarkedLonger(s: State, labels: seq<Label>, l: Label, passes: seq<Pass>, passes': seq<Pass>, at: seq<nat>)
    requires MarkedAt(s, labels, passes, at) && |passes'| == |passes|
    requires forall k :: 0 <= k < |passes| ==> passes'[k].at == passes[k].at
    ensures MarkedAt(s, labels + [l], passes', at)
  {
    forall k | 0 <= k < |at| ensures at[k] <= |labels + [l]| && MarkedBy(s, labels + [l], passes'[k], at[k]) {
      assert MarkedBy(s, labels, passes[k], at[k]);
      assert (labels + [l])[..at[k]] == labels[..at[k]];
    }
  }

  lemma MarkedMore(s: State, labels: seq<Label>, passes: seq<Pass>, at: seq<nat>, p: Pass, n: nat)
    requires MarkedAt(s, labels, passes, at) && n <= |labels| && MarkedBy(s, labels, p, n)
    ensures MarkedAt(s, labels, passes + [p], at + [n])
  {
  }

  lemma MarkedPick(s: State, labels: seq<Label>, l: Label, passes: seq<Pass>, p: Pass, at: seq<nat>)
    requires MarkedAt(s, labels, passes, at) && MarkedBy(s, labels, p, |labels|)
    ensures MarkedAt(s, labels + [l], passes + [p], at + [|labels|])
  {
    MarkedLonger(s, labels, l, passes, passes, at);
    assert (labels + [l])[..|labels|] == labels[..|labels|];
    MarkedMore(s, labels + [l], passes, at, p, |labels|);
  }

  lemma PickStepsNext(labels: seq<Label>, l: Label)
    ensures PickSteps(labels + [l]) == PickSteps(labels) + if l.Picks? then [|labels|] else []
  {
    assert (labels + [l])[..|labels|] == labels;
  }

  lemma MarkedStep(s: State, labels: seq<Label>, l: Label, passes: seq<Pass>, passes': seq<Pass>, at: seq<nat>)
    requires MarkedAt(s, labels, passes, at) && Possible(s, labels)
    requires if l.Picks? then
               && |passes'| == |passes| + 1 && passes'[..|passes|] == passes
               && passes'[|passes|].at == |After(s, labels).history|
             else |passes'| == |passes| && forall k :: 0 <= k < |passes| ==> passes'[k].at == passes[k].at
    ensures MarkedAt(s, labels + [l], passes', at + if l.Picks? then [|labels|] else [])
  {
    if l.Picks? {
      assert MarkedBy(s, labels, passes'[|passes|], |labels|) by {
        assert labels[..|labels|] == labels;
      }
      assert passes' == passes + [passes'[|passes|]];
      MarkedPick(s, labels, l, passes, passes'[|passes|], at);
    } else {
      assert at + [] == at;
      MarkedLonger(s, labels, l, passes, passes', at);
    }
  }

  /** There is one pass for each step that begins one, and it is marked with the length of the
      history then. */
  lemma {:induction false} PassesMarked(s: State, labels: seq<Label>)
    requires Initial(s) && Possible(s, labels)
    ensures MarkedAt(s, labels, After(s, labels).passes, PickSteps(labels))
  {
    if labels != [] {
      var front, l := labels[..|labels| - 1], labels[|labels| - 1];
      assert labels == front + [l];
      LastPick(s, labels);
      PassesMarked(s, front);
      PickStepsNext(front, l);
      MarkedStep(s, front, l, After(s, front).passes, After(s, labels).passes, PickSteps(front));
    }
  }

  // ---- attempts of the writer ----

  /** How the attempts of the writer went, in order. */
  function Outcomes(labels: seq<Label>): seq<bool> {
    if labels == [] then []
    else
      var l := labels[|labels| - 1];
      Outcomes(labels[..|labels| - 1]) + if l.Tries? && l.i == WRITER then [l.ok] else []
  }

  predicate WithinOrder(passes: seq<Pass>) {
    forall k :: 0 <= k < |passes| ==> Attempted(passes[k]) <= |passes[k].order|
  }

  /** What was attempted, over all passes, in order. */
  function Attempts(passes: seq<Pass>): seq<Target>
    requires WithinOrder(passes)
  {
    if passes == [] then []
    else
      var p := passes[|passes| - 1];
      Attempts(passes[..|passes| - 1]) + p.order[..Attempted(p)]
  }

  function AllDelivered(passes: seq<Pass>): seq<Conn> {
    if passes == [] then [] else AllDelivered(passes[..|passes| - 1]) + Conns(passes[|passes| - 1].delivered)
  }

  /** The connections of the attempts that went one way. */
  function WentBy(targets: seq<Target>, outcomes: seq<bool>, ok: bool): seq<Conn>
    requires |targets| == |outcomes|
  {
    if targets == [] then []
    else
      var n := |targets| - 1;
      WentBy(targets[..n], outcomes[..n], ok) + if outcomes[n] == ok then [targets[n].c] else []
  }

  lemma Attempt(passes: seq<Pass>, t: Target, ok: bool)
    requires WithinOrder(passes) && passes != []
    requires var p := passes[|passes| - 1]; Attempted(p) < |p.order| && p.order[Attempted(p)] == t
    ensures var last := |passes| - 1;
            var passes' := passes[last := Record(passes[last], t, ok)];
            && WithinOrder(passes') && Attempts(passes') == Attempts(passes) + [t]
            && AllDelivered(passes') == AllDelivered(passes) + (if ok then [t.c] else [])
            && AllFailed(passes') == AllFailed(passes) + if ok then [] else [t.c]
  {
    var last := |passes| - 1;
    var p, p' := passes[last], Record(passes[last], t, ok);
    var front, passes', more := passes[..last], passes[last := p'], if ok then [t.c] else [];
    RecordFailed(passes, t, ok);
    assert passes'[..last] == front;
    assert p.order[..Attempted(p) + 1] == p.order[..Attempted(p)] + [t];
    assert Attempts(front) + (p.order[..Attempted(p)] + [t]) == Attempts(front) + p.order[..Attempted(p)] + [t];
    assert Conns(p'.delivered) == Conns(p.delivered) + more;
    assert AllDelivered(front) + (Conns(p.delivered) + more) == AllDelivered(front) + Conns(p.delivered) + more;
  }

  lemma NoAttempt(passes: seq<Pass>, p: Pass)
    requires WithinOrder(passes) && p.delivered == [] && p.failed == []
    ensures WithinOrder(passes + [p]) && Attempts(passes + [p]) == Attempts(passes)
    ensures AllDelivered(passes + [p]) == AllDelivered(passes) && AllFailed(passes + [p]) == AllFailed(passes)
  {
    assert (passes + [p])[..|passes|] == passes && p.order[..0] == [] && Conns([]) == [];
  }

  /** What one step adds to the attempts. */
  ghost predicate Tells(p: seq<Pass>, p': seq<Pass>, more: seq<Target>, ok: bool) {
    && WithinOrder(p) && WithinOrder(p') && |more| <= 1 && Attempts(p') == Attempts(p) + more
    && AllDelivered(p') == AllDelivered(p) + (if ok then Conns(more) else [])
    && AllFailed(p') == AllFailed(p) + if ok then [] else Conns(more)
  }

  lemma NextTarget(s: State) returns (t: Target)
    requires WriterOk(s) && Ready(s, WRITER) && First(s, WRITER).Write? && s.passes != []
    ensures WithinOrder(s.passes) && First(s, WRITER) == Write(t)
    ensures var p := s.passes[|s.passes| - 1]; Attempted(p) < |p.order| && p.order[Attempted(p)] == t
  {
    var p := s.passes[|s.passes| - 1];
    assert PassOk(p) && s.threads[WRITER].ops == Writes(p.order[Attempted(p)..]);
    t := p.order[Attempted(p)];
  }

  lemma TriedPasses(s: State, ok: bool)
    requires Ready(s, WRITER) && First(s, WRITER).Write? && s.passes != []
    ensures var last := |s.passes| - 1;
            Tried(s, WRITER, ok).passes == s.passes[last := Record(s.passes[last], First(s, WRITER).target, ok)]
  {
  }

  lemma WriterWrites(s: State, ok: bool)
    requires Shaped(s.threads) && Enabled(s, Tries(WRITER, ok))
    ensures Ready(s, WRITER) && First(s, WRITER).Write? && s.passes != []
    ensures Next(s, Tries(WRITER, ok)) == Tried(s, WRITER, ok)
  {
    assert ThreadOk(WRITER, s.threads[WRITER]) && Allowed(WRITER, First(s, WRITER));
  }

  lemma AttemptTells(s: State, ok: bool) returns (t: Target)
    requires WriterOk(s) && Ready(s, WRITER) && First(s, WRITER).Write? && s.passes != []
    ensures Tells(s.passes, Tried(s, WRITER, ok).passes, [t], ok)
  {
    t := NextTarget(s);
    TriedPasses(s, ok);
    Attempt(s.passes, t, ok);
    assert Conns([t]) == [t.c];
  }

  lemma TriedTells(s: State, ok: bool) returns (t: Target)
    requires Shaped(s.threads) && WriterOk(s) && Enabled(s, Tries(WRITER, ok))
    ensures Tells(s.passes, Next(s, Tries(WRITER, ok)).passes, [t], ok)
  {
    WriterWrites(s, ok);
    t := AttemptTells(s, ok);
  }

  lemma OtherPasses(s: State, l: Label)
    requires Shaped(s.threads) && Enabled(s, l) && !(l.Tries? && l.i == WRITER)
    ensures if l.Picks? then
              exists p :: Next(s, l).passes == s.passes + [p] && p.delivered == [] && p.failed == []
            else Next(s, l).passes == s.passes
  {
    if l.Tries? {
      assert ThreadOk(l.i, s.threads[l.i]) && Allowed(l.i, First(s, l.i));
    } else if l.Picks? {
      var p := Next(s, l).passes[|s.passes|];
      assert Next(s, l).passes == s.passes + [p] && p.delivered == [] && p.failed == [];
    }
  }

  lemma TellsNothing(p: seq<Pass>)
    requires WithinOrder(p)
    ensures Tells(p, p, [], false)
  {
    assert Conns([]) == [] && Attempts(p) + [] == Attempts(p);
    assert AllDelivered(p) + [] == AllDelivered(p) && AllFailed(p) + [] == AllFailed(p);
  }

  lemma OthersTell(s: State, l: Label)
    requires Shaped(s.threads) && WriterOk(s) && Enabled(s, l) && !(l.Tries? && l.i == WRITER)
    ensures Tells(s.passes, Next(s, l).passes, [], false)
  {
    assert WithinOrder(s.passes);
    OtherPasses(s, l);
    TellsNothing(s.passes);
    if l.Picks? {
      var p :| Next(s, l).passes == s.passes + [p] && p.delivered == [] && p.failed == [];
      NoAttempt(s.passes, p);
    }
  }

  lemma LastTried(s: State, labels: seq<Label>) returns (t: Target)
    requires Initial(s) && Possible(s, labels) && labels != []
    requires var l := labels[|labels| - 1]; l.Tries? && l.i == WRITER
    ensures var front, l := labels[..|labels| - 1], labels[|labels| - 1];
            && Possible(s, front)
            && Tells(After(s, front).passes, After(s, labels).passes, [t], l.ok)
  {
    LastStep(s, labels);
    Reached(s, labels[..|labels| - 1]);
    t := TriedTells(After(s, labels[..|labels| - 1]), labels[|labels| - 1].ok);
  }

  lemma LastOther(s: State, labels: seq<Label>)
    requires Initial(s) && Possible(s, labels) && labels != []
    requires var l := labels[|labels| - 1]; !(l.Tries? && l.i == WRITER)
    ensures var front := labels[..|labels| - 1];
            && Possible(s, front)
            && Tells(After(s, front).passes, After(s, labels).passes, [], false)
  {
    LastStep(s, labels);
    Reached(s, labels[..|labels| - 1]);
    OthersTell(After(s, labels[..|labels| - 1]), labels[|labels| - 1]);
  }

  lemma WentByMore(targets: seq<Target>, outcomes: seq<bool>, t: Target, outcome: bool, ok: bool)
    requires |targets| == |outcomes|
    ensures WentBy(targets + [t], outcomes + [outcome], ok) ==
            WentBy(targets, outcomes, ok) + if outcome == ok then [t.c] else []
  {
    assert (targets + [t])[..|targets|] == targets && (outcomes + [outcome])[..|outcomes|] == outcomes;
  }

  ghost predicate Went(passes: seq<Pass>, outcomes: seq<bool>) {
    && WithinOrder(passes) && |Attempts(passes)| == |outcomes|
    && AllDelivered(passes) == WentBy(Attempts(passes), outcomes, true)
    && AllFailed(passes) == WentBy(Attempts(passes), outcomes, false)
  }

  lemma WentMore(p: seq<Pass>, p': seq<Pass>, t: Target, ok: bool, outcomes: seq<bool>)
    requires Went(p, outcomes) && Tells(p, p', [t], ok)
    ensures Went(p', outcomes + [ok])
  {
    assert Conns([t]) == [t.c];
    WentByMore(Attempts(p), outcomes, t, ok, true);
    WentByMore(Attempts(p), outcomes, t, ok, false);
  }

  lemma WentOn(p: seq<Pass>, p': seq<Pass>, outcomes: seq<bool>)
    requires Went(p, outcomes) && Tells(p, p', [], false)
    ensures Went(p', outcomes)
  {
    assert Conns([]) == [] && Attempts(p) + [] == Attempts(p);
    assert AllDelivered(p) + [] == AllDelivered(p) && AllFailed(p) + [] == AllFailed(p);
  }

  /** Attempts went as the labels say: what was delivered is what the successful ones were
      about, what failed what the others were about. */
  lemma {:induction false} AttemptsWent(s: State, labels: seq<Label>)
    requires Initial(s) && Possible(s, labels)
    ensures Went(After(s, labels).passes, Outcomes(labels))
  {
    if labels != [] {
      var front, l := labels[..|labels| - 1], labels[|labels| - 1];
      if l.Tries? && l.i == WRITER {
        var target := LastTried(s, labels);
        AttemptsWent(s, front);
        WentMore(After(s, front).passes, After(s, labels).passes, target, l.ok, Outcomes(front));
      } else {
        LastOther(s, labels);
        AttemptsWent(s, front);
        assert Outcomes(front) + [] == Outcomes(front);
        WentOn(After(s, front).passes, After(s, labels).passes, Outcomes(front));
      }
    }
  }

  // ---- pings ----

  /** The connections that a ping failed on, in order. */
  function FailedPings(labels: seq<Label>): seq<Conn> {
    if labels == [] then []
    else
      var l := labels[|labels| - 1];
      FailedPings(labels[..|labels| - 1]) + if l.Pings? && !l.ok then [l.c] else []
  }

  lemma UnreachedStep(s: State, l: Label)
    requires |s.threads| >= 3 && Enabled(s, l)
    ensures UnreachedConns(Next(s, l).marks.unreached) ==
            UnreachedConns(s.marks.unreached) + if l.Pings? && !l.ok then [l.c] else []
  {
    if l.Pings? {
      UnreachedMore(s.marks.unreached, if l.ok then [] else [Unreached(l.c, s.marks.swept, l.at)]);
    }
  }

  lemma LastPing(s: State, labels: seq<Label>)
    requires Initial(s) && Possible(s, labels) && labels != []
    ensures Possible(s, labels[..|labels| - 1])
    ensures var t, t', l := After(s, labels[..|labels| - 1]), After(s, labels), labels[|labels| - 1];
            UnreachedConns(t'.marks.unreached) ==
            UnreachedConns(t.marks.unreached) + if l.Pings? && !l.ok then [l.c] else []
  {
    LastStep(s, labels);
    ReachedShape(s, labels[..|labels| - 1]);
    UnreachedStep(After(s, labels[..|labels| - 1]), labels[|labels| - 1]);
  }

  lemma {:induction false} PingsMarked(s: State, labels: seq<Label>)
    requires Initial(s) && Possible(s, labels)
    ensures UnreachedConns(After(s, labels).marks.unreached) == FailedPings(labels)
  {
    if labels != [] {
      LastPing(s, labels);
      PingsMarked(s, labels[..|labels| - 1]);
    }
  }
}
