/** Where the entries of the channels and of the history come from, and how many there are. */
module Events {
  import opened Lists
  import opened Slices
  import opened Registry
  import opened History
  import opened Server
  import opened Safety
  import opened Delivery

  // ---- sums over the threads ----

  function Sum(f: Thread -> nat, threads: seq<Thread>): nat {
    if threads == [] then 0 else f(threads[0]) + Sum(f, threads[1..])
  }

  lemma {:induction false} SumUpdate(f: Thread -> nat, threads: seq<Thread>, i: nat, t: Thread)
    requires i < |threads|
    ensures Sum(f, threads[i := t]) + f(threads[i]) == Sum(f, threads) + f(t)
  {
    if i == 0 {
      assert threads[0 := t][1..] == threads[1..];
    } else {
      assert threads[i := t][1..] == threads[1..][i - 1 := t];
      SumUpdate(f, threads[1..], i - 1, t);
    }
  }

  lemma {:induction false} SumAppend(f: Thread -> nat, threads: seq<Thread>, t: Thread)
    ensures Sum(f, threads + [t]) == Sum(f, threads) + f(t)
  {
    if threads == [] {
      assert threads + [t] == [t];
    } else {
      assert (threads + [t])[1..] == threads[1..] + [t];
      SumAppend(f, threads[1..], t);
    }
  }

  lemma {:induction false} SumZero(f: Thread -> nat, threads: seq<Thread>)
    requires forall i :: 0 <= i < |threads| ==> f(threads[i]) == 0
    ensures Sum(f, threads) == 0
  {
    if threads != [] {
      SumZero(f, threads[1..]);
    }
  }

  // ---- every section in the history has a cause ----

  function Left(instr: Instr): Thread -> nat {
    (t: Thread) => Count(t.ops, instr)
  }

  function GoneConns(put: seq<Gone>): seq<Conn> {
    seq(|put|, i requires 0 <= i < |put| => put[i].c)
  }

  /** How often the event loop gave up disconnecting `c` because the deletion from a group
      went out of range. */
  function Aborted(keying: Keying, history: seq<Op>, c: Conn): nat {
    if history == [] then 0
    else
      var before, last := history[..|history| - 1], history[|history| - 1];
      Aborted(keying, before, c) + Abort(Replay(keying, before), last, c)
  }

  function Abort(r: Indexes, op: Op, c: Conn): nat {
    if op.LeaveGroup? && op.c == c && Panics(r, op) then 1 else 0
  }

  /** The steps that are accounted for: writing sections, starting a reader, answering and
      announcing a connection, and posting a message. */
  predicate Caused(instr: Instr) {
    instr.Change? || instr.Spawn? || instr.Answer? || instr.Announce? || instr.Post?
  }

  /** How often such a step was taken, or given up. */
  function Taken(s: State, instr: Instr): nat
    requires Caused(instr)
  {
    match instr
    case Spawn(c) => Count(s.launched, Read(c))
    case Answer(c) => Count(s.log.answered, c) + Count(s.log.refused, c)
    case Announce(c) => Count(s.connect.put, c)
    case Post(m) => Count(s.messages.put, m)
    case Change(op) => Count(s.history, op) + GivenUp(s, op)
  }

  /** Leaving a system is given up when leaving a group of the connection went out of range;
      leaving a group, when leaving one before it did. */
  function GivenUp(s: State, op: Op): nat {
    match op
    case Exit(c) => Aborted(s.keying, s.history, c)
    case LeaveGroup(_, _) => Count(s.log.skipped, Change(op))
    case _ => 0
  }

  /** How often a step was called for: the first `AddClient`, the entering of a system, a
      reader and an answer by every accepted connection; a Connect event by every answer that
      was taken; the second `AddClient` by every Connect event; the deletion of the session,
      the leaving of the groups and of the system by every DisConnect event with an id; the
      joining of a group by every binding; a message by every request. */
  function Causes(s: State, instr: Instr): nat
    requires Caused(instr)
  {
    match instr
    case Spawn(c) => Count(s.log.arrived, c)
    case Answer(c) => Count(s.log.arrived, c)
    case Announce(c) => Count(s.log.answered, c)
    case Post(m) => Count(s.log.requested, m)
    case Change(op) =>
      match op
      case Add(c) => Count(s.log.arrived, c) + Count(s.connect.got, c)
      case Enter(c) => Count(s.log.arrived, c)
      case Del(c) => if c.clientId == "" then 0 else Count(GoneConns(s.disconnect.got), c)
      case Exit(c) => if c.clientId == "" then 0 else Count(GoneConns(s.disconnect.got), c)
      case LeaveGroup(_, _) => Count(s.log.asked, op)
      case JoinGroup(_, _) => Count(s.log.bound, op)
  }

  ghost predicate Balanced(s: State, instr: Instr)
    requires Caused(instr)
  {
    Taken(s, instr) + Sum(Left(instr), s.threads) == Causes(s, instr)
  }

  lemma LeftAdvance(s: State, i: nat, ops: seq<Instr>, instr: Instr)
    requires i < |s.threads|
    ensures Sum(Left(instr), Advance(s, i, ops).threads) + Count(s.threads[i].ops, instr) ==
            Sum(Left(instr), s.threads) + Count(ops, instr)
  {
    SumUpdate(Left(instr), s.threads, i, Thread(ops, false));
  }

  lemma LeftLaunch(s: State, ops: seq<Instr>, instr: Instr)
    requires ops != []
    ensures Sum(Left(instr), Launch(s, ops).threads) == Sum(Left(instr), s.threads) + Count(ops, instr)
  {
    SumAppend(Left(instr), s.threads, Thread(ops, false));
  }

  lemma NoneLeft(ops: seq<Instr>, instr: Instr)
    requires forall j :: 0 <= j < |ops| ==> ops[j] != instr
    ensures Count(ops, instr) == 0
  {
  }

  lemma {:induction false} LeavingCounts(ops: seq<Instr>, c: Conn, instr: Instr)
    requires Leaving(ops, c) && Caused(instr) && !(instr.Change? && instr.op.LeaveGroup?)
    ensures Count(ops, instr) == if instr == Change(Exit(c)) then 1 else 0
  {
    if ops == [Change(Exit(c)), Size] {
      assert ops[1..] == [Size];
    } else {
      LeavingCounts(ops[1..], c, instr);
    }
  }

  lemma {:induction false} LeaveAllCounts(c: Conn, names: seq<string>, op: Op)
    requires c.clientId != ""
    ensures Count(LeaveAll(c, names), Change(op)) == Count(Asked(c, names), op)
  {
    if names != [] {
      LeaveAllCounts(c, names[1..], op);
      assert LeaveAll(c, names)[1..] == LeaveAll(c, names[1..]);
      assert Asked(c, names)[1..] == Asked(c, names[1..]);
    }
  }

  lemma DisconnectEventCounts(c: Conn, names: seq<string>, instr: Instr)
    requires Caused(instr)
    ensures Count(DisconnectEvent(c, names), instr) ==
            if instr.Change? && instr.op.LeaveGroup? then Count(Asked(c, names), instr.op)
            else if c.clientId != "" && (instr == Change(Del(c)) || instr == Change(Exit(c))) then 1
            else 0
  {
    var leave, end := LeaveAll(c, names), [Change(Exit(c)), Size];
    if c.clientId != "" {
      assert DisconnectEvent(c, names) == [Change(Del(c))] + (leave + end);
      CountAppend([Change(Del(c))], leave + end, instr);
      if instr.Change? && instr.op.LeaveGroup? {
        CountAppend(leave, end, instr);
        LeaveAllCounts(c, names, instr.op);
        assert end[1..] == [Size];
      } else {
        LeaveAllLeaving(c, names);
        LeavingCounts(leave + end, c, instr);
      }
    }
  }

  /** When a section panics, what its thread drops but for groups to leave is the leaving of
      the system of the connection it was about, if that was still to come. */
  lemma PanicDrops(s: State, i: nat, instr: Instr, panicking: Op)
    requires Shaped(s.threads) && i < |s.threads| && Caused(instr) && !(instr.Change? && instr.op.LeaveGroup?)
    requires s.threads[i].ops != [] && s.threads[i].ops[0] == Change(panicking) && Panics(s.reg, panicking)
    ensures Count(s.threads[i].ops[1..], instr) ==
            if panicking.LeaveGroup? && instr == Change(Exit(panicking.c)) then 1 else 0
  {
    var ops := s.threads[i].ops;
    assert ThreadOk(i, s.threads[i]) && Allowed(i, ops[0]);
    assert Leaving(ops, panicking.c);
    LeavingCounts(ops, panicking.c, instr);
  }

  lemma TakenChange(s: State, op: Op, dropped: seq<Instr>, instr: Instr)
    requires Serial(s) && Caused(instr)
    ensures var s' := s.(history := s.history + [op], log := s.log.(skipped := s.log.skipped + dropped));
            Taken(s', instr) == Taken(s, instr) + (if instr == Change(op) then 1 else 0) +
                                (if !instr.Change? then 0
                                 else if instr.op.Exit? then Abort(s.reg, op, instr.op.c)
                                 else if instr.op.LeaveGroup? then Count(dropped, instr)
                                 else 0)
  {
    assert (s.history + [op])[..|s.history|] == s.history;
    CountAppend(s.log.skipped, dropped, instr);
    if instr.Change? {
      CountAppend(s.history, [op], instr.op);
    }
  }

  lemma PanickedBalanced(s: State, i: nat, instr: Instr)
    requires Shaped(s.threads) && Serial(s) && Caused(instr) && Balanced(s, instr)
    requires Ready(s, i) && First(s, i).Change? && Panics(s.reg, First(s, i).op)
    ensures Balanced(Ran(s, i), instr)
  {
    TakenChange(s, First(s, i).op, Rest(s, i), instr);
    LeftAdvance(s, i, [Size], instr);
    if !(instr.Change? && instr.op.LeaveGroup?) {
      PanicDrops(s, i, instr, First(s, i).op);
    }
  }

  lemma FinishedBalanced(s: State, i: nat, instr: Instr)
    requires Serial(s) && Caused(instr) && Balanced(s, instr)
    requires Ready(s, i) && First(s, i).Change? && !Panics(s.reg, First(s, i).op)
    ensures Balanced(Ran(s, i), instr)
  {
    TakenChange(s, First(s, i).op, [], instr);
    LeftAdvance(s, i, Rest(s, i), instr);
  }

  lemma FoundBalanced(s: State, i: nat, instr: Instr)
    requires Caused(instr) && Balanced(s, instr) && Ready(s, i) && First(s, i).Find?
    ensures Balanced(Ran(s, i), instr)
  {
    var found := CloseFound(Sessions(s.reg, First(s, i).clientId), First(s, i).systemId, First(s, i).addr);
    CountAppend(found, Rest(s, i), instr);
    LeftAdvance(s, i, found + Rest(s, i), instr);
  }

  lemma SpawnedBalanced(s: State, i: nat, instr: Instr)
    requires Caused(instr) && Balanced(s, instr) && Ready(s, i) && First(s, i).Spawn?
    ensures Balanced(Ran(s, i), instr)
  {
    var c := First(s, i).c;
    var mid, s' := Advance(s, i, Rest(s, i)), Ran(s, i);
    LeftAdvance(s, i, Rest(s, i), instr);
    LeftLaunch(mid, [Read(c)], instr);
    TakenSpawn(s, c, instr);
    assert s' == Launch(mid, [Read(c)]) && s'.log == s.log && s'.launched == s.launched + [Read(c)];
    assert Taken(s', instr) == Taken(s.(launched := s'.launched), instr) && Causes(s', instr) == Causes(s, instr);
  }

  lemma TakenSpawn(s: State, c: Conn, instr: Instr)
    requires Caused(instr)
    ensures Taken(s.(launched := s.launched + [Read(c)]), instr) == Taken(s, instr) + if instr == Spawn(c) then 1 else 0
  {
    if instr.Spawn? {
      CountAppend(s.launched, [Read(c)], Read(instr.c));
    }
  }

  lemma RanBalanced(s: State, i: nat, instr: Instr)
    requires Shaped(s.threads) && Serial(s) && Caused(instr) && Balanced(s, instr)
    requires Ready(s, i) && CanRun(s, i)
    ensures Balanced(Ran(s, i), instr)
  {
    if First(s, i).Change? {
      if Panics(s.reg, First(s, i).op) {
        PanickedBalanced(s, i, instr);
      } else {
        FinishedBalanced(s, i, instr);
      }
    } else if First(s, i).Find? {
      FoundBalanced(s, i, instr);
    } else if First(s, i).Spawn? {
      SpawnedBalanced(s, i, instr);
    } else {
      SentBalanced(s, i, instr);
    }
  }

  lemma SentBalanced(s: State, i: nat, instr: Instr)
    requires Caused(instr) && Balanced(s, instr) && Ready(s, i) && CanRun(s, i)
    requires First(s, i).Size? || First(s, i).Push? || First(s, i).Announce? || First(s, i).Post?
    ensures Balanced(Ran(s, i), instr)
  {
    LeftAdvance(s, i, Rest(s, i), instr);
    if First(s, i).Announce? && instr.Announce? {
      CountAppend(s.connect.put, [First(s, i).c], instr.c);
    } else if First(s, i).Post? && instr.Post? {
      CountAppend(s.messages.put, [First(s, i).message], instr.message);
    }
  }

  lemma AnsweredBalanced(s: State, i: nat, instr: Instr)
    requires Caused(instr) && Balanced(s, instr) && Ready(s, i) && First(s, i).Answer?
    ensures Balanced(Tried(s, i, true), instr)
  {
    var c := First(s, i).c;
    assert s.log.refused + [] == s.log.refused;
    CountAppend([Announce(c)], Rest(s, i), instr);
    LeftAdvance(s, i, [Announce(c)] + Rest(s, i), instr);
    if instr.Answer? || instr.Announce? {
      CountAppend(s.log.answered, [c], instr.c);
    }
  }

  lemma RefusedBalanced(s: State, i: nat, instr: Instr)
    requires Caused(instr) && Balanced(s, instr) && Ready(s, i) && First(s, i).Answer?
    ensures Balanced(Tried(s, i, false), instr)
  {
    assert [] + Rest(s, i) == Rest(s, i) && s.log.answered + [] == s.log.answered;
    LeftAdvance(s, i, Rest(s, i), instr);
    if instr.Answer? {
      CountAppend(s.log.refused, [First(s, i).c], instr.c);
    }
  }

  lemma UnfoldBalanced(s: State, l: Label, instr: Instr)
    requires Caused(instr) && Balanced(s, instr) && Unfolds(l) && Enabled(s, l)
    ensures Balanced(Next(s, l), instr)
  {
    if l.Tries? && First(s, l.i).Answer? {
      if l.ok {
        AnsweredBalanced(s, l.i, instr);
      } else {
        RefusedBalanced(s, l.i, instr);
      }
    } else {
      SameBooks(s, l, instr);
      var ops := NothingCausedInFront(s, l, instr);
      LeftAdvance(s, l.i, ops, instr);
    }
  }

  lemma SameBooks(s: State, l: Label, instr: Instr)
    requires Caused(instr) && Unfolds(l) && Enabled(s, l) && !(l.Tries? && First(s, l.i).Answer?)
    ensures Taken(Next(s, l), instr) == Taken(s, instr) && Causes(Next(s, l), instr) == Causes(s, instr)
  {
    UnfoldStep(s, l);
  }

  lemma NothingCausedInFront(s: State, l: Label, instr: Instr) returns (ops: seq<Instr>)
    requires Caused(instr) && Unfolds(l) && Enabled(s, l) && !(l.Tries? && First(s, l.i).Answer?)
    ensures Count(ops, instr) == Count(s.threads[l.i].ops, instr)
    ensures Next(s, l).threads == Advance(s, l.i, ops).threads
  {
    var front := Front(s, l);
    NoneLeft(front, instr);
    CountAppend(front, Rest(s, l.i), instr);
    UnfoldStep(s, l);
    ops := front + Rest(s, l.i);
  }

  lemma TakenLaunch(s: State, first: Instr, instr: Instr)
    requires Caused(instr) && !first.Read?
    ensures Taken(s.(launched := s.launched + [first]), instr) == Taken(s, instr)
  {
    if instr.Spawn? {
      CountAppend(s.launched, [first], Read(instr.c));
    }
  }

  lemma ArrivesBalanced(s: State, c: Conn, instr: Instr)
    requires Caused(instr) && Balanced(s, instr)
    ensures Balanced(Next(s, Arrives(c)), instr)
  {
    forall d ensures Count(s.log.arrived + [c], d) == Count(s.log.arrived, d) + if d == c then 1 else 0 {
      CountAppend(s.log.arrived, [c], d);
    }
    LeftLaunch(s, Handler(c), instr);
    TakenLaunch(s, Handler(c)[0], instr);
    HandlerCounts(c, instr);
  }

  lemma RequestedBalanced(s: State, m: Message, instr: Instr)
    requires Caused(instr) && Balanced(s, instr)
    ensures Balanced(Next(s, Requested(m)), instr)
  {
    if instr.Post? {
      CountAppend(s.log.requested, [m], instr.message);
    }
    LeftLaunch(s, [Post(m)], instr);
    TakenLaunch(s, Post(m), instr);
  }

  lemma BindsBalanced(s: State, key: string, id: string, instr: Instr)
    requires Caused(instr) && Balanced(s, instr)
    ensures Balanced(Next(s, Binds(key, id)), instr)
  {
    if instr.Change? {
      CountAppend(s.log.bound, [JoinGroup(key, id)], instr.op);
    }
    LeftLaunch(s, [Change(JoinGroup(key, id))], instr);
    TakenLaunch(s, Change(JoinGroup(key, id)), instr);
  }

  lemma InputBalanced(s: State, l: Label, instr: Instr)
    requires |s.threads| >= 3 && Caused(instr) && Balanced(s, instr) && Enabled(s, l) && IsInput(l) && !Unfolds(l)
    ensures Balanced(Next(s, l), instr)
  {
    match l
    case Arrives(c) => ArrivesBalanced(s, c, instr);
    case Requested(m) => RequestedBalanced(s, m, instr);
    case Binds(key, id) => BindsBalanced(s, key, id, instr);
    case CloseRequested(clientId, systemId, addr) =>
      LeftLaunch(s, [Find(clientId, systemId, addr)], instr);
      TakenLaunch(s, Find(clientId, systemId, addr), instr);
    case Ticks => LeftAdvance(s, PINGER, [All], instr);
  }

  lemma ConnectBalanced(s: State, instr: Instr)
    requires |s.threads| >= 3 && Caused(instr) && Balanced(s, instr) && Enabled(s, TakesConnect)
    ensures Balanced(Next(s, TakesConnect), instr)
  {
    var c := s.connect.queue[0];
    if instr.Change? && instr.op.Add? {
      CountAppend(s.connect.got, [c], instr.op.c);
    }
    LeftAdvance(s, LOOP, ConnectEvent(c), instr);
    ConnectCounts(c, instr);
  }

  lemma ConnectCounts(c: Conn, instr: Instr)
    requires Caused(instr)
    ensures Count(ConnectEvent(c), instr) == if instr == Change(Add(c)) then 1 else 0
  {
    assert ConnectEvent(c)[1..] == [Size];
  }

  lemma DisconnectCauses(s: State, g: Gone, asked: seq<Op>, instr: Instr)
    requires Caused(instr)
    ensures var got := s.disconnect.(got := s.disconnect.got + [g]);
            Causes(s.(disconnect := got, log := s.log.(asked := s.log.asked + asked)), instr) ==
            Causes(s, instr) +
            if instr.Change? && instr.op.LeaveGroup? then Count(asked, instr.op)
            else if g.c.clientId != "" && (instr == Change(Del(g.c)) || instr == Change(Exit(g.c))) then 1
            else 0
  {
    assert GoneConns(s.disconnect.got + [g]) == GoneConns(s.disconnect.got) + [g.c];
    if instr.Change? && (instr.op.Del? || instr.op.Exit?) {
      CountAppend(GoneConns(s.disconnect.got), [g.c], instr.op.c);
    } else if instr.Change? && instr.op.LeaveGroup? {
      CountAppend(s.log.asked, asked, instr.op);
    }
  }

  lemma DisconnectBalanced(s: State, names: seq<string>, instr: Instr)
    requires |s.threads| >= 3 && Caused(instr) && Balanced(s, instr) && Enabled(s, TakesDisconnect(names))
    ensures Balanced(Next(s, TakesDisconnect(names)), instr)
  {
    var g := s.disconnect.queue[0];
    DisconnectCauses(s, g, Asked(g.c, names), instr);
    DisconnectEventCounts(g.c, names, instr);
    LeftAdvance(s, LOOP, DisconnectEvent(g.c, names), instr);
  }

  /** In every interleaving, each step with a cause has been taken or is still to be taken,
      once for each of its causes, or was given up after a deletion that went out of range. */
  lemma NextBalanced(s: State, l: Label, instr: Instr)
    requires Shaped(s.threads) && Serial(s) && Caused(instr) && Balanced(s, instr) && Enabled(s, l)
    ensures Balanced(Next(s, l), instr)
  {
    if Unfolds(l) {
      UnfoldBalanced(s, l, instr);
    } else if IsInput(l) {
      InputBalanced(s, l, instr);
    } else if l.Enters? {
      SumUpdate(Left(instr), s.threads, l.i, s.threads[l.i].(inside := true));
    } else if l.Runs? {
      RanBalanced(s, l.i, instr);
    } else if l.TakesConnect? {
      ConnectBalanced(s, instr);
    } else if l.TakesDisconnect? {
      DisconnectBalanced(s, l.names, instr);
    } else {
      LeftAdvance(s, WRITER, [Pick(s.messages.queue[0])], instr);
    }
  }

  lemma HandlerCounts(c: Conn, instr: Instr)
    requires Caused(instr)
    ensures Count(Handler(c), instr) ==
            if instr == Change(Add(c)) || instr == Change(Enter(c)) || instr == Spawn(c) || instr == Answer(c)
            then 1 else 0
  {
    var sections, rest := [Change(Add(c)), Change(Enter(c))], [Spawn(c), Answer(c)];
    assert Handler(c) == sections + rest;
    CountAppend(sections, rest, instr);
    assert sections[1..] == [Change(Enter(c))] && rest[1..] == [Answer(c)];
  }

  // ---- without bindings nothing is given up ----

  predicate PanicAt(keying: Keying, history: seq<Op>, i: nat)
    requires i < |history|
  {
    Panics(Replay(keying, history[..i]), history[i])
  }

  /** Some section of the history went out of range. */
  ghost predicate Panicked(keying: Keying, history: seq<Op>) {
    exists i: nat :: i < |history| && PanicAt(keying, history, i)
  }

  lemma StillPanicked(keying: Keying, history: seq<Op>, op: Op)
    ensures Panicked(keying, history + [op]) <==> Panicked(keying, history) || Panics(Replay(keying, history), op)
  {
    var more := history + [op];
    assert more[..|history|] == history;
    assert forall i: nat :: i < |history| ==> more[..i] == history[..i];
    if Panicked(keying, history) {
      var i: nat :| i < |history| && PanicAt(keying, history, i);
      assert PanicAt(keying, more, i);
    } else if Panics(Replay(keying, history), op) {
      assert PanicAt(keying, more, |history|);
    } else if Panicked(keying, more) {
      var i: nat :| i < |more| && PanicAt(keying, more, i);
      assert i < |history| && PanicAt(keying, history, i);
    }
  }

  /** Steps are given up only after a panic. */
  ghost predicate SkipsOk(s: State) {
    !Panicked(s.keying, s.history) ==> s.log.skipped == []
  }

  lemma NextSkips(s: State, l: Label)
    requires |s.threads| >= 3 && Serial(s) && SkipsOk(s) && Enabled(s, l)
    ensures SkipsOk(Next(s, l))
  {
    if l.Runs? && First(s, l.i).Change? {
      StillPanicked(s.keying, s.history, First(s, l.i).op);
      assert s.log.skipped + [] == s.log.skipped;
    }
  }

  /** No writing section goes out of range while there are no groups. */
  lemma NoPanicWithoutGroups(r: Indexes, op: Op)
    requires r.groups == map[]
    ensures !Panics(r, op)
  {
    if op.Exit? && op.c.systemId in r.systems {
      DeleteWithFewGroups(r.systems[op.c.systemId], op.c.clientId, 0);
    }
  }

  lemma NoPanicWithoutJoins(keying: Keying, history: seq<Op>)
    requires forall i :: 0 <= i < |history| ==> !history[i].JoinGroup?
    ensures !Panicked(keying, history)
  {
    forall i: nat | i < |history| ensures !PanicAt(keying, history, i) {
      NoGroupsWithoutJoins(keying, history[..i]);
      NoPanicWithoutGroups(Replay(keying, history[..i]), history[i]);
    }
  }

  lemma {:induction false} NothingAborted(keying: Keying, history: seq<Op>, c: Conn)
    requires !Panicked(keying, history)
    ensures Aborted(keying, history, c) == 0
  {
    if history != [] {
      var before, last := history[..|history| - 1], history[|history| - 1];
      assert history == before + [last];
      StillPanicked(keying, before, last);
      NothingAborted(keying, before, c);
    }
  }

  // ---- what is true of every connection accepted is true of every one mentioned ----

  ghost predicate OpFine(p: Conn -> bool, op: Op) {
    !op.JoinGroup? ==> p(op.c)
  }

  ghost predicate InstrFine(p: Conn -> bool, instr: Instr) {
    match instr
    case Change(op) => OpFine(p, op)
    case Push(c) => p(c)
    case Announce(c) => p(c)
    case Spawn(c) => p(c)
    case Answer(c) => p(c)
    case Read(c) => p(c)
    case Write(t) => p(t.c)
    case _ => true
  }

  ghost predicate OpsFine(p: Conn -> bool, ops: seq<Instr>) {
    forall j :: 0 <= j < |ops| ==> InstrFine(p, ops[j])
  }

  ghost predicate ThreadsFine(p: Conn -> bool, threads: seq<Thread>) {
    forall i :: 0 <= i < |threads| ==> OpsFine(p, threads[i].ops)
  }

  ghost predicate LogsFine(p: Conn -> bool, s: State) {
    && (forall k :: 0 <= k < |s.history| ==> OpFine(p, s.history[k]))
    && (forall k :: 0 <= k < |s.connect.queue| ==> p(s.connect.queue[k]))
    && (forall k :: 0 <= k < |s.disconnect.queue| ==> p(s.disconnect.queue[k].c))
    && (forall id, addr :: HasSession(s.reg, id, addr) ==> p(s.reg.clients[id][addr]))
  }

  /** Every connection in the registry, a channel, a thread or the history has property `p`. */
  ghost predicate EveryConn(p: Conn -> bool, s: State) {
    ThreadsFine(p, s.threads) && LogsFine(p, s)
  }

  lemma FineAppend(p: Conn -> bool, front: seq<Instr>, rest: seq<Instr>)
    requires OpsFine(p, front) && OpsFine(p, rest)
    ensures OpsFine(p, front + rest)
  {
  }

  lemma AdvanceFine(p: Conn -> bool, s: State, i: nat, ops: seq<Instr>)
    requires ThreadsFine(p, s.threads) && i < |s.threads| && OpsFine(p, ops)
    ensures ThreadsFine(p, Advance(s, i, ops).threads)
  {
  }

  lemma LaunchFine(p: Conn -> bool, s: State, ops: seq<Instr>)
    requires ops != [] && ThreadsFine(p, s.threads) && OpsFine(p, ops)
    ensures ThreadsFine(p, Launch(s, ops).threads)
  {
  }

  lemma ApplyFine(p: Conn -> bool, keying: Keying, r: Indexes, op: Op)
    requires OpFine(p, op)
    requires forall id, addr :: HasSession(r, id, addr) ==> p(r.clients[id][addr])
    ensures var r' := Apply(keying, r, op);
            forall id, addr :: HasSession(r', id, addr) ==> p(r'.clients[id][addr])
  {
  }

  lemma ChangedFine(p: Conn -> bool, s: State, i: nat)
    requires EveryConn(p, s) && Ready(s, i) && First(s, i).Change?
    ensures EveryConn(p, Ran(s, i))
  {
    assert OpsFine(p, s.threads[i].ops);
    var op := First(s, i).op;
    assert InstrFine(p, First(s, i));
    ApplyFine(p, s.keying, s.reg, op);
    AdvanceFine(p, s, i, if Panics(s.reg, op) then [Size] else Rest(s, i));
  }

  lemma RanFine(p: Conn -> bool, s: State, i: nat)
    requires EveryConn(p, s) && Ready(s, i) && CanRun(s, i) && !First(s, i).Change?
    ensures EveryConn(p, Ran(s, i))
  {
    var rest := Rest(s, i);
    assert OpsFine(p, s.threads[i].ops);
    assert InstrFine(p, First(s, i));
    match First(s, i)
    case Find(clientId, systemId, addr) =>
      var conns := Sessions(s.reg, clientId);
      assert addr in conns ==> HasSession(s.reg, clientId, addr);
      FineAppend(p, CloseFound(conns, systemId, addr), rest);
      AdvanceFine(p, s, i, CloseFound(conns, systemId, addr) + rest);
    case Spawn(c) =>
      AdvanceFine(p, s, i, rest);
      LaunchFine(p, Advance(s, i, rest), [Read(c)]);
    case _ => AdvanceFine(p, s, i, rest);
  }

  lemma WritesFine(p: Conn -> bool, r: Indexes, id: string, order: seq<Target>)
    requires Ordering(order, Sessions(r, id))
    requires forall addr :: HasSession(r, id, addr) ==> p(r.clients[id][addr])
    ensures OpsFine(p, Writes(order))
  {
  }

  lemma UnfoldFine(p: Conn -> bool, s: State, l: Label)
    requires EveryConn(p, s) && Unfolds(l) && Enabled(s, l)
    ensures EveryConn(p, Next(s, l))
  {
    assert OpsFine(p, s.threads[l.i].ops);
    assert InstrFine(p, First(s, l.i));
    if l.Picks? {
      WritesFine(p, s.reg, First(s, l.i).message.clientId, l.order);
    } else if l.Pings? {
      SessionWasAdded(s.keying, s.history[..l.at], l.c.clientId, l.c.addr);
      var k :| 0 <= k < |s.history| && s.history[k] == Add(l.c);
      assert OpFine(p, s.history[k]);
    }
    FineAppend(p, Front(s, l), Rest(s, l.i));
    UnfoldStep(s, l);
    AdvanceFine(p, s, l.i, Front(s, l) + Rest(s, l.i));
  }

  lemma TakesFine(p: Conn -> bool, s: State, l: Label)
    requires |s.threads| >= 3 && EveryConn(p, s) && Enabled(s, l)
    requires l.TakesConnect? || l.TakesDisconnect? || l.TakesMessage?
    ensures EveryConn(p, Next(s, l))
  {
  }

  lemma InputFine(p: Conn -> bool, s: State, l: Label)
    requires |s.threads| >= 3 && EveryConn(p, s) && Enabled(s, l) && IsInput(l) && !Unfolds(l)
    requires l.Arrives? ==> p(l.c)
    ensures EveryConn(p, Next(s, l))
  {
  }

  lemma NextEveryConn(p: Conn -> bool, s: State, l: Label)
    requires |s.threads| >= 3 && EveryConn(p, s) && Enabled(s, l)
    requires l.Arrives? ==> p(l.c)
    ensures EveryConn(p, Next(s, l))
  {
    if Unfolds(l) {
      UnfoldFine(p, s, l);
    } else if IsInput(l) {
      InputFine(p, s, l);
    } else if l.Enters? {
      assert OpsFine(p, s.threads[l.i].ops);
    } else if !l.Runs? {
      TakesFine(p, s, l);
    } else if First(s, l.i).Change? {
      ChangedFine(p, s, l.i);
    } else {
      RanFine(p, s, l.i);
    }
  }
}
