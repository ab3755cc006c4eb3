/** The order in which a handler does things (servers/connect.go:76-89). */
module Handlers {
  import opened Lists
  import opened Registry
  import opened History
  import opened Server
  import opened Safety
  import opened Delivery
  import opened Events
  import opened Disconnects

  /** No step that only handlers take; the event loop also adds. */
  predicate Unhandled(ops: seq<Instr>) {
    forall j :: 0 <= j < |ops| ==>
      && !(ops[j].Change? && ops[j].op.Enter?)
      && !ops[j].Spawn? && !ops[j].Answer? && !ops[j].Announce?
  }

  predicate AddsNobody(ops: seq<Instr>) {
    forall j :: 0 <= j < |ops| ==> !(ops[j].Change? && ops[j].op.Add?)
  }

  /** What is left of the handler of `c`: an end of its program, or the Connect event to send. */
  predicate OfHandler(ops: seq<Instr>, c: Conn) {
    || ops == [Change(Add(c)), Change(Enter(c)), Spawn(c), Answer(c)]
    || ops == [Change(Enter(c)), Spawn(c), Answer(c)]
    || ops == [Spawn(c), Answer(c)] || ops == [Answer(c)] || ops == [Announce(c)] || ops == []
  }

  predicate HandlerOk(first: Instr, ops: seq<Instr>) {
    if first.Change? && first.op.Add? then OfHandler(ops, first.op.c) else Unhandled(ops) && AddsNobody(ops)
  }

  ghost predicate HandlersOk(s: State) {
    && |s.threads| == 3 + |s.launched|
    && (forall i :: 3 <= i < |s.threads| ==> HandlerOk(s.launched[i - 3], s.threads[i].ops))
  }

  /** The connection that the event loop is about to add was received. */
  ghost predicate LoopOk(s: State) {
    |s.threads| >= 3 && forall j :: 0 <= j < |s.threads[LOOP].ops| ==>
      (s.threads[LOOP].ops[j].Change? && s.threads[LOOP].ops[j].op.Add? ==>
         j == 0 && s.threads[LOOP].ops[j].op.c in s.connect.got)
  }

  lemma HandlersStep(s: State, s': State, i: nat)
    requires HandlersOk(s) && i < |s.threads| == |s'.threads| && s'.launched == s.launched
    requires forall j :: 0 <= j < |s.threads| && j != i ==> s'.threads[j].ops == s.threads[j].ops
    requires i >= 3 ==> HandlerOk(s.launched[i - 3], s'.threads[i].ops)
    ensures HandlersOk(s')
  {
  }

  lemma HandlersLaunch(s: State, s': State, ops: seq<Instr>)
    requires HandlersOk(s) && ops != [] && HandlerOk(ops[0], ops)
    requires s'.threads == s.threads + [Thread(ops, false)] && s'.launched == s.launched + [ops[0]]
    ensures HandlersOk(s')
  {
  }

  lemma RestOfHandler(first: Instr, ops: seq<Instr>)
    requires HandlerOk(first, ops) && ops != []
    ensures HandlerOk(first, ops[1..])
  {
  }

  lemma RanHandlers(s: State, i: nat)
    requires Shaped(s.threads) && HandlersOk(s) && Ready(s, i) && CanRun(s, i)
    ensures HandlersOk(Ran(s, i))
  {
    if i >= 3 {
      RestOfHandler(s.launched[i - 3], s.threads[i].ops);
    }
    if First(s, i).Spawn? {
      var mid := Advance(s, i, Rest(s, i));
      HandlersStep(s, mid, i);
      HandlersLaunch(mid, Ran(s, i), [Read(First(s, i).c)]);
    } else {
      assert ThreadOk(i, s.threads[i]) && Allowed(i, First(s, i));
      HandlersStep(s, Ran(s, i), i);
    }
  }

  lemma UnfoldedHandler(s: State, l: Label)
    requires Shaped(s.threads) && HandlersOk(s) && Unfolds(l) && Enabled(s, l) && l.i >= 3
    ensures HandlerOk(s.launched[l.i - 3], Front(s, l) + Rest(s, l.i))
  {
    assert ThreadOk(l.i, s.threads[l.i]) && Allowed(l.i, First(s, l.i));
    RestOfHandler(s.launched[l.i - 3], s.threads[l.i].ops);
    assert HandlerOk(s.launched[l.i - 3], s.threads[l.i].ops);
  }

  lemma UnfoldHandlers(s: State, l: Label)
    requires Shaped(s.threads) && HandlersOk(s) && Unfolds(l) && Enabled(s, l)
    ensures HandlersOk(Next(s, l))
  {
    if l.i >= 3 {
      UnfoldedHandler(s, l);
    }
    UnfoldStep(s, l);
    var s' := Next(s, l);
    assert s'.threads == s.threads[l.i := Thread(Front(s, l) + Rest(s, l.i), false)];
    HandlersStep(s, s', l.i);
  }

  lemma NextHandlers(s: State, l: Label)
    requires Shaped(s.threads) && HandlersOk(s) && Enabled(s, l)
    ensures HandlersOk(Next(s, l))
  {
    match l
    case Arrives(c) => HandlersLaunch(s, Next(s, l), Handler(c));
    case Requested(m) => HandlersLaunch(s, Next(s, l), [Post(m)]);
    case CloseRequested(id, sys, addr) => HandlersLaunch(s, Next(s, l), [Find(id, sys, addr)]);
    case Binds(key, id) => HandlersLaunch(s, Next(s, l), [Change(JoinGroup(key, id))]);
    case Ticks => HandlersStep(s, Next(s, l), PINGER);
    case Enters(i) => HandlersStep(s, Next(s, l), i);
    case Runs(i) => RanHandlers(s, i);
    case TakesConnect => HandlersStep(s, Next(s, l), LOOP);
    case TakesDisconnect(_) => HandlersStep(s, Next(s, l), LOOP);
    case TakesMessage => HandlersStep(s, Next(s, l), WRITER);
    case _ => UnfoldHandlers(s, l);
  }

  lemma LoopTakes(s: State)
    requires |s.threads| >= 3 && Enabled(s, TakesConnect)
    ensures LoopOk(Next(s, TakesConnect))
  {
    var c := s.connect.queue[0];
    assert (s.connect.got + [c])[|s.connect.got|] == c;
    assert Next(s, TakesConnect).threads[LOOP].ops == [Change(Add(c)), Size];
  }

  lemma LoopDisconnects(s: State, names: seq<string>)
    requires |s.threads| >= 3 && Enabled(s, TakesDisconnect(names))
    ensures LoopOk(Next(s, TakesDisconnect(names)))
  {
  }

  lemma LoopRuns(s: State, l: Label)
    requires Shaped(s.threads) && LoopOk(s) && Enabled(s, l) && StepOf(l, LOOP)
    requires !l.TakesConnect? && !l.TakesDisconnect?
    ensures LoopOk(Next(s, l))
  {
    assert ThreadOk(LOOP, s.threads[LOOP]) && Allowed(LOOP, First(s, LOOP));
    if l.Runs? {
      assert First(s, LOOP).Change? || First(s, LOOP).Size?;
    }
  }

  lemma NextLoop(s: State, l: Label)
    requires Shaped(s.threads) && LoopOk(s) && Enabled(s, l)
    ensures LoopOk(Next(s, l))
  {
    if !StepOf(l, LOOP) {
      OthersLeaveThread(s, l, LOOP);
      GotGrows(s, l);
    } else if l.TakesConnect? {
      LoopTakes(s);
    } else if l.TakesDisconnect? {
      LoopDisconnects(s, l.names);
    } else {
      LoopRuns(s, l);
    }
  }

  lemma GotGrows(s: State, l: Label)
    requires |s.threads| >= 3 && Enabled(s, l)
    ensures forall c :: c in s.connect.got ==> c in Next(s, l).connect.got
  {
  }

  // ---- nobody is answered before the rest is done ----

  /** The later steps are still to come as long as the earlier ones are. */
  ghost predicate InOrder(ops: seq<Instr>, c: Conn) {
    && Count(ops, Change(Enter(c))) <= Count(ops, Spawn(c)) <= Count(ops, Answer(c))
  }

  lemma HandlerCountsLeft(ops: seq<Instr>, d: Conn, c: Conn)
    requires OfHandler(ops, d)
    ensures var left := if c == d then |ops| else 0;
            && Count(ops, Answer(c)) == (if left >= 1 && ops != [Announce(d)] then 1 else 0)
            && Count(ops, Spawn(c)) == (if left >= 2 then 1 else 0)
            && Count(ops, Change(Enter(c))) == (if left >= 3 then 1 else 0)
            && Count(ops, Change(Add(c))) == (if left >= 4 then 1 else 0)
    decreases |ops|
  {
    if |ops| == 1 {
      assert ops[1..] == [];
    } else if |ops| > 1 {
      assert ops[1..] == if |ops| == 2 then [Answer(d)] else if |ops| == 3 then [Spawn(d), Answer(d)]
                         else [Change(Enter(d)), Spawn(d), Answer(d)];
      HandlerCountsLeft(ops[1..], d, c);
    }
  }

  lemma UnhandledCounts(ops: seq<Instr>, c: Conn)
    requires Unhandled(ops)
    ensures InOrder(ops, c) && Count(ops, Change(Enter(c))) == 0
    ensures AddsNobody(ops) ==> Count(ops, Change(Add(c))) == 0
  {
    NoneLeft(ops, Change(Enter(c)));
    NoneLeft(ops, Spawn(c));
    NoneLeft(ops, Answer(c));
    if AddsNobody(ops) {
      NoneLeft(ops, Change(Add(c)));
    }
  }

  lemma ThreadInOrder(s: State, i: nat, c: Conn)
    requires Shaped(s.threads) && HandlersOk(s) && i < |s.threads|
    ensures InOrder(s.threads[i].ops, c)
    ensures i != LOOP ==> Count(s.threads[i].ops, Change(Add(c))) <= Count(s.threads[i].ops, Change(Enter(c)))
  {
    assert ThreadOk(i, s.threads[i]);
    var ops := s.threads[i].ops;
    if i >= 3 && s.launched[i - 3].Change? && s.launched[i - 3].op.Add? {
      HandlerCountsLeft(ops, s.launched[i - 3].op.c, c);
    } else {
      assert forall j :: 0 <= j < |ops| ==> Allowed(i, ops[j]);
      UnhandledCounts(ops, c);
    }
  }

  lemma {:induction false} SumLess(f: Thread -> nat, g: Thread -> nat, threads: seq<Thread>)
    requires forall i :: 0 <= i < |threads| ==> f(threads[i]) <= g(threads[i])
    ensures Sum(f, threads) <= Sum(g, threads)
  {
    if threads != [] {
      SumLess(f, g, threads[1..]);
    }
  }

  lemma LoopAdds(s: State, c: Conn)
    requires LoopOk(s)
    ensures Count(s.threads[LOOP].ops, Change(Add(c))) <= Count(s.connect.got, c)
  {
    var ops := s.threads[LOOP].ops;
    if ops != [] {
      NoneLeft(ops[1..], Change(Add(c)));
      if ops[0] == Change(Add(c)) {
        CountPositive(s.connect.got, c);
      }
    }
  }

  /** What is left to enter is left to spawn, and what is left to spawn to answer; what is left
      to add, other than by a Connect event received, is left to enter. */
  lemma LeftInOrder(s: State, c: Conn)
    requires Shaped(s.threads) && HandlersOk(s) && LoopOk(s)
    ensures Sum(Left(Change(Enter(c))), s.threads) <= Sum(Left(Spawn(c)), s.threads)
    ensures Sum(Left(Spawn(c)), s.threads) <= Sum(Left(Answer(c)), s.threads)
    ensures Sum(Left(Change(Add(c))), s.threads) <= Sum(Left(Change(Enter(c))), s.threads) + Count(s.connect.got, c)
  {
    forall i | 0 <= i < |s.threads| ensures InOrder(s.threads[i].ops, c) {
      ThreadInOrder(s, i, c);
    }
    SumLess(Left(Change(Enter(c))), Left(Spawn(c)), s.threads);
    SumLess(Left(Spawn(c)), Left(Answer(c)), s.threads);
    AddsInOrder(s, c);
  }

  lemma AddsInOrder(s: State, c: Conn)
    requires Shaped(s.threads) && HandlersOk(s) && LoopOk(s)
    ensures Sum(Left(Change(Add(c))), s.threads) <= Sum(Left(Change(Enter(c))), s.threads) + Count(s.connect.got, c)
  {
    var others := s.threads[LOOP := Thread([], false)];
    forall i | 0 <= i < |others|
      ensures Left(Change(Add(c)))(others[i]) <= Left(Change(Enter(c)))(others[i])
    {
      ThreadInOrder(s, i, c);
    }
    SumLess(Left(Change(Add(c))), Left(Change(Enter(c))), others);
    SumUpdate(Left(Change(Add(c))), s.threads, LOOP, Thread([], false));
    SumUpdate(Left(Change(Enter(c))), s.threads, LOOP, Thread([], false));
    LoopAdds(s, c);
  }

  /** Whoever was answered was given a reader before, whoever was given a reader was entered in
      its system before, and whoever was entered was added before. */
  lemma HandledInOrder(s: State, c: Conn)
    requires Shaped(s.threads) && HandlersOk(s) && LoopOk(s)
    requires Balanced(s, Change(Add(c))) && Balanced(s, Change(Enter(c)))
    requires Balanced(s, Spawn(c)) && Balanced(s, Answer(c))
    ensures Count(s.log.answered, c) + Count(s.log.refused, c) <= Count(s.launched, Read(c))
    ensures Count(s.launched, Read(c)) <= Count(s.history, Enter(c)) <= Count(s.history, Add(c))
  {
    LeftInOrder(s, c);
  }
}
