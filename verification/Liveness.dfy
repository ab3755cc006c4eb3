/** The server never deadlocks, and comes to rest when nothing arrives any more. */
module Liveness {
  import opened Lists
  import opened Registry
  import opened History
  import opened Server
  import opened Safety
  import opened Events
  import opened Sweeps

  // ---- at rest ----

  /** Nothing to do, or waiting for the socket. */
  predicate Waiting(t: Thread) {
    t.ops == [] || t.ops[0].Read?
  }

  predicate AtRest(s: State) {
    && (forall i :: 0 <= i < |s.threads| ==> Waiting(s.threads[i]))
    && s.connect.queue == [] && s.disconnect.queue == [] && s.messages.queue == []
  }

  ghost predicate Steps(s: State, l: Label) {
    Enabled(s, l) && !IsInput(l)
  }

  // ---- progress ----

  ghost predicate Sound(s: State) {
    && Shaped(s.threads) && Excluded(s.threads) && Queued(s) && Serial(s)
    && SweepFits(s) && s.marks.swept <= |s.history|
  }

  lemma {:induction false} Listing(conns: map<string, Conn>) returns (order: seq<Target>)
    ensures Ordering(order, conns)
    decreases |conns|
  {
    if conns == map[] {
      order := [];
    } else {
      var addr :| addr in conns;
      var fewer := conns - {addr};
      assert fewer.Keys == conns.Keys - {addr};
      assert |fewer.Keys| == |fewer| && |conns.Keys| == |conns|;
      var rest := Listing(fewer);
      order := [Target(addr, conns[addr])] + rest;
      forall t ensures t in order <==> t.addr in conns && conns[t.addr] == t.c {
        assert t in order <==> t == Target(addr, conns[addr]) || t in rest;
      }
    }
  }

  /** A thread inside a critical section can always finish it. */
  lemma InsideSteps(s: State, i: nat) returns (l: Label)
    requires Sound(s) && i < |s.threads| && s.threads[i].inside
    ensures Steps(s, l)
  {
    assert ThreadOk(i, s.threads[i]);
    match First(s, i)
    case Pick(m) =>
      var order := Listing(Sessions(s.reg, m.clientId));
      l := Picks(i, order);
    case All => l := Sweeps(i, |Everybody(s.reg)|);
    case _ => l := Runs(i);
  }

  ghost predicate Unlocked(s: State) {
    forall i :: 0 <= i < |s.threads| ==> !s.threads[i].inside
  }

  /** With every lock free, any thread can go on that does not wait for a channel. */
  lemma OutsideSteps(s: State, i: nat) returns (l: Label)
    requires Sound(s) && Unlocked(s) && i < |s.threads| && !Waiting(s.threads[i])
    requires First(s, i).Write? ==> s.passes != []
    requires First(s, i).Push? ==> HasRoom(s.disconnect)
    requires First(s, i).Announce? ==> HasRoom(s.connect)
    requires First(s, i).Post? ==> HasRoom(s.messages)
    ensures Steps(s, l)
  {
    if !GuardOf(First(s, i)).Free? {
      l := Enters(i);
      assert forall j :: 0 <= j < |s.threads| ==> Held(s.threads[j]).Free?;
    } else {
      match First(s, i)
      case Write(_) => l := Tries(i, true);
      case Answer(_) => l := Tries(i, true);
      case Ping => l := PingerGoesOn(s, i);
      case _ => l := Runs(i);
    }
  }

  /** The loop never waits for anything but a lock, so it empties its channels. */
  lemma LoopSteps(s: State) returns (l: Label)
    requires Sound(s) && Unlocked(s)
    requires s.connect.queue != [] || s.disconnect.queue != [] || s.threads[LOOP].ops != []
    ensures Steps(s, l)
  {
    if s.threads[LOOP].ops == [] {
      l := if s.connect.queue != [] then TakesConnect else TakesDisconnect([]);
    } else {
      assert ThreadOk(LOOP, s.threads[LOOP]);
      assert Allowed(LOOP, First(s, LOOP));
      l := OutsideSteps(s, LOOP);
    }
  }

  ghost predicate WritesInPass(s: State) {
    forall i :: 0 <= i < |s.threads| && s.threads[i].ops != [] && First(s, i).Write? ==> s.passes != []
  }

  /** The writer waits only for room on the DisConnect channel, which the loop makes. */
  lemma WriterSteps(s: State) returns (l: Label)
    requires Sound(s) && Unlocked(s) && WritesInPass(s)
    requires s.messages.queue != [] || s.threads[WRITER].ops != []
    ensures Steps(s, l)
  {
    if s.threads[WRITER].ops == [] {
      l := TakesMessage;
    } else {
      assert ThreadOk(WRITER, s.threads[WRITER]);
      assert Allowed(WRITER, First(s, WRITER));
      if First(s, WRITER).Push? && !HasRoom(s.disconnect) {
        l := LoopSteps(s);
      } else {
        l := OutsideSteps(s, WRITER);
      }
    }
  }

  lemma ThreadSteps(s: State, i: nat) returns (l: Label)
    requires Sound(s) && Unlocked(s) && WritesInPass(s)
    requires i < |s.threads| && !Waiting(s.threads[i])
    ensures Steps(s, l)
  {
    if (First(s, i).Push? && !HasRoom(s.disconnect)) || (First(s, i).Announce? && !HasRoom(s.connect)) {
      l := LoopSteps(s);
    } else if First(s, i).Post? && !HasRoom(s.messages) {
      l := WriterSteps(s);
    } else {
      l := OutsideSteps(s, i);
    }
  }

  /** Deadlock freedom: unless the server is at rest, some thread can take a step of its
      own, whatever the capacities, the number of threads and their positions. */
  lemma SomeoneSteps(s: State) returns (l: Label)
    requires Sound(s) && WritesInPass(s) && !AtRest(s)
    ensures Steps(s, l)
  {
    if !Unlocked(s) {
      var i: nat :| i < |s.threads| && s.threads[i].inside;
      l := InsideSteps(s, i);
    } else if s.connect.queue != [] || s.disconnect.queue != [] {
      l := LoopSteps(s);
    } else if s.messages.queue != [] {
      l := WriterSteps(s);
    } else {
      var i: nat :| i < |s.threads| && !Waiting(s.threads[i]);
      l := ThreadSteps(s, i);
    }
  }

  // ---- draining ----

  /** Steps that make an unknown number of others: a message in the channel is two away from
      being spread over its sessions, one not sent yet three. */
  function Spreading(instr: Instr): nat {
    match instr
    case Post(_) => 3
    case Pick(_) => 1
    case All => 1
    case _ => 0
  }

  /** Enough for the steps that an instruction takes and those it gives rise to. */
  function Cost(instr: Instr): nat {
    match instr
    case Change(_) => 2
    case Size => 2
    case Pick(_) => 2
    case All => 2
    case Find(_, _, _) => 3
    case Push(_) => 1
    case Announce(_) => 1
    case Post(_) => 1
    case Write(_) => 2
    case Ping => 4
    case Spawn(_) => 1
    case Answer(_) => 2
    case Read(_) => 0
  }

  function Weigh(w: Instr -> nat, ops: seq<Instr>): nat {
    if ops == [] then 0 else w(ops[0]) + Weigh(w, ops[1..])
  }

  lemma {:induction false} WeighAppend(w: Instr -> nat, a: seq<Instr>, b: seq<Instr>)
    ensures Weigh(w, a + b) == Weigh(w, a) + Weigh(w, b)
  {
    if a == [] {
      assert a + b == b;
    } else {
      assert (a + b)[1..] == a[1..] + b;
      WeighAppend(w, a[1..], b);
    }
  }

  lemma {:induction false} WeighZero(w: Instr -> nat, ops: seq<Instr>)
    requires forall j :: 0 <= j < |ops| ==> w(ops[j]) == 0
    ensures Weigh(w, ops) == 0
  {
    if ops != [] {
      WeighZero(w, ops[1..]);
    }
  }

  /** What a thread still has to do; entering a section is one step of it. */
  function Work(t: Thread): nat {
    var n := Weigh(Cost, t.ops);
    if t.inside && n > 0 then n - 1 else n
  }

  function ToSpread(t: Thread): nat {
    Weigh(Spreading, t.ops)
  }

  function SpreadLeft(s: State): nat {
    2 * |s.messages.queue| + Sum(ToSpread, s.threads)
  }

  function WorkLeft(s: State): nat
    requires |s.threads| >= 1
  {
    Sum(Work, s.threads[1..])
  }

  function EventsLeft(s: State): nat {
    |s.connect.queue| + |s.disconnect.queue|
  }

  function LoopLeft(s: State): nat
    requires |s.threads| >= 1
  {
    Work(s.threads[LOOP])
  }

  /** The lexicographic order of what is left: messages and sweeps still to be spread, steps
      of the threads, events in the channels, steps of the loop. */
  ghost predicate Less(s': State, s: State)
    requires |s.threads| >= 1 && |s'.threads| >= 1
  {
    || SpreadLeft(s') < SpreadLeft(s)
    || (SpreadLeft(s') == SpreadLeft(s) && WorkLeft(s') < WorkLeft(s))
    || (SpreadLeft(s') == SpreadLeft(s) && WorkLeft(s') == WorkLeft(s) && EventsLeft(s') < EventsLeft(s))
    || (SpreadLeft(s') == SpreadLeft(s) && WorkLeft(s') == WorkLeft(s) && EventsLeft(s') == EventsLeft(s)
        && LoopLeft(s') < LoopLeft(s))
  }

  lemma {:induction false} WeighFirst(w: Instr -> nat, ops: seq<Instr>)
    requires ops != []
    ensures Weigh(w, ops) == w(ops[0]) + Weigh(w, ops[1..])
  {
  }

  /** A step of thread `i`, not the loop, that leaves less to spread or else less work. */
  lemma ThreadLess(s: State, s': State, i: nat, t: Thread)
    requires 1 <= i < |s.threads| && s'.threads == s.threads[i := t]
    requires
      var before, after := 2 * |s.messages.queue| + ToSpread(s.threads[i]), 2 * |s'.messages.queue| + ToSpread(t);
      after < before || (after == before && Work(t) < Work(s.threads[i]))
    ensures Less(s', s)
  {
    SumUpdate(ToSpread, s.threads, i, t);
    assert s'.threads[1..] == s.threads[1..][i - 1 := t];
    SumUpdate(Work, s.threads[1..], i - 1, t);
  }

  /** A step of the loop that leaves fewer events or else less of its own work. */
  lemma LoopLess(s: State, s': State, t: Thread)
    requires |s.threads| >= 1 && s'.threads == s.threads[LOOP := t] && s'.messages == s.messages
    requires ToSpread(t) <= ToSpread(s.threads[LOOP])
    requires EventsLeft(s') < EventsLeft(s) || (EventsLeft(s') == EventsLeft(s) && Work(t) < Work(s.threads[LOOP]))
    ensures Less(s', s)
  {
  }

  lemma EntersLess(s: State, i: nat)
    requires CanEnter(s, i)
    ensures Less(Next(s, Enters(i)), s)
  {
    var t := s.threads[i].(inside := true);
    WeighFirst(Cost, s.threads[i].ops);
    if i == LOOP {
      LoopLess(s, Next(s, Enters(i)), t);
    } else {
      ThreadLess(s, Next(s, Enters(i)), i, t);
    }
  }

  lemma SizeCosts(ops: seq<Instr>)
    requires ops != [] && ops[|ops| - 1].Size?
    ensures Weigh(Cost, ops) >= 2
  {
  }

  lemma EventEndsWithSize(ops: seq<Instr>)
    requires OfEvent(ops) && ops != [] && ops[0].Change?
    ensures |ops| >= 2 && ops[1..][|ops| - 2] == Size
  {
    if ops[0].op.Del? {
      LeavingEnds(ops[1..], ops[0].op.c);
    } else if !ops[0].op.Add? {
      LeavingEnds(ops, ops[0].op.c);
    }
  }

  /** A writing section of the loop, also when it panics: the count it then jumps to was
      still ahead. */
  lemma LoopChangeLess(s: State)
    requires Shaped(s.threads) && Ready(s, LOOP) && First(s, LOOP).Change?
    ensures Less(Ran(s, LOOP), s)
  {
    var ops := s.threads[LOOP].ops;
    assert ThreadOk(LOOP, s.threads[LOOP]);
    EventEndsWithSize(ops);
    SizeCosts(ops[1..]);
    WeighFirst(Cost, ops);
    WeighFirst(Spreading, ops);
    assert Weigh(Spreading, [Size]) == 0 && Weigh(Cost, [Size]) == 2;
    LoopLess(s, Ran(s, LOOP), Ran(s, LOOP).threads[LOOP]);
  }

  lemma SpawnLess(s: State, i: nat)
    requires 1 <= i && Ready(s, i) && First(s, i).Spawn?
    ensures Less(Ran(s, i), s)
  {
    var mid := Advance(s, i, Rest(s, i));
    var reader := Thread([Read(First(s, i).c)], false);
    ThreadLess(s, mid, i, Thread(Rest(s, i), false));
    SumAppend(ToSpread, mid.threads, reader);
    assert (mid.threads + [reader])[1..] == mid.threads[1..] + [reader];
    SumAppend(Work, mid.threads[1..], reader);
    assert Weigh(Cost, reader.ops) == Weigh(Spreading, reader.ops) == 0;
  }

  lemma RanLess(s: State, i: nat)
    requires Shaped(s.threads) && Ready(s, i) && CanRun(s, i)
    ensures Less(Ran(s, i), s)
  {
    var t, rest := s.threads[i], Rest(s, i);
    assert ThreadOk(i, t);
    assert Allowed(i, t.ops[0]);
    WeighFirst(Cost, t.ops);
    WeighFirst(Spreading, t.ops);
    if First(s, i).Spawn? {
      SpawnLess(s, i);
    } else if First(s, i).Find? {
      var found := CloseFound(Sessions(s.reg, First(s, i).clientId), First(s, i).systemId, First(s, i).addr);
      WeighAppend(Cost, found, rest);
      WeighAppend(Spreading, found, rest);
      ThreadLess(s, Ran(s, i), i, Thread(found + rest, false));
    } else if i != LOOP {
      ThreadLess(s, Ran(s, i), i, Thread(rest, false));
    } else if First(s, i).Change? {
      LoopChangeLess(s);
    } else {
      LoopLess(s, Ran(s, i), Thread(rest, false));
    }
  }

  lemma FrontLess(s: State, l: Label)
    requires Shaped(s.threads) && Unfolds(l) && !IsInput(l) && Enabled(s, l)
    ensures l.i >= 1
    ensures Weigh(Spreading, Front(s, l)) == 0
    ensures l.Picks? || l.Sweeps? || Weigh(Cost, Front(s, l)) < Cost(First(s, l.i))
  {
    assert ThreadOk(l.i, s.threads[l.i]);
    assert Allowed(l.i, First(s, l.i));
    WeighZero(Spreading, Front(s, l));
    if l.Pings? && !l.ok {
      assert Weigh(Cost, [Push(l.c), Size]) == 1 + Weigh(Cost, [Size]) by {
        assert [Push(l.c), Size][1..] == [Size];
      }
    }
  }

  lemma UnfoldLess(s: State, l: Label)
    requires Shaped(s.threads) && Unfolds(l) && !IsInput(l) && Enabled(s, l)
    ensures Less(Next(s, l), s)
  {
    var front, rest, t := Front(s, l), Rest(s, l.i), s.threads[l.i];
    FrontLess(s, l);
    WeighFirst(Cost, t.ops);
    WeighFirst(Spreading, t.ops);
    WeighAppend(Cost, front, rest);
    WeighAppend(Spreading, front, rest);
    UnfoldStep(s, l);
    ThreadLess(s, Next(s, l), l.i, Thread(front + rest, false));
  }

  lemma TakesLess(s: State, l: Label)
    requires Shaped(s.threads) && Enabled(s, l)
    requires l.TakesConnect? || l.TakesDisconnect? || l.TakesMessage?
    ensures Less(Next(s, l), s)
  {
    match l
    case TakesConnect =>
      WeighZero(Spreading, ConnectEvent(s.connect.queue[0]));
      LoopLess(s, Next(s, l), Next(s, l).threads[LOOP]);
    case TakesDisconnect(names) =>
      WeighZero(Spreading, DisconnectEvent(s.disconnect.queue[0].c, names));
      LoopLess(s, Next(s, l), Next(s, l).threads[LOOP]);
    case TakesMessage =>
      assert Weigh(Spreading, [Pick(s.messages.queue[0])]) == 1;
      ThreadLess(s, Next(s, l), WRITER, Next(s, l).threads[WRITER]);
  }

  /** Every step of the server's own makes what is left smaller. */
  lemma StepLess(s: State, l: Label)
    requires Shaped(s.threads) && Steps(s, l)
    ensures Less(Next(s, l), s)
  {
    match l
    case Enters(i) => EntersLess(s, i);
    case Runs(i) => RanLess(s, i);
    case TakesConnect => TakesLess(s, l);
    case TakesDisconnect(_) => TakesLess(s, l);
    case TakesMessage => TakesLess(s, l);
    case _ => UnfoldLess(s, l);
  }

  // ---- runs without input ----

  /** The run of the server left to itself: own steps until it is at rest. */
  ghost predicate OnItsOwn(run: nat -> State) {
    forall k: nat :: AtRest(run(k)) || OneStep(run(k), run(k + 1))
  }

  ghost predicate OneStep(s: State, s': State) {
    exists l :: Steps(s, l) && s' == Next(s, l)
  }

  lemma DrainsFrom(run: nat -> State, k: nat) returns (rest: nat)
    requires OnItsOwn(run) && Shaped(run(k).threads)
    ensures rest >= k && AtRest(run(rest))
    decreases SpreadLeft(run(k)), WorkLeft(run(k)), EventsLeft(run(k)), LoopLeft(run(k))
  {
    if AtRest(run(k)) {
      rest := k;
    } else {
      assert OneStep(run(k), run(k + 1));
      var l :| Steps(run(k), l) && run(k + 1) == Next(run(k), l);
      StepLess(run(k), l);
      NextShaped(run(k), l);
      rest := DrainsFrom(run, k + 1);
    }
  }
}
