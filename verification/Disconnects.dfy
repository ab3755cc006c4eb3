/** Whom readers, closers and the ping timer disconnect, and whom not. */
module Disconnects {
  import opened Lists
  import opened Registry
  import opened History
  import opened Server
  import opened Safety
  import opened Delivery

  // ---- readers and closers ----

  /** The connection that `CloseLocalClient` is about, if the registry has it. */
  function Named(r: Indexes, clientId: string, systemId: string, addr: string): seq<Conn> {
    if clientId in r.clients && addr in r.clients[clientId] && r.clients[clientId][addr].systemId == systemId
    then [r.clients[clientId][addr]] else []
  }

  /** What thread `i`, which began with `first`, has to disconnect: a reader its connection if
      the socket ended by a close; a closer the session of the id and address it was called
      with if, when it looked, there was one and it was of the system it was called with; any
      other thread nothing. */
  function Due(keying: Keying, history: seq<Op>, marks: Marks, first: Instr, i: nat): seq<Conn> {
    match first
    case Find(clientId, systemId, addr) =>
      if i in marks.looked && marks.looked[i] <= |history| then
        Named(Replay(keying, history[..marks.looked[i]]), clientId, systemId, addr)
      else []
    case Read(c) => if i in marks.ended && marks.ended[i] then [c] else []
    case _ => []
  }

  predicate Quiet(ops: seq<Instr>) {
    forall j :: 0 <= j < |ops| ==> !ops[j].Push? && !ops[j].Find? && !ops[j].Read?
  }

  /** The reader's loop is over, or the closer has looked. */
  predicate Began(marks: Marks, first: Instr, i: nat) {
    if first.Find? then i in marks.looked else i in marks.ended
  }

  /** Thread `i` has sent what it has to, or is just about to. */
  ghost predicate Fulfils(s: State, i: nat)
    requires 3 <= i < |s.threads| == 3 + |s.launched|
  {
    var first, ops, sent := s.launched[i - 3], s.threads[i].ops, From(s.disconnect.put, i);
    if !first.Find? && !first.Read? then sent == [] && Quiet(ops)
    else if !Began(s.marks, first, i) then sent == [] && ops == [first]
    else
      && (first.Find? ==> s.marks.looked[i] <= |s.history|)
      && (ops == [] || (|ops| == 1 && ops[0].Push?))
      && sent + Owed(ops) == Due(s.keying, s.history, s.marks, first, i)
  }

  ghost predicate AllFulfil(s: State) {
    && |s.threads| == 3 + |s.launched|
    && (forall i :: 3 <= i < |s.threads| ==> Fulfils(s, i))
    && (forall k :: 0 <= k < |s.disconnect.put| ==> s.disconnect.put[k].sender < |s.threads|)
    && (forall i :: i in s.marks.looked || i in s.marks.ended ==> i < |s.threads|)
  }

  lemma {:induction false} FromNobody(put: seq<Gone>, sender: nat)
    requires forall k :: 0 <= k < |put| ==> put[k].sender != sender
    ensures From(put, sender) == []
  {
    if put != [] {
      FromNobody(put[..|put| - 1], sender);
    }
  }

  /** Nothing that thread `j` has to send or has sent is touched. */
  ghost predicate Untroubled(s: State, s': State, j: nat)
    requires j < |s.threads| && j < |s'.threads|
  {
    && s'.threads[j].ops == s.threads[j].ops
    && From(s'.disconnect.put, j) == From(s.disconnect.put, j)
    && (j in s'.marks.looked <==> j in s.marks.looked) && (j in s'.marks.ended <==> j in s.marks.ended)
    && (j in s.marks.looked ==> s'.marks.looked[j] == s.marks.looked[j])
    && (j in s.marks.ended ==> s'.marks.ended[j] == s.marks.ended[j])
  }

  lemma StillFulfils(s: State, s': State, j: nat)
    requires 3 <= j < |s.threads| == 3 + |s.launched| && Fulfils(s, j)
    requires |s.threads| <= |s'.threads| == 3 + |s'.launched| && s.launched <= s'.launched
    requires s'.keying == s.keying && s.history <= s'.history && Untroubled(s, s', j)
    ensures Fulfils(s', j)
  {
    if s.launched[j - 3].Find? && j in s.marks.looked {
      assert s'.history[..s.marks.looked[j]] == s.history[..s.marks.looked[j]];
    }
  }

  /** A step of thread `i`. */
  lemma FulfilStep(s: State, s': State, i: nat)
    requires AllFulfil(s) && i < |s.threads| == |s'.threads| && s'.launched == s.launched
    requires s'.keying == s.keying && s.history <= s'.history
    requires forall j :: 0 <= j < |s.threads| && j != i ==> Untroubled(s, s', j)
    requires forall k :: 0 <= k < |s'.disconnect.put| ==> s'.disconnect.put[k].sender < |s.threads|
    requires forall j :: j in s'.marks.looked || j in s'.marks.ended ==> j < |s.threads|
    requires i >= 3 ==> Fulfils(s', i)
    ensures AllFulfil(s')
  {
    forall j | 3 <= j < |s'.threads| ensures Fulfils(s', j) {
      if j != i {
        StillFulfils(s, s', j);
      }
    }
  }

  /** A new thread. */
  lemma FulfilLaunch(s: State, s': State, ops: seq<Instr>)
    requires AllFulfil(s) && ops != [] && (Quiet(ops) || (|ops| == 1 && (ops[0].Find? || ops[0].Read?)))
    requires s'.threads == s.threads + [Thread(ops, false)] && s'.launched == s.launched + [ops[0]]
    requires s'.keying == s.keying && s'.history == s.history && s'.marks == s.marks && s'.disconnect == s.disconnect
    ensures AllFulfil(s')
  {
    var n := |s.threads|;
    FromNobody(s.disconnect.put, n);
    forall j | 3 <= j < |s'.threads| ensures Fulfils(s', j) {
      if j < n {
        StillFulfils(s, s', j);
      }
    }
  }

  lemma PushFulfils(s: State, i: nat)
    requires AllFulfil(s) && Ready(s, i) && CanRun(s, i) && First(s, i).Push?
    ensures AllFulfil(Ran(s, i))
  {
    var s' := Ran(s, i);
    forall j | 0 <= j < |s.threads| ensures From(s'.disconnect.put, j) ==
      From(s.disconnect.put, j) + if j == i then [First(s, i).c] else []
    {
      FromPut(s.disconnect.put, Gone(First(s, i).c, i), j);
    }
    if i >= 3 {
      assert Fulfils(s, i);
    }
    FulfilStep(s, s', i);
  }

  lemma FindFulfils(s: State, i: nat)
    requires Shaped(s.threads) && Serial(s) && AllFulfil(s) && Ready(s, i) && First(s, i).Find?
    ensures AllFulfil(Ran(s, i))
  {
    var s' := Ran(s, i);
    assert ThreadOk(i, s.threads[i]) && Allowed(i, First(s, i)) && Fulfils(s, i);
    assert s.history[..|s.history|] == s.history;
    FulfilStep(s, s', i);
  }

  lemma SpawnFulfils(s: State, i: nat)
    requires Shaped(s.threads) && AllFulfil(s) && Ready(s, i) && First(s, i).Spawn?
    ensures AllFulfil(Ran(s, i))
  {
    var mid := Advance(s, i, Rest(s, i));
    assert ThreadOk(i, s.threads[i]) && Allowed(i, First(s, i)) && Fulfils(s, i);
    FulfilStep(s, mid, i);
    FulfilLaunch(mid, Ran(s, i), [Read(First(s, i).c)]);
  }

  lemma OtherRunFulfils(s: State, i: nat)
    requires AllFulfil(s) && Ready(s, i) && CanRun(s, i)
    requires First(s, i).Change? || First(s, i).Size? || First(s, i).Announce? || First(s, i).Post?
    ensures AllFulfil(Ran(s, i))
  {
    if i >= 3 {
      assert Fulfils(s, i);
    }
    FulfilStep(s, Ran(s, i), i);
  }

  lemma RanFulfils(s: State, i: nat)
    requires Shaped(s.threads) && Serial(s) && AllFulfil(s) && Ready(s, i) && CanRun(s, i)
    ensures AllFulfil(Ran(s, i))
  {
    if First(s, i).Push? {
      PushFulfils(s, i);
    } else if First(s, i).Find? {
      FindFulfils(s, i);
    } else if First(s, i).Spawn? {
      SpawnFulfils(s, i);
    } else {
      OtherRunFulfils(s, i);
    }
  }

  lemma EndFulfils(s: State, i: nat, closed: bool)
    requires Shaped(s.threads) && AllFulfil(s) && Enabled(s, SocketEnds(i, closed))
    ensures AllFulfil(Next(s, SocketEnds(i, closed)))
  {
    assert ThreadOk(i, s.threads[i]) && Allowed(i, First(s, i)) && Fulfils(s, i);
    FulfilStep(s, Next(s, SocketEnds(i, closed)), i);
  }

  lemma UnfoldFulfils(s: State, l: Label)
    requires Shaped(s.threads) && AllFulfil(s) && Unfolds(l) && !l.SocketEnds? && Enabled(s, l)
    ensures AllFulfil(Next(s, l))
  {
    assert ThreadOk(l.i, s.threads[l.i]) && Allowed(l.i, First(s, l.i));
    if l.i >= 3 {
      AnswerFulfils(s, l);
    } else {
      OwnUnfoldFulfils(s, l);
    }
  }

  lemma OwnUnfoldFulfils(s: State, l: Label)
    requires AllFulfil(s) && Unfolds(l) && !l.SocketEnds? && Enabled(s, l) && l.i < 3 <= |s.threads|
    ensures AllFulfil(Next(s, l))
  {
    var s' := Next(s, l);
    UnfoldStep(s, l);
    assert s'.marks.looked == s.marks.looked && s'.marks.ended == s.marks.ended && s'.disconnect == s.disconnect;
    assert s'.threads == s.threads[l.i := s'.threads[l.i]] && s'.launched == s.launched;
    FulfilStep(s, s', l.i);
  }

  lemma AnsweredFulfils(s: State, s': State, i: nat)
    requires 3 <= i < |s.threads| == |s'.threads| && Ready(s, i) && First(s, i).Answer?
    requires |s.launched| == |s.threads| - 3 && s'.launched == s.launched
    requires s'.disconnect == s.disconnect && Fulfils(s, i)
    requires s'.threads[i].ops == Rest(s, i) || exists c :: s'.threads[i].ops == [Announce(c)] + Rest(s, i)
    ensures Fulfils(s', i)
  {
  }

  lemma AnswerFulfils(s: State, l: Label)
    requires AllFulfil(s) && l.Tries? && Enabled(s, l) && l.i >= 3 && First(s, l.i).Answer?
    ensures AllFulfil(Next(s, l))
  {
    var c, s' := First(s, l.i).c, Tried(s, l.i, l.ok);
    assert s' == Advance(s, l.i, (if l.ok then [Announce(c)] else []) + Rest(s, l.i)).(log := s'.log);
    AnsweredFulfils(s, s', l.i);
    FulfilStep(s, s', l.i);
  }

  lemma InputFulfils(s: State, l: Label)
    requires |s.threads| >= 3 && AllFulfil(s) && Enabled(s, l) && IsInput(l) && !Unfolds(l)
    ensures AllFulfil(Next(s, l))
  {
    match l
    case Arrives(c) => FulfilLaunch(s, Next(s, l), Handler(c));
    case Requested(m) => FulfilLaunch(s, Next(s, l), [Post(m)]);
    case CloseRequested(clientId, systemId, addr) => FulfilLaunch(s, Next(s, l), [Find(clientId, systemId, addr)]);
    case Binds(key, id) => FulfilLaunch(s, Next(s, l), [Change(JoinGroup(key, id))]);
    case Ticks => FulfilStep(s, Next(s, l), PINGER);
  }

  /** In every interleaving, each reader and closer has sent what it has to, nothing else, and
      nothing twice, or is just about to. */
  lemma NextFulfil(s: State, l: Label)
    requires Shaped(s.threads) && Serial(s) && AllFulfil(s) && Enabled(s, l)
    ensures AllFulfil(Next(s, l))
  {
    if l.SocketEnds? {
      EndFulfils(s, l.i, l.closed);
    } else if Unfolds(l) {
      UnfoldFulfils(s, l);
    } else if IsInput(l) {
      InputFulfils(s, l);
    } else if l.Runs? {
      RanFulfils(s, l.i);
    } else if l.Enters? {
      assert l.i >= 3 ==> Fulfils(s, l.i);
      FulfilStep(s, Next(s, l), l.i);
    } else if l.TakesMessage? {
      FulfilStep(s, Next(s, l), WRITER);
    } else {
      FulfilStep(s, Next(s, l), LOOP);
    }
  }

  // ---- the ping timer ----

  function UnreachedConns(unreached: seq<Unreached>): seq<Conn> {
    seq(|unreached|, i requires 0 <= i < |unreached| => unreached[i].c)
  }

  /** The connection was a session of the registry when the sweep took its copy, or at some
      moment since. */
  ghost predicate InSweep(keying: Keying, history: seq<Op>, u: Unreached) {
    u.swept <= u.at <= |history| && Registered(Replay(keying, history[..u.at]), u.c)
  }

  ghost predicate SweepsOk(keying: Keying, history: seq<Op>, marks: Marks) {
    && marks.swept <= |history|
    && (forall k :: 0 <= k < |marks.unreached| ==> InSweep(keying, history, marks.unreached[k]))
    && (forall j, k :: 0 <= j < k < |marks.unreached| ==> marks.unreached[j].swept <= marks.unreached[k].swept)
    && (forall k :: 0 <= k < |marks.unreached| ==> marks.unreached[k].swept <= marks.swept)
  }

  lemma SweepsStay(keying: Keying, history: seq<Op>, marks: Marks, op: Op)
    requires SweepsOk(keying, history, marks)
    ensures SweepsOk(keying, history + [op], marks)
  {
    forall k | 0 <= k < |marks.unreached| ensures InSweep(keying, history + [op], marks.unreached[k]) {
      assert InSweep(keying, history, marks.unreached[k]);
      assert (history + [op])[..marks.unreached[k].at] == history[..marks.unreached[k].at];
    }
  }

  lemma NextSweeps(s: State, l: Label)
    requires |s.threads| >= 3 && SweepsOk(s.keying, s.history, s.marks) && Enabled(s, l)
    ensures SweepsOk(s.keying, Next(s, l).history, Next(s, l).marks)
  {
    if l.Runs? && First(s, l.i).Change? {
      SweepsStay(s.keying, s.history, s.marks, First(s, l.i).op);
    }
  }

  /** The pinger has sent one disconnect for each ping that failed, in their order, the last
      one possibly still to come. */
  ghost predicate PingerOk(ops: seq<Instr>, sent: seq<Conn>, unreached: seq<Unreached>) {
    (forall j :: 1 <= j < |ops| ==> !ops[j].Push?) && sent + Owed(ops) == UnreachedConns(unreached)
  }

  ghost predicate PingsOk(s: State) {
    && |s.threads| >= 3
    && PingerOk(s.threads[PINGER].ops, From(s.disconnect.put, PINGER), s.marks.unreached)
  }

  lemma OthersLeavePinger(s: State, l: Label)
    requires Shaped(s.threads) && Enabled(s, l) && !StepOf(l, PINGER)
    ensures |Next(s, l).threads| >= 3 && Next(s, l).threads[PINGER] == s.threads[PINGER]
    ensures Next(s, l).marks.unreached == s.marks.unreached
    ensures From(Next(s, l).disconnect.put, PINGER) == From(s.disconnect.put, PINGER)
  {
    assert l.Pings? ==> ThreadOk(l.i, s.threads[l.i]) && Allowed(l.i, First(s, l.i));
    if l.Runs? && First(s, l.i).Push? {
      FromPut(s.disconnect.put, Gone(First(s, l.i).c, l.i), PINGER);
    }
  }

  lemma PingerRuns(s: State)
    requires Shaped(s.threads) && PingsOk(s) && Enabled(s, Runs(PINGER))
    ensures PingsOk(Ran(s, PINGER))
  {
    assert ThreadOk(PINGER, s.threads[PINGER]) && Allowed(PINGER, First(s, PINGER));
    if First(s, PINGER).Push? {
      PingerSends(s);
    }
  }

  lemma PingerSends(s: State)
    requires PingsOk(s) && Ready(s, PINGER) && First(s, PINGER).Push? && HasRoom(s.disconnect)
    ensures PingsOk(Ran(s, PINGER))
  {
    FromPut(s.disconnect.put, Gone(First(s, PINGER).c, PINGER), PINGER);
  }

  lemma PingerPings(s: State, l: Label)
    requires PingsOk(s) && Enabled(s, l) && l.Pings? && l.i == PINGER
    ensures PingsOk(Next(s, l))
  {
    var s', ops, rest := Next(s, l), s.threads[PINGER].ops, Rest(s, PINGER);
    var more, front := if l.ok then [] else [Unreached(l.c, s.marks.swept, l.at)],
                       if l.ok then [] else [Push(l.c), Size];
    assert s'.threads[PINGER].ops == front + rest && s'.disconnect == s.disconnect;
    assert s'.marks.unreached == s.marks.unreached + more;
    UnreachedMore(s.marks.unreached, more);
    PingerFront(ops, From(s.disconnect.put, PINGER), s.marks.unreached, more, front);
  }

  lemma UnreachedMore(unreached: seq<Unreached>, more: seq<Unreached>)
    ensures UnreachedConns(unreached + more) == UnreachedConns(unreached) + UnreachedConns(more)
  {
  }

  lemma PingerFront(ops: seq<Instr>, sent: seq<Conn>, unreached: seq<Unreached>, more: seq<Unreached>,
                    front: seq<Instr>)
    requires PingerOk(ops, sent, unreached) && ops != [] && ops[0].Ping?
    requires (more == [] && front == []) || (|more| == 1 && front == [Push(more[0].c), Size])
    requires UnreachedConns(unreached + more) == UnreachedConns(unreached) + UnreachedConns(more)
    ensures PingerOk(front + ops[1..], sent, unreached + more)
  {
    assert more == [] ==> front + ops[1..] == ops[1..];
  }

  lemma PingerSweeps(s: State, l: Label)
    requires PingsOk(s) && Enabled(s, l) && l.Sweeps? && l.i == PINGER
    ensures PingsOk(Next(s, l))
  {
  }

  lemma NextPings(s: State, l: Label)
    requires Shaped(s.threads) && PingsOk(s) && Enabled(s, l)
    ensures PingsOk(Next(s, l))
  {
    if !StepOf(l, PINGER) {
      OthersLeavePinger(s, l);
    } else if l.Runs? {
      PingerRuns(s);
    } else if l.Pings? {
      PingerPings(s, l);
    } else if l.Sweeps? {
      PingerSweeps(s, l);
    } else if !l.Ticks? && !l.Enters? {
      var ops := s.threads[PINGER].ops;
      assert ThreadOk(PINGER, s.threads[PINGER]) && Allowed(PINGER, ops[0]);
    }
  }
}
