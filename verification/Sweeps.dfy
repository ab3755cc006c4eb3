/** The sweep of the ping timer leaves nobody out who is there all along
    (servers/server.go:295-305). */
module Sweeps {
  import opened Lists
  import opened Registry
  import opened History
  import opened Server
  import opened Safety

  /** Whoever is still to be visited is registered, and there are pings enough to come. */
  ghost predicate SweepFits(s: State) {
    && |s.threads| >= 3
    && |s.marks.unvisited| <= Count(s.threads[PINGER].ops, Ping)
    && (forall c :: c in s.marks.unvisited ==> Registered(s.reg, c))
  }

  lemma EverybodyRegistered(s: State)
    requires Serial(s)
    ensures forall c :: c in Everybody(s.reg) <==> Registered(s.reg, c)
  {
    ReplayConsistent(s.keying, s.history);
    forall c | c in Everybody(s.reg) ensures Registered(s.reg, c) {
      var id, addr :| id in s.reg.clients && addr in s.reg.clients[id] && c == s.reg.clients[id][addr];
      assert Proper(id, s.reg.clients[id]);
    }
  }

  lemma {:induction false} CountPings(rounds: nat, rest: seq<Instr>)
    ensures Count(seq(rounds, _ => Ping) + rest, Ping) == rounds + Count(rest, Ping)
  {
    var ops := seq(rounds, _ => Ping) + rest;
    if rounds == 0 {
      assert ops == rest;
    } else {
      assert ops[1..] == seq(rounds - 1, _ => Ping) + rest;
      CountPings(rounds - 1, rest);
    }
  }

  /** A step that takes nobody in and drops no ping. */
  lemma FitsStill(s: State, s': State)
    requires SweepFits(s) && |s'.threads| >= 3 && s'.marks.unvisited <= s.marks.unvisited
    requires Count(s.threads[PINGER].ops, Ping) <= Count(s'.threads[PINGER].ops, Ping)
    requires forall c :: c in s'.marks.unvisited ==> Registered(s'.reg, c)
    ensures SweepFits(s')
  {
    SubsetSize(s'.marks.unvisited, s.marks.unvisited);
  }

  lemma OthersFit(s: State, l: Label)
    requires Shaped(s.threads) && SweepFits(s) && Enabled(s, l) && !StepOf(l, PINGER)
    ensures SweepFits(Next(s, l))
  {
    assert l.Pings? || l.Sweeps? ==> ThreadOk(l.i, s.threads[l.i]) && Allowed(l.i, First(s, l.i));
    OthersLeaveThread(s, l, PINGER);
    FitsStill(s, Next(s, l));
  }

  lemma SweepBegins(s: State, rounds: nat)
    requires Serial(s) && SweepFits(s) && Enabled(s, Sweeps(PINGER, rounds))
    ensures SweepFits(Next(s, Sweeps(PINGER, rounds)))
  {
    EverybodyRegistered(s);
    CountPings(rounds, Rest(s, PINGER));
  }

  lemma PingFits(s: State, l: Label)
    requires SweepFits(s) && Enabled(s, l) && (l.Pings? || l.PingsNothing?) && l.i == PINGER
    ensures SweepFits(Next(s, l))
  {
    var rest := Rest(s, PINGER);
    if l.Pings? && !l.ok {
      CountAppend([Push(l.c), Size], rest, Ping);
      assert [Push(l.c), Size][1..] == [Size];
      assert Next(s, l).threads[PINGER].ops == [Push(l.c), Size] + rest;
    } else {
      assert [] + rest == rest;
      assert Next(s, l).threads[PINGER].ops == rest;
    }
  }

  lemma PingerFits(s: State, l: Label)
    requires Shaped(s.threads) && SweepFits(s) && Enabled(s, l) && StepOf(l, PINGER)
    requires !l.Sweeps? && !l.Pings? && !l.PingsNothing?
    ensures SweepFits(Next(s, l))
  {
    assert ThreadOk(PINGER, s.threads[PINGER]);
    if !l.Ticks? {
      assert Allowed(PINGER, First(s, PINGER));
      FitsStill(s, Next(s, l));
    }
  }

  lemma NextFits(s: State, l: Label)
    requires Shaped(s.threads) && Serial(s) && SweepFits(s) && Enabled(s, l)
    ensures SweepFits(Next(s, l))
  {
    if !StepOf(l, PINGER) {
      OthersFit(s, l);
    } else if l.Sweeps? {
      SweepBegins(s, l.rounds);
    } else if l.Pings? || l.PingsNothing? {
      PingFits(s, l);
    } else {
      PingerFits(s, l);
    }
  }

  /** While the sweep goes on, somebody or nobody can be pinged next. */
  lemma PingerGoesOn(s: State, i: nat) returns (l: Label)
    requires Shaped(s.threads) && Serial(s) && SweepFits(s) && s.marks.swept <= |s.history|
    requires Ready(s, i) && First(s, i).Ping?
    ensures Enabled(s, l) && !IsInput(l)
  {
    assert ThreadOk(i, s.threads[i]) && Allowed(i, First(s, i));
    assert i == PINGER;
    if |s.marks.unvisited| <= Count(Rest(s, i), Ping) {
      l := PingsNothing(i);
    } else {
      assert Count(s.threads[i].ops, Ping) == 1 + Count(Rest(s, i), Ping);
      var c :| c in s.marks.unvisited;
      assert s.history[..|s.history|] == s.history;
      l := Pings(i, c, |s.history|, true);
    }
  }
}
