/** Whom the sweeps of the ping timer visit (servers/server.go:295-305), in terms of the labels
    of a run. */
module Visits {
  import opened Lists
  import opened Registry
  import opened History
  import opened Server
  import opened Safety
  import opened Sweeps
  import opened Reachable

  // ---- the registry at earlier steps ----

  lemma HistoryStep(s: State, l: Label)
    requires |s.threads| >= 3 && Enabled(s, l)
    ensures s.history <= Next(s, l).history && |Next(s, l).history| <= |s.history| + 1
  {
  }

  lemma LastHistory(s: State, labels: seq<Label>)
    requires Initial(s) && Possible(s, labels) && labels != []
    ensures Possible(s, labels[..|labels| - 1])
    ensures var h, h' := After(s, labels[..|labels| - 1]).history, After(s, labels).history;
            h <= h' && |h'| <= |h| + 1
  {
    LastStep(s, labels);
    ReachedShape(s, labels[..|labels| - 1]);
    HistoryStep(After(s, labels[..|labels| - 1]), labels[|labels| - 1]);
  }

  /** The run passed through a state with each length of the history. */
  lemma {:induction false} HistoryAt(s: State, labels: seq<Label>, n: nat) returns (k: nat)
    requires Initial(s) && Possible(s, labels) && n <= |After(s, labels).history|
    ensures k <= |labels| && Possible(s, labels[..k])
    ensures After(s, labels[..k]).history == After(s, labels).history[..n]
  {
    if n == |After(s, labels).history| {
      k := |labels|;
      assert labels[..k] == labels;
    } else {
      assert labels != [];
      var front := labels[..|labels| - 1];
      LastHistory(s, labels);
      k := HistoryAt(s, front, n);
      assert front[..k] == labels[..k];
    }
  }

  lemma {:induction false} HistoryGrows(s: State, labels: seq<Label>, k: nat)
    requires Initial(s) && Possible(s, labels) && k <= |labels|
    ensures Possible(s, labels[..k]) && After(s, labels[..k]).history <= After(s, labels).history
    decreases |labels|
  {
    if k == |labels| {
      assert labels[..k] == labels;
    } else {
      LastHistory(s, labels);
      HistoryGrows(s, labels[..|labels| - 1], k);
      assert labels[..|labels| - 1][..k] == labels[..k];
    }
  }

  // ---- one sweep for each tick ----

  function SweepCount(labels: seq<Label>): nat {
    if labels == [] then 0
    else SweepCount(labels[..|labels| - 1]) + if labels[|labels| - 1].Sweeps? then 1 else 0
  }

  lemma {:induction false} NoSweepInPings(rounds: nat, rest: seq<Instr>)
    ensures Count(seq(rounds, _ => Ping) + rest, All) == Count(rest, All)
  {
    var ops := seq(rounds, _ => Ping) + rest;
    if rounds == 0 {
      assert ops == rest;
    } else {
      assert ops[1..] == seq(rounds - 1, _ => Ping) + rest;
      NoSweepInPings(rounds - 1, rest);
    }
  }

  lemma PingerTick(s: State, l: Label)
    requires Shaped(s.threads) && Enabled(s, l) && StepOf(l, PINGER)
    ensures |Next(s, l).threads| >= 3
    ensures Count(Next(s, l).threads[PINGER].ops, All) + (if l.Sweeps? then 1 else 0) ==
            Count(s.threads[PINGER].ops, All) + if l == Ticks then 1 else 0
  {
    if !l.Ticks? {
      assert ThreadOk(PINGER, s.threads[PINGER]) && Allowed(PINGER, First(s, PINGER));
      if l.Sweeps? {
        NoSweepInPings(l.rounds, Rest(s, PINGER));
      } else if l.Pings? || l.PingsNothing? {
        PingAfter(s, l);
      }
    }
  }

  lemma PingAfter(s: State, l: Label)
    requires |s.threads| >= 3 && Enabled(s, l) && (l.Pings? || l.PingsNothing?) && l.i == PINGER
    ensures Count(Next(s, l).threads[PINGER].ops, All) == Count(Rest(s, PINGER), All)
  {
    var rest := Rest(s, PINGER);
    if l.Pings? && !l.ok {
      CountAppend([Push(l.c), Size], rest, All);
      assert [Push(l.c), Size][1..] == [Size];
      assert Next(s, l).threads[PINGER].ops == [Push(l.c), Size] + rest;
    } else {
      assert [] + rest == rest && Next(s, l).threads[PINGER].ops == rest;
    }
  }

  lemma TickStep(s: State, l: Label)
    requires Shaped(s.threads) && Enabled(s, l)
    ensures |Next(s, l).threads| >= 3
    ensures Count(Next(s, l).threads[PINGER].ops, All) + (if l.Sweeps? then 1 else 0) ==
            Count(s.threads[PINGER].ops, All) + if l == Ticks then 1 else 0
  {
    if StepOf(l, PINGER) {
      PingerTick(s, l);
    } else {
      OthersLeaveThread(s, l, PINGER);
      assert l.Sweeps? ==> ThreadOk(l.i, s.threads[l.i]) && Allowed(l.i, First(s, l.i));
    }
  }

  lemma LastTick(s: State, labels: seq<Label>)
    requires Initial(s) && Possible(s, labels) && labels != []
    ensures Possible(s, labels[..|labels| - 1])
    ensures var t, t', l := After(s, labels[..|labels| - 1]), After(s, labels), labels[|labels| - 1];
            && |t.threads| >= 3 && |t'.threads| >= 3
            && Count(t'.threads[PINGER].ops, All) + (if l.Sweeps? then 1 else 0) ==
               Count(t.threads[PINGER].ops, All) + (if l == Ticks then 1 else 0)
            && (l == Ticks ==> t.threads[PINGER].ops == [])
  {
    LastStep(s, labels);
    ReachedShape(s, labels[..|labels| - 1]);
    TickStep(After(s, labels[..|labels| - 1]), labels[|labels| - 1]);
  }

  /** Each tick begins one sweep, or is just about to. */
  lemma {:induction false} TicksSweep(s: State, labels: seq<Label>)
    requires Initial(s) && Possible(s, labels)
    ensures |After(s, labels).threads| >= 3
    ensures Count(labels, Ticks) == SweepCount(labels) + Count(After(s, labels).threads[PINGER].ops, All)
  {
    if labels != [] {
      LastTick(s, labels);
      TicksSweep(s, labels[..|labels| - 1]);
      CountLast(labels, Ticks);
    }
  }

  lemma {:induction false} OneSweep(s: State, labels: seq<Label>)
    requires Initial(s) && Possible(s, labels)
    ensures |After(s, labels).threads| >= 3 && Count(After(s, labels).threads[PINGER].ops, All) <= 1
  {
    if labels != [] {
      LastTick(s, labels);
      OneSweep(s, labels[..|labels| - 1]);
    }
  }

  // ---- the last sweep ----

  /** The last sweep began at step `a`. */
  ghost predicate LastSweep(labels: seq<Label>, a: nat) {
    a < |labels| && labels[a].Sweeps? && forall k :: a < k < |labels| ==> !labels[k].Sweeps?
  }

  lemma MarkStep(s: State, l: Label)
    requires Shaped(s.threads) && Enabled(s, l)
    ensures var m, m', reg' := s.marks, Next(s, l).marks, Next(s, l).reg;
            && m'.swept == (if l.Sweeps? then |s.history| else m.swept)
            && (forall c :: Registered(s.reg, c) && Registered(reg', c) && (l.Sweeps? || c in m.unvisited)
                  ==> c in m'.unvisited || (l.Pings? && l.c == c))
  {
  }

  lemma LastMark(s: State, labels: seq<Label>)
    requires Initial(s) && Possible(s, labels) && labels != []
    ensures Possible(s, labels[..|labels| - 1])
    ensures var t, t', l := After(s, labels[..|labels| - 1]), After(s, labels), labels[|labels| - 1];
            && t'.marks.swept == (if l.Sweeps? then |t.history| else t.marks.swept)
            && (forall c :: Registered(t.reg, c) && Registered(t'.reg, c) && (l.Sweeps? || c in t.marks.unvisited)
                  ==> c in t'.marks.unvisited || (l.Pings? && l.c == c))
  {
    LastStep(s, labels);
    ReachedShape(s, labels[..|labels| - 1]);
    MarkStep(After(s, labels[..|labels| - 1]), labels[|labels| - 1]);
  }

  lemma {:induction false} SweptMarked(s: State, labels: seq<Label>, a: nat)
    requires Initial(s) && Possible(s, labels) && LastSweep(labels, a)
    ensures Possible(s, labels[..a]) && After(s, labels).marks.swept == |After(s, labels[..a]).history|
    decreases |labels|
  {
    LastMark(s, labels);
    if a < |labels| - 1 {
      var front := labels[..|labels| - 1];
      SweptMarked(s, front, a);
      assert front[..a] == labels[..a];
    }
  }

  /** The connection is registered before and after every step of the sweep. */
  ghost predicate StaysFrom(s: State, labels: seq<Label>, a: nat, c: Conn) {
    forall k :: a <= k <= |labels| ==> RegisteredAt(s, labels, k, c)
  }

  ghost predicate RegisteredAt(s: State, labels: seq<Label>, k: nat, c: Conn)
    requires k <= |labels|
  {
    Possible(s, labels[..k]) && Registered(After(s, labels[..k]).reg, c)
  }

  ghost predicate PingedFrom(labels: seq<Label>, a: nat, c: Conn) {
    exists k :: a < k < |labels| && labels[k].Pings? && labels[k].c == c
  }

  lemma LastVisit(s: State, labels: seq<Label>, c: Conn)
    requires Initial(s) && labels != []
    requires RegisteredAt(s, labels, |labels| - 1, c) && RegisteredAt(s, labels, |labels|, c)
    ensures Possible(s, labels[..|labels| - 1]) && Possible(s, labels)
    ensures var l := labels[|labels| - 1];
            l.Sweeps? || c in After(s, labels[..|labels| - 1]).marks.unvisited ==>
              c in After(s, labels).marks.unvisited || (l.Pings? && l.c == c)
  {
    assert labels[..|labels|] == labels;
    LastMark(s, labels);
  }

  lemma StaysBefore(s: State, labels: seq<Label>, a: nat, c: Conn)
    requires labels != [] && StaysFrom(s, labels, a, c)
    ensures StaysFrom(s, labels[..|labels| - 1], a, c)
  {
    var front := labels[..|labels| - 1];
    forall k | a <= k <= |front| ensures RegisteredAt(s, front, k, c) {
      assert front[..k] == labels[..k] && RegisteredAt(s, labels, k, c);
    }
  }

  lemma PingedBefore(labels: seq<Label>, a: nat, c: Conn)
    requires labels != [] && PingedFrom(labels[..|labels| - 1], a, c)
    ensures PingedFrom(labels, a, c)
  {
    var front := labels[..|labels| - 1];
    var k :| a < k < |front| && front[k].Pings? && front[k].c == c;
    assert labels[k] == front[k];
  }

  lemma {:induction false} StillUnvisited(s: State, labels: seq<Label>, a: nat, c: Conn)
    requires Initial(s) && Possible(s, labels) && LastSweep(labels, a) && StaysFrom(s, labels, a, c)
    ensures c in After(s, labels).marks.unvisited || PingedFrom(labels, a, c)
    decreases |labels|
  {
    var n := |labels| - 1;
    assert RegisteredAt(s, labels, n, c) && RegisteredAt(s, labels, n + 1, c);
    LastVisit(s, labels, c);
    if a < n {
      StaysBefore(s, labels, a, c);
      StillUnvisited(s, labels[..n], a, c);
      if PingedFrom(labels[..n], a, c) {
        PingedBefore(labels, a, c);
      }
    }
  }

  lemma NobodyLeft(s: State, labels: seq<Label>)
    requires Initial(s) && Possible(s, labels)
    ensures |After(s, labels).threads| >= 3
    ensures |After(s, labels).marks.unvisited| <= Count(After(s, labels).threads[PINGER].ops, Ping)
  {
    Reached(s, labels);
  }

  /** Once a sweep has no ping left to make, it has pinged every connection that was a session of
      the registry when it began and ever since. */
  lemma SweepVisitsAll(s: State, labels: seq<Label>, a: nat, c: Conn)
    requires Initial(s) && Possible(s, labels) && LastSweep(labels, a) && StaysFrom(s, labels, a, c)
    requires |After(s, labels).threads| >= 3 && Ping !in After(s, labels).threads[PINGER].ops
    ensures PingedFrom(labels, a, c)
  {
    StillUnvisited(s, labels, a, c);
    NobodyLeft(s, labels);
    CountPositive(After(s, labels).threads[PINGER].ops, Ping);
  }

  // ---- only sessions are pinged ----

  /** The pinger has a ping to make. */
  ghost predicate HasPing(s: State) {
    |s.threads| >= 3 && exists j :: 0 <= j < |s.threads[PINGER].ops| && s.threads[PINGER].ops[j].Ping?
  }

  lemma HadPing(s: State, l: Label)
    requires Shaped(s.threads) && Enabled(s, l) && !l.Sweeps? && HasPing(Next(s, l))
    ensures HasPing(s)
  {
    if !StepOf(l, PINGER) {
      OthersLeaveThread(s, l, PINGER);
    } else if !l.Ticks? {
      assert ThreadOk(PINGER, s.threads[PINGER]) && Allowed(PINGER, First(s, PINGER));
    }
  }

  lemma LastHadPing(s: State, labels: seq<Label>)
    requires Initial(s) && Possible(s, labels) && labels != []
    requires !labels[|labels| - 1].Sweeps? && HasPing(After(s, labels))
    ensures Possible(s, labels[..|labels| - 1]) && HasPing(After(s, labels[..|labels| - 1]))
  {
    LastStep(s, labels);
    ReachedShape(s, labels[..|labels| - 1]);
    HadPing(After(s, labels[..|labels| - 1]), labels[|labels| - 1]);
  }

  lemma {:induction false} SweepBefore(s: State, labels: seq<Label>) returns (a: nat)
    requires Initial(s) && Possible(s, labels) && HasPing(After(s, labels))
    ensures LastSweep(labels, a)
  {
    assert labels != [];
    var n := |labels| - 1;
    if labels[n].Sweeps? {
      a := n;
    } else {
      LastHadPing(s, labels);
      a := SweepBefore(s, labels[..n]);
    }
  }

  lemma EnabledAt(s: State, labels: seq<Label>, b: nat)
    requires Possible(s, labels) && b < |labels|
    ensures Possible(s, labels[..b]) && Enabled(After(s, labels[..b]), labels[b])
  {
    Earlier(s, labels, b + 1);
    LastStep(s, labels[..b + 1]);
    assert labels[..b + 1][..b] == labels[..b];
  }

  lemma PingEnabled(s: State, l: Label)
    requires Shaped(s.threads) && Enabled(s, l) && l.Pings?
    ensures HasPing(s)
    ensures s.marks.swept <= l.at <= |s.history| && Registered(Replay(s.keying, s.history[..l.at]), l.c)
  {
    assert ThreadOk(l.i, s.threads[l.i]) && Allowed(l.i, First(s, l.i));
    assert s.threads[PINGER].ops[0].Ping?;
  }

  lemma ReachedAt(s: State, labels: seq<Label>, k: nat, n: nat)
    requires Initial(s) && Possible(s, labels) && k <= |labels| && n <= |After(s, labels).history|
    requires Possible(s, labels[..k]) && After(s, labels[..k]).history == After(s, labels).history[..n]
    ensures After(s, labels[..k]).reg == Replay(After(s, labels).keying, After(s, labels).history[..n])
  {
    ReachedSerial(s, labels);
    ReachedSerial(s, labels[..k]);
  }

  /** A shorter run with as long a history. */
  lemma SameHistory(s: State, labels: seq<Label>, k: nat)
    requires Initial(s) && Possible(s, labels) && k <= |labels|
    requires Possible(s, labels[..k]) && |After(s, labels[..k]).history| >= |After(s, labels).history|
    ensures After(s, labels[..k]).history == After(s, labels).history
    ensures After(s, labels[..k]).reg == After(s, labels).reg
  {
    HistoryGrows(s, labels, k);
    ReachedSerial(s, labels);
    ReachedSerial(s, labels[..k]);
  }

  lemma RegisteredThen(s: State, labels: seq<Label>, n: nat, c: Conn) returns (k: nat)
    requires Initial(s) && Possible(s, labels) && n <= |After(s, labels).history|
    requires Registered(Replay(After(s, labels).keying, After(s, labels).history[..n]), c)
    ensures k <= |labels| && RegisteredAt(s, labels, k, c) && |After(s, labels[..k]).history| == n
  {
    k := HistoryAt(s, labels, n);
    ReachedAt(s, labels, k, n);
  }

  lemma NotBefore(s: State, labels: seq<Label>, a: nat, k: nat, c: Conn) returns (j: nat)
    requires Initial(s) && a <= |labels| && k <= |labels| && Possible(s, labels[..a]) && RegisteredAt(s, labels, k, c)
    requires |After(s, labels[..a]).history| <= |After(s, labels[..k]).history|
    ensures a <= j <= |labels| && RegisteredAt(s, labels, j, c)
  {
    j := k;
    if k < a {
      assert labels[..a][..k] == labels[..k];
      SameHistory(s, labels[..a], k);
      j := a;
    }
  }

  lemma PingOfSession(s: State, labels: seq<Label>, l: Label) returns (a: nat, k: nat)
    requires Initial(s) && Possible(s, labels) && Enabled(After(s, labels), l) && l.Pings?
    ensures LastSweep(labels, a) && a <= k <= |labels| && RegisteredAt(s, labels, k, l.c)
  {
    ReachedShape(s, labels);
    PingEnabled(After(s, labels), l);
    a := SweepBefore(s, labels);
    SweptMarked(s, labels, a);
    k := RegisteredThen(s, labels, l.at, l.c);
    k := NotBefore(s, labels, a, k, l.c);
  }

  /** Whoever is pinged was a session of the registry when the sweep began, or at some moment
      since. */
  lemma PingedSession(s: State, labels: seq<Label>, b: nat) returns (a: nat, k: nat)
    requires Initial(s) && Possible(s, labels) && b < |labels| && labels[b].Pings?
    ensures LastSweep(labels[..b], a) && a <= k <= b && RegisteredAt(s, labels, k, labels[b].c)
  {
    EnabledAt(s, labels, b);
    a, k := PingOfSession(s, labels[..b], labels[b]);
    assert labels[..b][..k] == labels[..k];
  }
}
