/** Round robin: yields, zero delays and ticks hand the processor on among the tasks of
    the strongest priority, in the order of their ready list. */
module Rotation {
  import opened Ticks
  import opened Lists
  import opened KernelState
  import opened TaskModel
  import opened QueueRing
  import opened QueueModel
  import opened Kernel
  import opened Placement
  import opened CoreInvariant
  import opened Steps
  import opened Wakeups
  import opened Inheritance
  import opened ClosedSystem
  import opened Effects
  import opened Deadlines
  import opened Runs
  import opened Calls
  import opened Fairness

  /** The running task has priority `p`, and no ready task is stronger. */
  ghost predicate TopRuns(s: State, p: Priority) {
    && s.current.Some? && s.current.value < |s.tasks| && s.tasks[s.current.value].priority == p
    && forall q: Priority :: p < q ==> s.ready[q] == []
  }

  /** The running task and behind it the ready tasks of its priority. */
  function Line(s: State, p: Priority): (line: seq<nat>)
    requires s.current.Some?
    ensures line != []
  {
    [s.current.value] + s.ready[p]
  }

  /** The step gives the caller's turn away. */
  ghost predicate GivesTurn(s: State, step: Step) {
    step.Yield? || step == Delay(0) || (step.Tick? && NobodyDue(s))
  }

  lemma TurnRotates(s: State, step: Step, r: State)
    requires Reachable(s) && Moves(s, step, r) && GivesTurn(s, step)
    ensures Rotates(s, r)
  {
    hide Reachable, Perform, Rotates, RunsOn;
    StepAnswers(s, step);
  }

  /** If a task of the caller's priority is ready and none above it, the first of them
      runs, and the caller is ready at the end of their list. Else the caller runs on. */
  lemma NextInLine(s: State, step: Step, r: State, p: Priority)
    requires Reachable(s) && Moves(s, step, r) && GivesTurn(s, step) && TopRuns(s, p)
    ensures TopRuns(r, p) && Line(r, p) == Line(s, p)[1..] + [Line(s, p)[0]]
    ensures s.ready[p] != [] ==>
      r.current == Some(s.ready[p][0]) && r.tasks[s.current.value].state == Ready && r.ready[p] == s.ready[p][1..] + [s.current.value]
    ensures s.ready[p] == [] ==> r.current == s.current && r.ready == s.ready
  {
    hide Reachable, Next;
    TurnRotates(s, step, r);
    var c := s.current.value;
    var lists := s.ready[p := s.ready[p] + [c]];
    var x := r.current.value;
    var q := s.tasks[x].priority;
    assert lists[p] != [];
    assert q == p;
    assert r.ready[p] == lists[p][1..];
    CurrentNotReady(s, p);
    if s.ready[p] == [] {
      assert lists[p] == [c];
      assert r.ready[p] == s.ready[p];
    } else {
      assert lists[p][1..] == s.ready[p][1..] + [c];
    }
  }

  lemma CurrentNotReady(s: State, p: Priority)
    requires Reachable(s)
    ensures s.current.Some? && s.current.value < |s.tasks| && s.current.value !in s.ready[p]
  {
    hide Reachable;
    ReachableInv(s);
  }

  // ---------- over runs ----------

  /** The line and its place at the top stay as they are. */
  ghost predicate Keeps(s: State, r: State, p: Priority) {
    TopRuns(s, p) && TopRuns(r, p) && Line(r, p) == Line(s, p)
  }

  /** How often, in the first `n` steps, the turn is given away. */
  ghost function Turns(trace: seq<State>, steps: seq<Step>, n: nat): nat
    requires n <= |steps| < |trace|
  {
    if n == 0 then 0 else Turns(trace, steps, n - 1) + if GivesTurn(trace[n - 1], steps[n - 1]) then 1 else 0
  }

  /** `line` is `first` after `k` turns. */
  ghost predicate Turned(line: seq<nat>, first: seq<nat>, k: nat) {
    |line| == |first| > 0 && forall i {:trigger line[i]} :: 0 <= i < |line| ==> line[i] == first[(i + k) % |first|]
  }

  lemma ModuloUnique(x: nat, m: nat, q: nat, r: nat)
    requires x == q * m + r && r < m
    ensures x % m == r
  {
    var d := x / m - q;
    assert x == (x / m) * m + x % m;
    assert d * m == (x / m) * m - q * m == r - x % m;
    assert d >= 1 ==> d * m >= m;
    assert d <= -1 ==> d * m <= -1 * m;
  }

  lemma ModuloNext(i: nat, k: nat, m: nat)
    requires i < m
    ensures ((if i + 1 < m then i + 1 else 0) + k) % m == (i + (k + 1)) % m
  {
    if i + 1 == m {
      var q, r := k / m, k % m;
      assert k == q * m + r;
      assert i + (k + 1) == (q + 1) * m + r;
      ModuloUnique(i + (k + 1), m, q + 1, r);
    }
  }

  lemma TurnedOnce(line: seq<nat>, next: seq<nat>, first: seq<nat>, k: nat)
    requires Turned(line, first, k) && next == line[1..] + [line[0]]
    ensures Turned(next, first, k + 1)
  {
    forall i | 0 <= i < |next| ensures next[i] == first[(i + (k + 1)) % |first|] {
      var j := if i + 1 < |line| then i + 1 else 0;
      assert next[i] == line[j];
      ModuloNext(i, k, |first|);
    }
  }

  /** Round robin: while each step either gives the turn away or leaves the line alone, the
      line after `k` turns is the line turned `k` times. So the tasks of the strongest
      priority run in the order in which they stood ready, each once in every round. */
  lemma {:induction false} RoundRobin(trace: seq<State>, steps: seq<Step>, n: nat, p: Priority)
    requires Behaves(trace, steps) && Reachable(trace[0]) && n <= |steps| && TopRuns(trace[0], p)
    requires forall i {:trigger steps[i]} :: 0 <= i < n ==> GivesTurn(trace[i], steps[i]) || Keeps(trace[i], trace[i + 1], p)
    ensures TopRuns(trace[n], p) && Turned(Line(trace[n], p), Line(trace[0], p), Turns(trace, steps, n))
  {
    hide Reachable, Next, GivesTurn, Turned, Line;
    if n == 0 {
      NoTurn(Line(trace[0], p));
    } else {
      RoundRobin(trace, steps, n - 1, p);
      ReachableAlong(trace, steps, n - 1);
      assert Moves(trace[n - 1], steps[n - 1], trace[n - 1 + 1]);
      if GivesTurn(trace[n - 1], steps[n - 1]) {
        NextInLine(trace[n - 1], steps[n - 1], trace[n], p);
        TurnedOnce(Line(trace[n - 1], p), Line(trace[n], p), Line(trace[0], p), Turns(trace, steps, n - 1));
      } else {
        assert Keeps(trace[n - 1], trace[n - 1 + 1], p);
      }
    }
  }

  lemma NoTurn(line: seq<nat>)
    requires line != []
    ensures Turned(line, line, 0)
  {
  }

  /** After `k` turns, the `k`-th task of the line runs. */
  lemma TurnComes(trace: seq<State>, steps: seq<Step>, n: nat, p: Priority, k: nat)
    requires Behaves(trace, steps) && Reachable(trace[0]) && n <= |steps| && TopRuns(trace[0], p)
    requires forall i {:trigger steps[i]} :: 0 <= i < n ==> GivesTurn(trace[i], steps[i]) || Keeps(trace[i], trace[i + 1], p)
    requires Turns(trace, steps, n) == k < |Line(trace[0], p)|
    ensures trace[n].current == Some(Line(trace[0], p)[k])
  {
    hide Reachable, GivesTurn, Turned, Moves;
    RoundRobin(trace, steps, n, p);
    hide Line, TopRuns;
    TurnedFirst(Line(trace[n], p), Line(trace[0], p), k);
    LineHead(trace[n], p);
  }

  lemma TurnedFirst(line: seq<nat>, first: seq<nat>, k: nat)
    requires Turned(line, first, k) && k < |first|
    ensures line[0] == first[k]
  {
    assert line[0] == first[(0 + k) % |first|];
  }

  lemma LineHead(s: State, p: Priority)
    requires s.current.Some?
    ensures Line(s, p)[0] == s.current.value
  {
  }

  // ---------- ticks that end waits ----------

  /** Whoever is ready after the drain was ready before, or due. */
  lemma DrainReadies(s: State, t: nat)
    requires KernelInv(s) && t < |s.tasks|
    ensures var m := WakeExpired(Advance(s));
      && t < |m.tasks|
      && (m.tasks[t].state == Ready ==>
            s.tasks[t].state == Ready || (s.tasks[t].state == Blocked && s.tasks[t].deadline == s.now + 1))
  {
    hide WakeExpired;
    AdvanceCore(s);
    WakeExpiredInv(Advance(s));
    if s.tasks[t].state == Blocked {
      assert t in s.delayed;
      DrainExact(s, t);
    }
  }

  /** The waits that end at the next tick are those of tasks of at most priority `p`. */
  ghost predicate DueWithin(s: State, p: Priority) {
    forall t {:trigger s.tasks[t]} ::
      0 <= t < |s.tasks| && s.tasks[t].state == Blocked && s.tasks[t].deadline == s.now + 1 ==> s.tasks[t].priority <= p
  }

  lemma DrainBelow(s: State, p: Priority, t: nat)
    requires KernelInv(s) && NoneOutranked(s) && TopRuns(s, p) && DueWithin(s, p) && t < |s.tasks|
    ensures var m := WakeExpired(Advance(s)); t < |m.tasks| && (m.tasks[t].state == Ready ==> m.tasks[t].priority <= p)
  {
    hide WakeExpired, NoneOutranked;
    AdvanceSteady(s, t);
    WakeExpiredLowers(Advance(s), t);
    DrainReadies(s, t);
  }

  lemma DrainHead(s: State, p: Priority, q: Priority)
    requires KernelInv(s) && NoneOutranked(s) && TopRuns(s, p) && DueWithin(s, p)
    requires InBounds(Advance(s)) && WakeExpired(Advance(s)).ready[q] != []
    ensures q <= p
  {
    hide WakeExpired, NoneOutranked;
    AdvanceCore(s);
    WakeExpiredInv(Advance(s));
    var m := WakeExpired(Advance(s));
    var t := m.ready[q][0];
    assert t in m.ready[q];
    ReadyMember(m, None, t, q);
    DrainBelow(s, p, t);
  }

  /** No task above `p` is ready after a drain that readies nobody stronger. */
  lemma DrainTop(s: State, p: Priority)
    requires KernelInv(s) && NoneOutranked(s) && TopRuns(s, p) && DueWithin(s, p)
    ensures var m := WakeExpired(Advance(s));
      && m.current == s.current && |m.tasks| == |s.tasks| && m.tasks[s.current.value].priority <= p
      && forall q: Priority :: p < q ==> m.ready[q] == []
  {
    hide WakeExpired, NoneOutranked;
    var c := s.current.value;
    AdvanceSteady(s, c);
    WakeExpiredInv(Advance(s));
    WakeExpiredLowers(Advance(s), c);
    hide Core, NoneDue;
    var m := WakeExpired(Advance(s));
    forall q: Priority | p < q ensures m.ready[q] == [] {
      if m.ready[q] != [] { DrainHead(s, p, q); }
    }
  }

  /** The first in line stays the first through the drain. */
  lemma DrainFirst(s: State, p: Priority)
    requires KernelInv(s) && NoneOutranked(s) && s.ready[p] != []
    requires var h := s.ready[p][0]; h < |s.tasks| && InBounds(Advance(s)) && WakeExpired(Advance(s)).tasks[h].priority == p
    ensures var q := WakeExpired(Advance(s)).ready[p]; q != [] && q[0] == s.ready[p][0]
  {
    hide WakeExpired, NoneOutranked, Core;
    var h := s.ready[p][0];
    assert h in s.ready[p];
    AdvanceSteady(s, h);
    WakeExpiredNotPassed(Advance(s), h, p);
    FirstStays(s.ready[p], WakeExpired(Advance(s)).ready[p], h);
  }

  /** A tick that ends waits: if the drain readies nobody stronger and leaves the first in
      line at its priority, that task runs, and the caller is ready at the end of the list
      of its own priority. */
  lemma TickTurn(s: State, r: State, p: Priority)
    requires Reachable(s) && Moves(s, Tick, r) && TopRuns(s, p) && s.ready[p] != [] && NoneOutranked(s) && DueWithin(s, p)
    requires s.ready[p][0] < |r.tasks| && r.tasks[s.ready[p][0]].priority == p
    ensures r.current == Some(s.ready[p][0])
    ensures var c := s.current.value; c < |r.tasks| && r.tasks[c].state == Ready
    ensures var c := s.current.value; var q := r.ready[r.tasks[c].priority]; q != [] && q[|q| - 1] == c
  {
    hide Reachable, WakeExpired, NoneOutranked, YieldCurrent, TickISR, Core, NoneDue, DueWithin, TopRuns, Rotates;
    ReachableInv(s);
    var m := WakeExpired(Advance(s));
    TickIs(s, r);
    TickShape(s);
    DrainTop(s, p);
    FirstKnown(s, p);
    YieldPriority(m, s.ready[p][0]);
    DrainFirst(s, p);
    YieldRotates(m);
    RotatesTo(m, r, p);
  }

  lemma TickIs(s: State, r: State)
    requires Moves(s, Tick, r)
    ensures r == TickISR(s)
  {
  }

  lemma FirstKnown(s: State, p: Priority)
    requires KernelInv(s) && s.ready[p] != []
    ensures InBounds(Advance(s)) && |WakeExpired(Advance(s)).tasks| == |s.tasks| && s.ready[p][0] < |s.tasks|
  {
    hide WakeExpired;
    AdvanceCore(s);
    WakeExpiredInv(Advance(s));
    assert s.ready[p][0] in s.ready[p];
  }

  /** Not passed, the first stays the first. */
  lemma FirstStays(before: seq<nat>, after: seq<nat>, h: nat)
    requires before != [] && before[0] == h && h in before && h in after && IndexOf(after, h) <= IndexOf(before, h)
    ensures after != [] && after[0] == h
  {
  }

  lemma RotatesTo(m: State, r: State, p: Priority)
    requires KernelInv(m) && Rotates(m, r) && m.ready[p] != [] && m.tasks[m.current.value].priority <= p
    requires forall q: Priority :: p < q ==> m.ready[q] == []
    ensures var c := m.current.value;
      && r.current == Some(m.ready[p][0]) && c < |r.tasks| && r.tasks[c].state == Ready
      && var q := r.ready[r.tasks[c].priority]; q != [] && q[|q| - 1] == c
  {
    var c, h := m.current.value, m.ready[p][0];
    assert h in m.ready[p];
    hide Core;
    var own := m.tasks[c].priority;
    var lists := m.ready[own := m.ready[own] + [c]];
    var q := m.tasks[r.current.value].priority;
    assert lists[p] != [] && lists[p][0] == h;
    assert q == p;
  }
}
