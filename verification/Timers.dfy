/** kernel/timers.c: the list of active timers and the expiry drain. */
module Timers {
  import opened Ticks
  import opened KernelState
  import opened TimerArithmetic

  const LONGEST_WAIT: nat := 0x7FFF_FFFE

  /** `deadline` (the instant whose reading is `expiryTick`) and `served` (the deadlines
      whose callback has run) are bookkeeping of the model. */
  class Timer {
    var period: Tick
    var expiryTick: Tick
    const autoReload: bool
    var active: bool
    var nextActive: Timer?
    ghost var deadline: nat
    ghost var served: seq<nat>

    constructor (period: Tick, autoReload: bool)
      requires 0 < period < INT32_MAX
      ensures this.period == period && this.autoReload == autoReload
      ensures !active && nextActive == null && served == [] && Sound()
    {
      this.period, this.autoReload, active, nextActive := period, autoReload, false, null;
      expiryTick, deadline, served := 0, 0, [];
    }

    ghost predicate Sound()
      reads this`period, this`expiryTick, this`deadline
    {
      0 < period < INT32_MAX && expiryTick == Wrap(deadline)
    }

    ghost function State(): TimerState
      reads this`period, this`deadline, this`active, this`served
    {
      TimerState(period, deadline, autoReload, active, served)
    }
  }

  /** A timer as a value. */
  datatype TimerState = TimerState(period: Tick, deadline: nat, autoReload: bool, active: bool, served: seq<nat>)

  /** The callbacks that a drain at `now` owes. */
  function Pending(t: TimerState, now: nat): seq<nat> {
    if !t.active || t.deadline > now then []
    else if t.autoReload && t.period > 0 then Served(t.deadline, t.period, now)
    else [t.deadline]
  }

  /** One callback, and the next deadline of a periodic timer. */
  function ServedOnce(t: TimerState): TimerState {
    t.(served := t.served + [t.deadline], active := t.autoReload,
       deadline := if t.autoReload then t.deadline + t.period else t.deadline)
  }

  /** A timer after a drain at `now`: every passed deadline served once, in order. */
  function Drained(t: TimerState, now: nat): TimerState {
    if !t.active || t.deadline > now then t
    else if t.autoReload && t.period > 0 then
      t.(served := t.served + Served(t.deadline, t.period, now), deadline := Upcoming(t.deadline, t.period, now))
    else ServedOnce(t)
  }

  lemma ServedOnceDrained(t: TimerState, now: nat)
    requires t.active && t.deadline <= now && t.period > 0
    ensures Drained(ServedOnce(t), now) == Drained(t, now)
    ensures |Pending(ServedOnce(t), now)| + 1 == |Pending(t, now)|
  {
    hide Served, Upcoming;
    if t.autoReload {
      ServedUnfold(t.deadline, t.period, now);
      ServedUnfold(t.deadline + t.period, t.period, now);
      var later := Served(t.deadline + t.period, t.period, now);
      assert t.served + [t.deadline] + later == t.served + ([t.deadline] + later);
      assert t.served + [t.deadline] + [] == t.served + [t.deadline];
    }
  }

  /** From `now` on a drain makes the same of both. */
  ghost predicate SameDrains(a: TimerState, b: TimerState, now: nat) {
    forall n: nat {:trigger Drained(a, n)} {:trigger Drained(b, n)} :: now <= n ==> Drained(a, n) == Drained(b, n)
  }

  lemma SameDrainsLater(a: TimerState, b: TimerState, c: TimerState, first: nat, second: nat, served: bool)
    requires SameDrains(b, c, first) && first <= second && (if served then SameDrains(a, b, second) else a == b)
    ensures SameDrains(a, c, second)
  {
    forall n: nat | second <= n ensures Drained(a, n) == Drained(c, n) {
      assert Drained(b, n) == Drained(c, n);
    }
  }

  lemma SameDrainsSelf(t: TimerState, now: nat)
    ensures SameDrains(t, t, now)
  {
  }

  lemma ServedOnceSame(t: TimerState, now: nat)
    requires t.active && t.deadline <= now && t.period > 0
    ensures SameDrains(ServedOnce(t), t, now)
  {
    hide Drained;
    forall n: nat | now <= n ensures Drained(ServedOnce(t), n) == Drained(t, n) { ServedOnceDrained(t, n); }
  }

  /** Everything a drain at `now` owes, over all active timers. */
  function Work(timers: seq<TimerState>, now: nat): nat {
    if timers == [] then 0 else |Pending(timers[0], now)| + Work(timers[1..], now)
  }

  lemma {:induction false} WorkConcat(a: seq<TimerState>, b: seq<TimerState>, now: nat)
    ensures Work(a + b, now) == Work(a, now) + Work(b, now)
  {
    if a == [] {
      assert a + b == b;
    } else {
      assert (a + b)[1..] == a[1..] + b;
      WorkConcat(a[1..], b, now);
    }
  }

  lemma WorkWithout(timers: seq<TimerState>, k: nat, now: nat)
    requires k < |timers|
    ensures Work(timers, now) == Work(timers[..k] + timers[k + 1..], now) + |Pending(timers[k], now)|
  {
    assert timers == timers[..k] + ([timers[k]] + timers[k + 1..]);
    WorkConcat(timers[..k], [timers[k]] + timers[k + 1..], now);
    WorkConcat([timers[k]], timers[k + 1..], now);
    WorkConcat(timers[..k], timers[k + 1..], now);
    assert Work([timers[k]], now) == |Pending(timers[k], now)|;
  }

  /** Serving the k-th timer once, and putting it back in front if it is periodic, leaves
      one callback less to do. */
  lemma WorkServed(timers: seq<TimerState>, k: nat, now: nat)
    requires k < |timers| && timers[k].active && timers[k].deadline <= now && timers[k].period > 0
    ensures var rest := timers[..k] + timers[k + 1..]; var once := ServedOnce(timers[k]);
      Work(if once.active then [once] + rest else rest, now) + 1 == Work(timers, now)
  {
    hide Pending, ServedOnce;
    var rest, once := timers[..k] + timers[k + 1..], ServedOnce(timers[k]);
    WorkWithout(timers, k, now);
    ServedOnceDrained(timers[k], now);
    if once.active {
      assert ([once] + rest)[1..] == rest;
    } else {
      NothingPending(once, now);
    }
  }

  lemma NothingPending(t: TimerState, now: nat)
    requires !t.active
    ensures Pending(t, now) == []
  {
  }

  /** A drain and a later one together serve what the later one alone would have. */
  lemma DrainsCompose(t: TimerState, first: nat, second: nat)
    requires first <= second && t.period > 0
    ensures Drained(Drained(t, first), second) == Drained(t, second)
  {
    if t.active && t.deadline <= first && t.autoReload {
      ServedSplit(t.deadline, t.period, first, second);
      var next := Upcoming(t.deadline, t.period, first);
      assert t.served + Served(t.deadline, t.period, first) + Served(next, t.period, second)
          == t.served + Served(t.deadline, t.period, second);
      if next > second { assert Served(next, t.period, second) == []; }
    }
  }

  function DrainedAt(t: TimerState, instants: seq<nat>): TimerState
    decreases |instants|
  {
    if instants == [] then t else DrainedAt(Drained(t, instants[0]), instants[1..])
  }

  /** However often and whenever the service drains, only the last instant counts. */
  lemma {:induction false} DrainsCollapse(t: TimerState, instants: seq<nat>)
    requires instants != [] && t.period > 0
    requires forall i, j :: 0 <= i < j < |instants| ==> instants[i] <= instants[j]
    ensures DrainedAt(t, instants) == Drained(t, instants[|instants| - 1])
    decreases |instants|
  {
    if |instants| > 1 {
      DrainsCollapse(Drained(t, instants[0]), instants[1..]);
      DrainsCompose(t, instants[0], instants[|instants| - 1]);
    }
  }

  /** Catch-up without drift: a periodic timer started at `s` has, after any drains the
      last of which is at `now`, run exactly floor((now - s) / period) times, the k-th
      time for its own deadline s + (k + 1) * period and not before it. */
  lemma CatchUpWithoutDrift(t: TimerState, s: nat, instants: seq<nat>)
    requires t.active && t.autoReload && t.period > 0 && t.served == [] && t.deadline == s + t.period
    requires instants != [] && s <= instants[|instants| - 1]
    requires forall i, j :: 0 <= i < j < |instants| ==> instants[i] <= instants[j]
    ensures var now := instants[|instants| - 1]; var r := DrainedAt(t, instants);
      && |r.served| == (now - s) / t.period
      && (forall k {:trigger r.served[k]} :: 0 <= k < |r.served| ==> r.served[k] == s + t.period + k * t.period && r.served[k] <= now)
      && r.active && now < r.deadline
  {
    var now := instants[|instants| - 1];
    DrainsCollapse(t, instants);
    CatchUpCount(s, t.period, now);
    var served := Served(s + t.period, t.period, now);
    assert DrainedAt(t, instants).served == served;
    forall k | 0 <= k < |served| ensures served[k] == s + t.period + k * t.period && served[k] <= now {
      ServedAt(s + t.period, t.period, now, k);
    }
  }

  /** A one-shot timer that is due has, after any drains the last of which is at `now`, run
      exactly once, for its own deadline, and is inactive. One that is not due is as it was. */
  lemma OneShotRunsOnce(t: TimerState, instants: seq<nat>)
    requires t.active && !t.autoReload && t.period > 0 && instants != []
    requires forall i, j :: 0 <= i < j < |instants| ==> instants[i] <= instants[j]
    ensures var now := instants[|instants| - 1]; var r := DrainedAt(t, instants);
      && (t.deadline <= now ==> r == t.(served := t.served + [t.deadline], active := false))
      && (now < t.deadline ==> r == t)
  {
    DrainsCollapse(t, instants);
  }

  datatype Command = Start(timer: Timer) | Stop(timer: Timer) | Reset(timer: Timer) | ChangePeriod(timer: Timer, period: Tick)

  function Head(list: seq<Timer>, k: nat): (r: Timer?) {
    if k < |list| then list[k] else null
  }

  ghost predicate Distinct(list: seq<Timer>) {
    forall i, j :: 0 <= i < j < |list| ==> list[i] != list[j]
  }

  /** The list without one of its timers. */
  function Without(list: seq<Timer>, timer: Timer): (r: seq<Timer>)
    ensures timer !in list ==> r == list
  {
    if list == [] then []
    else if list[0] == timer then list[1..]
    else [list[0]] + Without(list[1..], timer)
  }

  lemma {:induction false} WithoutAt(list: seq<Timer>, k: nat)
    requires Distinct(list) && k < |list|
    ensures Without(list, list[k]) == list[..k] + list[k + 1..]
  {
    if k > 0 {
      WithoutAt(list[1..], k - 1);
      assert list[1..][..k - 1] == list[1..k] && list[1..][k..] == list[k + 1..];
      assert list[..k] == [list[0]] + list[1..k];
    }
  }

  lemma {:induction false} WithoutMembers(list: seq<Timer>, timer: Timer)
    requires Distinct(list)
    ensures forall t {:trigger t in Without(list, timer)} :: t in Without(list, timer) <==> t in list && t != timer
    ensures Distinct(Without(list, timer))
  {
    if list != [] && list[0] != timer {
      WithoutMembers(list[1..], timer);
      var rest := Without(list[1..], timer);
      forall i | 0 <= i < |rest| ensures rest[i] != list[0] {
        assert rest[i] in rest;
      }
    }
  }

  class TimerService {
    var activeTimers: Timer?
    ghost var active: seq<Timer>
    ghost var registry: set<Timer>

    ghost predicate Linked()
      reads this`activeTimers, this`active, this`registry, registry`nextActive
    {
      && Distinct(active)
      && (forall i {:trigger active[i]} :: 0 <= i < |active| ==> active[i] in registry)
      && activeTimers == Head(active, 0)
      && (forall i {:trigger active[i]} :: 0 <= i < |active| ==> active[i].nextActive == Head(active, i + 1))
    }

    ghost predicate Valid()
      reads this, registry
    {
      && Linked()
      && (forall t {:trigger t in registry} :: t in registry ==> t.Sound() && (t.active <==> t in active))
    }

    /** Every active deadline is less than half the tick range ahead and at most half
        of it behind. */
    ghost predicate InRange(now: nat)
      reads this, registry
    {
      forall t {:trigger t in registry} :: t in registry && t.active ==> now - HALF_RANGE <= t.deadline < now + HALF_RANGE
    }

    constructor ()
      ensures Valid() && active == [] && registry == {}
    {
      activeTimers, active, registry := null, [], {};
    }

    /** xTimerCreate: periods of zero or of half the tick range and more are refused. */
    method Create(period: Tick, autoReload: bool) returns (timer: Timer?)
      requires Valid()
      modifies this`registry
      ensures Valid() && active == old(active)
      ensures timer == null <==> period == 0 || period >= INT32_MAX
      ensures timer == null ==> registry == old(registry)
      ensures timer != null ==> fresh(timer) && registry == old(registry) + {timer} && !timer.active
      ensures timer != null ==> timer.period == period && timer.autoReload == autoReload && timer.served == []
    {
      if period == 0 || period >= INT32_MAX { return null; }
      timer := new Timer(period, autoReload);
      registry := registry + {timer};
    }

    lemma DistinctActive()
      requires Linked()
      ensures Distinct(active)
    {
    }

    method Insert(timer: Timer)
      requires Valid() && timer in registry && !timer.active
      modifies this`activeTimers, this`active, timer`nextActive, timer`active
      ensures Valid() && active == [timer] + old(active) && timer.active
    {
      timer.nextActive := activeTimers;
      activeTimers := timer;
      timer.active := true;
      active := [timer] + active;
    }

    method Remove(timer: Timer)
      requires Valid() && timer in registry && timer.active
      modifies this`activeTimers, this`active, registry`nextActive, timer`active
      ensures Valid() && active == Without(old(active), timer) && !timer.active && timer.nextActive == null
    {
      hide Without, Linked, Distinct;
      DistinctActive();
      WithoutMembers(active, timer);
      Unlink(timer);
      timer.active := false;
    }

    /** The timer's place in the list, and the timer before it. */
    method FindBefore(timer: Timer) returns (previous: Timer?, ghost k: nat)
      requires Linked() && timer in active
      ensures k < |active| && active[k] == timer && previous == if k == 0 then null else active[k - 1]
    {
      previous := null;
      var cursor := activeTimers;
      k := 0;
      while cursor != null && cursor != timer
        invariant 0 <= k <= |active| && cursor == Head(active, k)
        invariant previous == if k == 0 then null else active[k - 1]
        invariant timer !in active[..k]
        decreases |active| - k
      {
        previous := cursor;
        cursor := cursor.nextActive;
        k := k + 1;
      }
    }

    method Unlink(timer: Timer)
      requires Linked() && timer in active
      modifies this`activeTimers, this`active, registry`nextActive
      ensures Linked() && active == Without(old(active), timer) && timer !in active && timer.nextActive == null
    {
      hide Without;
      WithoutMembers(active, timer);
      ghost var k;
      var previous;
      previous, k := FindBefore(timer);
      WithoutAt(active, k);
      assert forall i {:trigger active[i]} :: 0 <= i < |active| && i != k ==> active[i] != timer;
      assert forall i {:trigger active[i]} :: 0 <= i < |active| && i + 1 != k ==> active[i] != previous;
      if previous == null {
        activeTimers := timer.nextActive;
      } else {
        previous.nextActive := timer.nextActive;
      }
      timer.nextActive := null;
      ghost var before := active;
      active := active[..k] + active[k + 1..];
      forall i | 0 <= i < |active| ensures active[i].nextActive == Head(active, i + 1) && active[i] in registry {
        assert active[i] == before[if i < k then i else i + 1];
      }
    }

    /** The first due timer in list order. */
    method FindDue(tick: Tick, ghost now: nat) returns (timer: Timer?)
      requires Valid() && InRange(now) && tick == Wrap(now)
      ensures timer == null <==> forall t :: t in active ==> now < t.deadline
      ensures timer != null ==> timer in active && timer.deadline <= now
      ensures timer != null ==> exists k {:trigger active[k]} ::
        0 <= k < |active| && active[k] == timer && forall i :: 0 <= i < k ==> now < active[i].deadline
    {
      timer := activeTimers;
      ghost var k := 0;
      while timer != null
        invariant 0 <= k <= |active| && timer == Head(active, k)
        invariant forall i :: 0 <= i < k ==> now < active[i].deadline
        decreases |active| - k
      {
        assert active[k] in active;
        DueExact(timer.deadline, now);
        if IsDue(timer.expiryTick, tick) { return; }
        timer := timer.nextActive;
        k := k + 1;
      }
    }

    /** How long the service may sleep: not at all if a timer is due, and never past the
        earliest deadline. */
    method WaitTicks(tick: Tick, ghost now: nat) returns (wait: Tick)
      requires Valid() && InRange(now) && tick == Wrap(now)
      ensures wait == 0 <==> exists t :: t in active && t.deadline <= now
      ensures forall t :: t in active && now < t.deadline ==> now + wait <= t.deadline
      ensures wait <= LONGEST_WAIT && (wait == 0 || wait == LONGEST_WAIT || exists t :: t in active && t.deadline == now + wait)
    {
      wait := LONGEST_WAIT;
      var timer := activeTimers;
      ghost var k := 0;
      while timer != null
        invariant 0 <= k <= |active| && timer == Head(active, k)
        invariant 0 < wait <= LONGEST_WAIT
        invariant forall i :: 0 <= i < k ==> now + wait <= active[i].deadline
        invariant wait == LONGEST_WAIT || exists t :: t in active && t.deadline == now + wait
        decreases |active| - k
      {
        assert active[k] in active;
        DueExact(timer.deadline, now);
        var delta := SignedDifference(timer.expiryTick, tick);
        if delta <= 0 { return 0; }
        if delta < wait { wait := delta; }
        timer := timer.nextActive;
        k := k + 1;
      }
    }

    /** One command from the queue, at tick `tick`. */
    method Apply(command: Command, tick: Tick, ghost now: nat)
      requires Valid() && tick == Wrap(now) && command.timer in registry
      requires command.ChangePeriod? ==> 0 < command.period < INT32_MAX
      modifies this`activeTimers, this`active, registry`nextActive, command.timer
      ensures Valid() && registry == old(registry)
      ensures var timer := command.timer;
        && active == (if command.Stop? then Without(old(active), timer) else [timer] + Without(old(active), timer))
        && timer.active == !command.Stop?
        && timer.period == (if command.ChangePeriod? then command.period else old(timer.period))
        && timer.deadline == (if command.Stop? then old(timer.deadline) else now + timer.period)
        && timer.served == old(timer.served)
    {
      var timer := command.timer;
      hide Without, Linked, Distinct;
      DistinctActive();
      WithoutMembers(active, timer);
      if timer.active { Remove(timer); }
      if !command.Stop? {
        if command.ChangePeriod? { timer.period := command.period; }
        timer.expiryTick := Wrap(tick + timer.period);
        timer.deadline := now + timer.period;
        WrapAdd(now, timer.period);
        Insert(timer);
      }
    }

    /** Serves the due timer `timer` once: its callback only queues commands, so it is
        inactive when the callback returns. */
    method ServeOne(timer: Timer, ghost now: nat)
      requires Valid() && timer in registry && timer in active && timer.deadline <= now
      modifies this`activeTimers, this`active, registry`nextActive, timer
      ensures Valid() && timer.State() == ServedOnce(old(timer.State()))
      ensures active == (if timer.autoReload then [timer] else []) + Without(old(active), timer)
    {
      hide Without, Linked, Distinct;
      DistinctActive();
      WithoutMembers(active, timer);
      var previousExpiry := timer.expiryTick;
      Remove(timer);
      timer.served := timer.served + [timer.deadline];
      if timer.autoReload && !timer.active {
        WrapAdd(timer.deadline, timer.period);
        timer.expiryTick := Wrap(previousExpiry + timer.period);
        timer.deadline := timer.deadline + timer.period;
        Insert(timer);
      }
    }

    lemma StateAt(timer: Timer) returns (k: nat)
      requires Valid() && timer in active
      ensures k < |active| && active[k] == timer && timer in registry && Distinct(active)
      ensures Without(active, timer) == active[..k] + active[k + 1..]
    {
      k :| k < |active| && active[k] == timer;
      WithoutAt(active, k);
    }

    /** The values of the listed timers. */
    ghost function StatesOf(list: seq<Timer>): (r: seq<TimerState>)
      reads list
      ensures |r| == |list| && forall i {:trigger r[i]} {:trigger list[i]} :: 0 <= i < |list| ==> r[i] == list[i].State()
    {
      seq(|list|, i requires 0 <= i < |list| reads list => list[i].State())
    }

    lemma StatesCut(list: seq<Timer>, k: nat)
      requires k < |list|
      ensures StatesOf(list[..k] + list[k + 1..]) == StatesOf(list)[..k] + StatesOf(list)[k + 1..]
    {
    }

    twostate lemma StatesSame(list: seq<Timer>)
      requires forall i {:trigger list[i]} :: 0 <= i < |list| ==> allocated(list[i]) && old(allocated(list[i]))
      requires forall i {:trigger list[i]} :: 0 <= i < |list| ==> list[i].State() == old(list[i].State())
      ensures StatesOf(list) == old(StatesOf(list))
    {
    }

    lemma StatesFirst(timer: Timer, list: seq<Timer>)
      ensures StatesOf([timer] + list) == [timer.State()] + StatesOf(list)
    {
    }

    /** As the clock goes from `now` to `limit`, every active deadline stays in range. */
    ghost predicate Within(now: nat, limit: nat)
      reads this, registry
    {
      forall t {:trigger t in registry} :: t in registry && t.active ==> limit - HALF_RANGE <= t.deadline < now + HALF_RANGE
    }

    /** One round of the drain, at the clock's reading `tick`. */
    method ServeDue(tick: Tick, ghost now: nat, ghost limit: nat) returns (served: Timer?)
      requires Valid() && tick == Wrap(now) && now <= limit && Within(now, limit)
      modifies this`activeTimers, this`active, registry
      ensures Valid() && Within(now, limit) && registry == old(registry)
      ensures served == null ==> forall t {:trigger t in registry} :: t in registry && t.active ==> now < t.deadline
      ensures served != null ==>
        && served in registry && old(served.active) && old(served.deadline) <= now && old(served.period) > 0
        && served.State() == ServedOnce(old(served.State()))
        && Work(StatesOf(active), limit) < old(Work(StatesOf(active), limit))
      ensures forall t {:trigger t in registry} :: t in registry && t != served ==> t.State() == old(t.State())
    {
      hide Linked, Without, Distinct, Work, Pending, Drained, SameDrains, Head;
      served := FindDue(tick, now);
      if served == null { return; }
      ghost var k := StateAt(served);
      ghost var before, cut := StatesOf(active), active[..k] + active[k + 1..];
      StatesCut(active, k);
      WorkServed(before, k, limit);
      label Found:
      ServeOne(served, now);
      StatesSame@Found(cut);
      StatesFirst(served, cut);
      assert active == if served.active then [served] + cut else cut;
    }

    /** prvExpireDueTimers: each round reads the clock anew. While the clock does not pass
        `limit`, there are at most as many callbacks as are owed by then, and every timer
        ends as a drain at the last reading leaves it. */
    method ExpireDue(clock: seq<Tick>, ghost instants: seq<nat>, ghost limit: nat) returns (ghost last: nat)
      requires Valid() && |clock| == |instants| > Work(StatesOf(active), limit)
      requires forall i :: 0 <= i < |clock| ==> clock[i] == Wrap(instants[i]) && instants[i] <= limit
      requires forall i, j :: 0 <= i < j < |instants| ==> instants[i] <= instants[j]
      requires Within(instants[0], limit)
      modifies this`activeTimers, this`active, registry
      ensures Valid() && registry == old(registry) && last < |instants|
      ensures forall t {:trigger t in registry} :: t in registry ==>
        t.State() == Drained(old(t.State()), instants[last]) && (t.active ==> instants[last] < t.deadline)
    {
      hide Linked, Work, Drained, SameDrains, Pending, ServedOnce;
      forall t | t in registry ensures SameDrains(t.State(), t.State(), instants[0]) { SameDrainsSelf(t.State(), instants[0]); }
      last := 0;
      var round, more := 0, true;
      while more
        invariant Valid() && registry == old(registry) && last < |clock| && last <= round <= last + 1
        invariant Within(instants[last], limit)
        invariant more ==> round + Work(StatesOf(active), limit) < |instants|
        invariant !more ==> forall t {:trigger t in registry} :: t in registry && t.active ==> instants[last] < t.deadline
        invariant forall t {:trigger t in registry} :: t in registry ==> SameDrains(t.State(), old(t.State()), instants[last])
        decreases more, Work(StatesOf(active), limit)
      {
        label Round:
        var served := ServeDue(clock[round], instants[round], limit);
        forall t | t in registry ensures SameDrains(t.State(), old(t.State()), instants[round]) {
          if t == served { ServedOnceSame(old@Round(t.State()), instants[round]); }
          SameDrainsLater(t.State(), old@Round(t.State()), old(t.State()), instants[last], instants[round], t == served);
        }
        last := round;
        round := round + 1;
        more := served != null;
      }
      forall t | t in registry ensures t.State() == Drained(old(t.State()), instants[last]) {
        NothingOwed(t.State(), old(t.State()), instants[last]);
      }
    }

    lemma NothingOwed(t: TimerState, before: TimerState, now: nat)
      requires SameDrains(t, before, now) && (t.active ==> now < t.deadline)
      ensures t == Drained(before, now)
    {
      assert Drained(t, now) == t;
    }
  }
}
