/** The ticket lock that serializes write transactions: the mutex and condition variable protocol
    as steps of threads, its safety over every run and its liveness over every fair infinite run.
    Each critical section is one step; waiting on the condition variable releases the mutex and
    falls asleep in that same step; the notification after a release is a step of its own. */
module Turnstile {

  type Tid = nat

  /** Where a thread is. `Releasing`: it has advanced `serving` and still owes the `notify_all`. */
  datatype Thread = Out | Asleep(mine: nat) | Awake(mine: nat) | Holding(mine: nat) | Releasing

  /** `drawn` and `granted` are history: who drew ticket 0, 1, 2, ..., and whose turns were granted,
      in order. */
  datatype State = State(next: nat, serving: nat, threads: map<Tid, Thread>, drawn: seq<Tid>, granted: seq<Tid>)

  /** `Draw`: an idle thread calls `acquire`. `Act`: a thread does the next thing it is about to
      do; asleep or idle that is nothing. `Spurious`: a sleeper wakes for no reason. */
  datatype Event = Draw(t: Tid) | Act(t: Tid) | Spurious(t: Tid)

  ghost predicate Init(s: State) {
    && s.next == 0 && s.serving == 0 && s.drawn == [] && s.granted == []
    && forall t :: t in s.threads ==> s.threads[t] == Out
  }

  function Put(s: State, t: Tid, th: Thread): State {
    s.(threads := s.threads[t := th])
  }

  /** Take the next ticket. */
  function Take(s: State, t: Tid): State {
    Put(s, t, Awake(s.next)).(next := s.next + 1, drawn := s.drawn + [t])
  }

  /** Under the mutex: take the turn if it is this ticket's, else go to sleep. */
  function Check(s: State, t: Tid, mine: nat): State {
    if s.serving == mine then Put(s, t, Holding(mine)).(granted := s.granted + [t])
    else Put(s, t, Asleep(mine))
  }

  function Release(s: State, t: Tid): State {
    Put(s, t, Releasing).(serving := s.serving + 1)
  }

  function Notify(s: State, t: Tid): State {
    s.(threads := NotifyAll(s.threads)[t := Out])
  }

  function NotifyAll(threads: map<Tid, Thread>): map<Tid, Thread> {
    map t | t in threads :: if threads[t].Asleep? then Awake(threads[t].mine) else threads[t]
  }

  function Next(s: State, e: Event): State {
    if e.t !in s.threads then s
    else
      var th := s.threads[e.t];
      match e
      case Draw(t) => if th.Out? then Check(Take(s, t), t, s.next) else s
      case Spurious(t) => if th.Asleep? then Put(s, t, Awake(th.mine)) else s
      case Act(t) =>
        match th
        case Out => s
        case Asleep(_) => s
        case Awake(mine) => Check(s, t, mine)
        case Holding(_) => Release(s, t)
        case Releasing => Notify(s, t)
  }

  // ---- Safety -----------------------------------------------------------------------------------

  predicate HasTicket(th: Thread) { th.Asleep? || th.Awake? || th.Holding? }

  ghost predicate Owns(s: State, t: Tid, ticket: nat) {
    t in s.threads && HasTicket(s.threads[t]) && s.threads[t].mine == ticket
  }

  /** The outstanding tickets are exactly those from `serving` up to `next`, each still owned by the
      thread that drew it, which owns no other. */
  ghost predicate Ticketed(s: State) {
    && s.serving <= s.next == |s.drawn|
    && (forall k :: s.serving <= k < s.next ==> Owns(s, s.drawn[k], k))
    && (forall t :: t in s.threads && HasTicket(s.threads[t]) ==>
          s.serving <= s.threads[t].mine < s.next && s.drawn[s.threads[t].mine] == t)
  }

  ghost predicate IsReleasing(s: State, t: Tid) {
    t in s.threads && s.threads[t].Releasing?
  }

  ghost predicate IsHolding(s: State, t: Tid) {
    t in s.threads && s.threads[t].Holding?
  }

  /** Turns were granted in ticket order; the one not given back, if any, is held with the ticket
      being served. */
  ghost predicate Granted(s: State) {
    && s.next == |s.drawn|
    && s.serving <= |s.granted| <= s.serving + 1
    && s.granted <= s.drawn
    && forall t :: IsHolding(s, t) <==>
        && |s.granted| == s.serving + 1 && t == s.granted[s.serving]
        && t in s.threads && s.threads[t] == Holding(s.serving)
  }

  /** The owner of the ticket being served never sleeps without a wake-up on its way. */
  ghost predicate WakeupPending(s: State) {
    forall t :: t in s.threads && s.threads[t] == Asleep(s.serving) ==> exists r :: IsReleasing(s, r)
  }

  /** A granted turn is held until `serving` moves. */
  ghost predicate Held(s: State) {
    |s.granted| == s.serving + 1 ==> IsHolding(s, s.granted[s.serving])
  }

  ghost predicate Inv(s: State) { Ticketed(s) && Granted(s) && Held(s) && WakeupPending(s) }

  /** At most one thread holds the turn, and it is the one that drew the ticket being served. */
  lemma MutualExclusion(s: State, t: Tid, u: Tid)
    requires Inv(s)
    requires IsHolding(s, t) && IsHolding(s, u)
    ensures t == u == s.drawn[s.serving]
  {
  }

  lemma InitInv(s: State)
    requires Init(s)
    ensures Inv(s)
  {
  }

  lemma CheckKeepsInv(s: State, t: Tid, mine: nat)
    requires t in s.threads && s.threads[t] == Awake(mine) && Inv(s)
    ensures Inv(Check(s, t, mine))
  {
    var s' := Check(s, t, mine);
    assert Ticketed(s') by {
      forall k | s'.serving <= k < s'.next ensures Owns(s', s'.drawn[k], k) {
        assert Owns(s, s.drawn[k], k);
      }
    }
    CheckKeepsGranted(s, t, mine);
    CheckKeepsWakeup(s, t, mine);
  }

  lemma CheckKeepsGranted(s: State, t: Tid, mine: nat)
    requires t in s.threads && s.threads[t] == Awake(mine) && Ticketed(s) && Granted(s) && Held(s)
    ensures Granted(Check(s, t, mine)) && Held(Check(s, t, mine))
  {
    var s' := Check(s, t, mine);
    assert s.drawn[mine] == t && !IsHolding(s, t);
    forall u | u != t ensures IsHolding(s', u) <==> IsHolding(s, u) {}
    if s.serving == mine {
      assert !IsHolding(s, s.drawn[mine]);
      assert |s.granted| == s.serving;
      assert s'.granted == s.drawn[..s.serving + 1];
      assert IsHolding(s', t);
    } else {
      assert !IsHolding(s', t);
    }
  }

  /** A turn that is refused while its ticket is not being served leaves every wake-up pending. */
  lemma CheckKeepsWakeup(s: State, t: Tid, mine: nat)
    requires t in s.threads && s.threads[t] == Awake(mine) && WakeupPending(s)
    ensures WakeupPending(Check(s, t, mine))
  {
    OthersKeepWakeup(s, Check(s, t, mine), t);
  }

  /** Changing one thread that owes no notification, without putting it to sleep on the ticket being
      served, leaves every wake-up pending. */
  lemma OthersKeepWakeup(s: State, s': State, t: Tid)
    requires WakeupPending(s) && s'.serving == s.serving && s'.threads.Keys == s.threads.Keys
    requires forall u :: u in s.threads && u != t ==> s'.threads[u] == s.threads[u]
    requires !IsReleasing(s, t) && (t in s.threads ==> s'.threads[t] != Asleep(s'.serving))
    ensures WakeupPending(s')
  {
    forall u | u in s'.threads && s'.threads[u] == Asleep(s'.serving)
      ensures exists r :: IsReleasing(s', r)
    {
      assert s.threads[u] == Asleep(s.serving);
      var r :| IsReleasing(s, r);
      assert IsReleasing(s', r);
    }
  }

  /** Drawing a ticket, up to the check that follows it under the same lock. */
  lemma TakeKeepsInv(s: State, t: Tid)
    requires t in s.threads && s.threads[t].Out? && Inv(s)
    ensures Inv(Take(s, t))
  {
    var s' := Take(s, t);
    assert Ticketed(s') by {
      forall k | s'.serving <= k < s'.next ensures Owns(s', s'.drawn[k], k) {
        if k < s.next { assert Owns(s, s.drawn[k], k); }
      }
    }
    forall u ensures IsHolding(s', u) <==> IsHolding(s, u) {}
    OthersKeepWakeup(s, s', t);
  }

  lemma SpuriousKeepsInv(s: State, t: Tid)
    requires t in s.threads && s.threads[t].Asleep? && Inv(s)
    ensures Inv(Put(s, t, Awake(s.threads[t].mine)))
  {
    var s' := Put(s, t, Awake(s.threads[t].mine));
    assert Ticketed(s') by {
      forall k | s'.serving <= k < s'.next ensures Owns(s', s'.drawn[k], k) {
        assert Owns(s, s.drawn[k], k);
      }
    }
    forall u ensures IsHolding(s', u) <==> IsHolding(s, u) {}
    OthersKeepWakeup(s, s', t);
  }

  lemma ReleaseKeepsInv(s: State, t: Tid)
    requires t in s.threads && s.threads[t].Holding? && Inv(s)
    ensures Inv(Release(s, t))
  {
    var s' := Release(s, t);
    assert IsHolding(s, t);
    assert Ticketed(s') by {
      forall k | s'.serving <= k < s'.next ensures Owns(s', s'.drawn[k], k) {
        assert Owns(s, s.drawn[k], k) && Owns(s, s.drawn[s.serving], s.serving);
      }
    }
    forall u ensures !IsHolding(s', u) {
      assert u != t ==> !IsHolding(s, u);
    }
    assert IsReleasing(s', t);
  }

  lemma NotifyKeepsInv(s: State, t: Tid)
    requires t in s.threads && s.threads[t].Releasing? && Inv(s)
    ensures Inv(Notify(s, t))
  {
    var s' := Notify(s, t);
    assert Ticketed(s') by {
      forall k | s'.serving <= k < s'.next ensures Owns(s', s'.drawn[k], k) {
        assert Owns(s, s.drawn[k], k);
      }
    }
    forall u ensures IsHolding(s', u) <==> IsHolding(s, u) {}
  }

  /** A sleeper may wake for no reason. It then checks again: with its ticket being served it takes the turn,
      else it is back asleep and nothing has changed. */
  lemma SpuriousWakeupsAreHarmless(s: State, t: Tid)
    requires t in s.threads && s.threads[t].Asleep?
    ensures var mine, s' := s.threads[t].mine, Next(Next(s, Spurious(t)), Act(t));
            && Next(s, Spurious(t)).threads[t] == Awake(mine)
            && if mine == s.serving then s' == s.(threads := s.threads[t := Holding(mine)], granted := s.granted + [t])
               else s' == s
  {
    var back := s.threads[t := Awake(s.threads[t].mine)][t := s.threads[t]];
    assert back == s.threads;
  }

  /** Every step of every thread keeps mutual exclusion, ticket order and the pending wake-up. */
  lemma StepKeepsInv(s: State, e: Event)
    requires Inv(s)
    ensures Inv(Next(s, e))
  {
    hide Inv, Take, Check, Release, Notify, Put;
    if e.t in s.threads {
      var th := s.threads[e.t];
      match e
      case Draw(t) =>
        if th.Out? {
          TakeKeepsInv(s, t);
          TakeIsAwake(s, t);
          CheckKeepsInv(Take(s, t), t, s.next);
        }
      case Spurious(t) => if th.Asleep? { SpuriousKeepsInv(s, t); }
      case Act(t) =>
        match th
        case Awake(mine) => CheckKeepsInv(s, t, mine);
        case Holding(_) => ReleaseKeepsInv(s, t);
        case Releasing => NotifyKeepsInv(s, t);
        case _ =>
    }
  }

  lemma TakeIsAwake(s: State, t: Tid)
    ensures t in Take(s, t).threads && Take(s, t).threads[t] == Awake(s.next)
  {
  }

  /** Turns go out strictly first come, first served: a step that grants a turn grants it to the
      thread that drew the lowest ticket not granted so far, and only when nobody holds one. */
  lemma GrantsInTicketOrder(s: State, e: Event)
    requires Inv(s) && Next(s, e).granted != s.granted
    ensures var s' := Next(s, e); var k := |s.granted|;
            && k < |s'.drawn| && s'.granted == s.granted + [s'.drawn[k]]
            && IsHolding(s', s'.drawn[k]) && s'.threads[s'.drawn[k]] == Holding(k)
            && forall t :: !IsHolding(s, t)
  {
    assert e.t in s.threads;
    if s.threads[e.t].Awake? {
      assert Owns(s, s.drawn[s.serving], s.serving);
    }
  }

  // ---- How many wait ------------------------------------------------------------------------------

  ghost function OwnersFrom(s: State, k: nat): set<Tid> {
    set t | t in s.threads && HasTicket(s.threads[t]) && s.threads[t].mine >= k
  }

  lemma {:induction false} CountOwners(s: State, k: nat)
    requires Ticketed(s) && s.serving <= k <= s.next
    ensures |OwnersFrom(s, k)| == s.next - k
    decreases s.next - k
  {
    if k == s.next {
      assert OwnersFrom(s, k) == {};
    } else {
      var t := s.drawn[k];
      assert Owns(s, t, k);
      CountOwners(s, k + 1);
      assert OwnersFrom(s, k) == OwnersFrom(s, k + 1) + {t};
    }
  }

  /** `waiting` counts the threads with a ticket, less the one whose turn it is. */
  lemma WaitingCountsThreads(s: State)
    requires Inv(s)
    ensures var owners := set t | t in s.threads && HasTicket(s.threads[t]);
            s.next - s.serving == |owners|
  {
    CountOwners(s, s.serving);
    assert OwnersFrom(s, s.serving) == set t | t in s.threads && HasTicket(s.threads[t]);
  }

  // ---- Liveness -------------------------------------------------------------------------------------

  /** An infinite run under a schedule. */
  ghost predicate IsRun(run: nat -> State, sched: nat -> Event) {
    && Init(run(0))
    && forall n: nat :: run(n + 1) == Next(run(n), sched(n))
  }

  ghost predicate ActsAfter(sched: nat -> Event, t: Tid, n: nat) {
    exists m: nat :: n <= m && sched(m) == Act(t)
  }

  /** Every thread is scheduled again and again; in particular a holder releases eventually. */
  ghost predicate Fair(run: nat -> State, sched: nat -> Event) {
    forall t, n: nat :: t in run(0).threads ==> ActsAfter(sched, t, n)
  }

  lemma {:induction false} RunInv(run: nat -> State, sched: nat -> Event, n: nat)
    requires IsRun(run, sched)
    ensures Inv(run(n)) && run(n).threads.Keys == run(0).threads.Keys
    decreases n
  {
    if n == 0 {
      InitInv(run(0));
    } else {
      RunInv(run, sched, n - 1);
      StepKeepsInv(run(n - 1), sched(n - 1));
      assert run(n - 1 + 1) == Next(run(n - 1), sched(n - 1));
    }
  }

  /** At every moment of every run at most one thread holds the turn, and the turns given out so far
      went to the threads in the order in which they drew their tickets. */
  lemma TurnsGoOutInTicketOrder(run: nat -> State, sched: nat -> Event, n: nat, t: Tid, u: Tid)
    requires IsRun(run, sched)
    ensures run(n).granted <= run(n).drawn
    ensures IsHolding(run(n), t) && IsHolding(run(n), u) ==> t == u
  {
    RunInv(run, sched, n);
  }

  /** The first time from `n` on that `t` acts, given some time `m` that it does. */
  ghost function FirstAct(sched: nat -> Event, t: Tid, n: nat, m: nat): (k: nat)
    requires n <= m && sched(m) == Act(t)
    ensures n <= k <= m && sched(k) == Act(t)
    ensures forall j :: n <= j < k ==> sched(j) != Act(t)
    decreases m - n
  {
    if sched(n) == Act(t) then n else FirstAct(sched, t, n + 1, m)
  }

  ghost function NextAct(run: nat -> State, sched: nat -> Event, t: Tid, n: nat): (k: nat)
    requires Fair(run, sched) && t in run(0).threads
    ensures n <= k && sched(k) == Act(t)
    ensures forall j :: n <= j < k ==> sched(j) != Act(t)
  {
    assert ActsAfter(sched, t, n);
    var m: nat :| n <= m && sched(m) == Act(t);
    FirstAct(sched, t, n, m)
  }

  /** Until it acts itself, an awake thread stays awake, a holder keeps the turn and a thread that
      owes a notification keeps owing it. */
  lemma {:induction false} StaysUntilItActs(run: nat -> State, sched: nat -> Event, t: Tid, n: nat, k: nat)
    requires IsRun(run, sched) && n <= k && t in run(n).threads
    requires run(n).threads[t].Awake? || run(n).threads[t].Holding? || run(n).threads[t].Releasing?
    requires forall j :: n <= j < k ==> sched(j) != Act(t)
    ensures t in run(k).threads && run(k).threads[t] == run(n).threads[t]
    decreases k - n
  {
    if n < k {
      StaysUntilItActs(run, sched, t, n, k - 1);
      assert run(k - 1 + 1) == Next(run(k - 1), sched(k - 1));
    }
  }

  lemma ServingWaitsStep(s: State, e: Event, t: Tid)
    requires Inv(s) && Owns(s, t, s.serving) && !(e == Act(t) && IsHolding(s, t))
    ensures Next(s, e).serving == s.serving && Owns(Next(s, e), t, s.serving)
  {
    if e.t in s.threads && s.threads[e.t].Holding? {
      assert IsHolding(s, e.t);
    }
  }

  /** While a thread owns the ticket being served, only its own release moves `serving`. */
  lemma {:induction false} ServingWaits(run: nat -> State, sched: nat -> Event, t: Tid, n: nat, k: nat)
    requires IsRun(run, sched) && n <= k && Owns(run(n), t, run(n).serving)
    requires forall j :: n <= j < k ==> !(sched(j) == Act(t) && IsHolding(run(j), t))
    ensures run(k).serving == run(n).serving && Owns(run(k), t, run(n).serving)
    decreases k - n
  {
    hide Inv, Next, Owns, IsHolding;
    if n < k {
      ServingWaits(run, sched, t, n, k - 1);
      RunInv(run, sched, k - 1);
      ServingWaitsStep(run(k - 1), sched(k - 1), t);
      assert run(k - 1 + 1) == Next(run(k - 1), sched(k - 1));
    }
  }

  /** An awake owner of the ticket being served takes the turn. */
  lemma AwakeGetsTurn(run: nat -> State, sched: nat -> Event, t: Tid, n: nat) returns (k: nat)
    requires IsRun(run, sched) && Fair(run, sched)
    requires t in run(n).threads && run(n).threads[t] == Awake(run(n).serving)
    ensures n <= k && t in run(k).threads && run(k).threads[t] == Holding(run(n).serving)
    ensures run(k).serving == run(n).serving
  {
    RunInv(run, sched, n);
    var a := NextAct(run, sched, t, n);
    StaysUntilItActs(run, sched, t, n, a);
    assert Owns(run(n), t, run(n).serving);
    ServingWaits(run, sched, t, n, a);
    k := a + 1;
    assert run(a + 1) == Next(run(a), sched(a));
  }

  /** A sleeping owner of the ticket being served is woken: the owed notification arrives. */
  lemma SleeperIsWoken(run: nat -> State, sched: nat -> Event, t: Tid, n: nat) returns (k: nat)
    requires IsRun(run, sched) && Fair(run, sched)
    requires t in run(n).threads && run(n).threads[t] == Asleep(run(n).serving)
    ensures n <= k && t in run(k).threads
    ensures run(k).threads[t] == Awake(run(n).serving) || run(k).threads[t] == Holding(run(n).serving)
    ensures run(k).serving == run(n).serving
  {
    RunInv(run, sched, n);
    var r :| IsReleasing(run(n), r);
    var a := NextAct(run, sched, r, n);
    StaysUntilItActs(run, sched, r, n, a);
    assert Owns(run(n), t, run(n).serving);
    k := AsleepOrNot(run, sched, t, n, a);
    if k == a && run(a).threads[t].Asleep? {
      k := a + 1;
      assert run(a + 1) == Next(run(a), sched(a));
    }
  }

  /** From `n` to `a`, either the sleeper still sleeps at `a` or it was awake some time before. */
  lemma {:induction false} AsleepOrNot(run: nat -> State, sched: nat -> Event, t: Tid, n: nat, a: nat)
    returns (k: nat)
    requires IsRun(run, sched) && n <= a
    requires t in run(n).threads && run(n).threads[t] == Asleep(run(n).serving)
    ensures n <= k <= a && t in run(k).threads && run(k).serving == run(n).serving
    ensures run(k).threads[t] == Asleep(run(n).serving) ==> k == a
    ensures run(k).threads[t] != Asleep(run(n).serving) ==> run(k).threads[t] == Awake(run(n).serving)
    decreases a - n
  {
    k := n;
    if n < a {
      RunInv(run, sched, n);
      assert run(n + 1) == Next(run(n), sched(n));
      assert Owns(run(n), t, run(n).serving);
      if run(n + 1).threads[t].Asleep? {
        k := AsleepOrNot(run, sched, t, n + 1, a);
      } else {
        k := n + 1;
      }
    }
  }

  /** The owner of the ticket being served gets the turn. */
  lemma OwnerGetsTurn(run: nat -> State, sched: nat -> Event, t: Tid, n: nat) returns (k: nat)
    requires IsRun(run, sched) && Fair(run, sched) && Owns(run(n), t, run(n).serving)
    ensures n <= k && t in run(k).threads && run(k).threads[t] == Holding(run(n).serving)
    ensures run(k).serving == run(n).serving
  {
    k := n;
    if run(k).threads[t].Asleep? {
      k := SleeperIsWoken(run, sched, t, k);
    }
    if run(k).threads[t].Awake? {
      k := AwakeGetsTurn(run, sched, t, k);
    }
  }

  /** While there are tickets, `serving` advances. */
  lemma ServingAdvances(run: nat -> State, sched: nat -> Event, n: nat) returns (k: nat)
    requires IsRun(run, sched) && Fair(run, sched) && run(n).serving < run(n).next
    ensures n <= k && run(k).serving == run(n).serving + 1
  {
    RunInv(run, sched, n);
    var t := run(n).drawn[run(n).serving];
    assert Owns(run(n), t, run(n).serving);
    var h := OwnerGetsTurn(run, sched, t, n);
    RunInv(run, sched, h);
    var a := NextAct(run, sched, t, h);
    StaysUntilItActs(run, sched, t, h, a);
    ServingWaits(run, sched, t, h, a);
    k := a + 1;
    assert run(a + 1) == Next(run(a), sched(a));
  }

  /** A ticket stays its owner's until it is served. */
  lemma {:induction false} TicketIsKept(run: nat -> State, sched: nat -> Event, t: Tid, mine: nat, n: nat, k: nat)
    requires IsRun(run, sched) && n <= k && Owns(run(n), t, mine) && run(k).serving <= mine
    ensures Owns(run(k), t, mine)
    decreases k - n
  {
    if n < k {
      assert run(k - 1 + 1) == Next(run(k - 1), sched(k - 1));
      TicketIsKept(run, sched, t, mine, n, k - 1);
      RunInv(run, sched, k - 1);
    }
  }

  /** No waiter starves: in every fair run, every thread that draws a ticket is granted the turn
      with that ticket. */
  lemma {:induction false} EveryTicketIsServed(run: nat -> State, sched: nat -> Event, t: Tid, mine: nat, n: nat)
    returns (k: nat)
    requires IsRun(run, sched) && Fair(run, sched) && Owns(run(n), t, mine)
    ensures n <= k && t in run(k).threads && run(k).threads[t] == Holding(mine)
    decreases mine - run(n).serving
  {
    RunInv(run, sched, n);
    if mine == run(n).serving {
      k := OwnerGetsTurn(run, sched, t, n);
    } else {
      var m := ServingAdvances(run, sched, n);
      TicketIsKept(run, sched, t, mine, n, m);
      k := EveryTicketIsServed(run, sched, t, mine, m);
    }
  }

  // ---- The counters under the mutex -------------------------------------------------------------------

  /** The two counters, and the critical sections of `acquire`, of the guard's drop and of
      `waiting`. The ghost `st` says where the threads are. */
  class WriteTurnstile {
    var next: nat
    var serving: nat
    ghost var st: State

    ghost predicate Valid()
      reads this
    {
      st.next == next && st.serving == serving && Inv(st)
    }

    constructor (ghost threads: set<Tid>)
      ensures Valid() && Init(st) && st.threads.Keys == threads
    {
      next, serving := 0, 0;
      st := State(0, 0, map t | t in threads :: Out, [], []);
    }

    /** The first critical section of `acquire`: draw a ticket, and wait unless it is served. */
    method DrawTicket(ghost t: Tid) returns (mine: nat, granted: bool)
      requires Valid() && t in st.threads && st.threads[t].Out?
      modifies this
      ensures Valid() && st == Next(old(st), Draw(t))
      ensures mine == old(next) && next == old(next) + 1 && serving == old(serving)
      ensures granted <==> serving == mine
      ensures st.threads[t] == if granted then Holding(mine) else Asleep(mine)
    {
      StepKeepsInv(st, Draw(t));
      mine := next;
      next := next + 1;
      granted := serving == mine;
      st := Next(st, Draw(t));
    }

    /** Back under the mutex after a wake-up: the condition is checked again. */
    method Recheck(ghost t: Tid, mine: nat) returns (granted: bool)
      requires Valid() && t in st.threads && st.threads[t] == Awake(mine)
      modifies this`st
      ensures Valid() && st == Next(old(st), Act(t))
      ensures granted <==> serving == mine
      ensures st.threads[t] == if granted then Holding(mine) else Asleep(mine)
    {
      StepKeepsInv(st, Act(t));
      granted := serving == mine;
      st := Next(st, Act(t));
    }

    /** The critical section of the guard's drop. */
    method Advance(ghost t: Tid)
      requires Valid() && t in st.threads && st.threads[t].Holding?
      modifies this
      ensures Valid() && st == Next(old(st), Act(t))
      ensures serving == old(serving) + 1 && next == old(next)
      ensures forall u :: !IsHolding(st, u)
    {
      StepKeepsInv(st, Act(t));
      serving := serving + 1;
      st := Next(st, Act(t));
    }

    /** Tickets drawn and not served, behind the one whose turn it is. */
    method Waiting() returns (n: nat)
      requires Valid()
      ensures var owners := set t | t in st.threads && HasTicket(st.threads[t]);
              n == if |owners| == 0 then 0 else |owners| - 1
    {
      WaitingCountsThreads(st);
      var unreleased := next - serving;
      n := if unreleased < 1 then 0 else unreleased - 1;
    }
  }
}
