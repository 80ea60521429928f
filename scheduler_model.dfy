/** The dispatch engine of process.py on values: a snapshot of every worker,
    the two dispatch policies, one dispatch followed by the chosen worker's
    wake-up as a single atomic step, and a whole run of the scheduler loop.
    The classes in module Process are proved to follow these functions. */
module SchedulerModel {
  import opened Common

  /** What the engine sees of one worker. `busy` is the worker's cell of the
      shared busy table; `admission` is open while its admission lock is
      released; `handshake` is true while its handshake lock is held; `runs`
      counts the calls of its work function. */
  datatype Slot = Slot(pending: int, busy: bool, running: bool, terminated: bool,
                       admission: bool, handshake: bool, runs: nat)

  /** A policy either chooses a worker (and the cursor for the next call) or,
      on a frozen snapshot, would spin forever. */
  datatype Pick = Chosen(cursor: nat, index: nat) | Blocked

  datatype Policy = RoundRobin | Fifo

  /** Stuck stands for a scheduler loop that spins forever with `remaining`
      dispatches still owed. */
  datatype Outcome = Completed | Stuck(remaining: nat)

  /** The final snapshot, the final cursor, how the loop ended and the indices
      of the workers dispatched, in order. */
  datatype RunResult = RunResult(state: seq<Slot>, cursor: nat, outcome: Outcome, trace: seq<nat>)

  /** links[i] is the index of the worker whose pending counter worker i
      increments after each unit of work (its downstream), if any. */
  predicate LinksOk(s: seq<Slot>, links: seq<Option<nat>>)
  {
    |links| == |s| && forall i :: 0 <= i < |links| && links[i].Some? ==> links[i].value < |s|
  }

  /** `(cursor + 1) % n` for a cursor in range. */
  function Next(c: nat, n: nat): (r: nat)
    requires c < n
    ensures r < n
  {
    if c + 1 == n then 0 else c + 1
  }

  lemma NextIsMod(c: nat, n: nat)
    requires c < n
    ensures Next(c, n) == (c + 1) % n
  {
    if c + 1 < n {
      assert (c + 1) / n == 0;
    } else {
      assert (c + 1) / n == 1;
    }
  }

  /** The position d steps after c in cyclic order. */
  function Offset(c: nat, d: nat, n: nat): (r: nat)
    requires c < n && d < n
    ensures r < n
  {
    if c + d < n then c + d else c + d - n
  }

  lemma OffsetCovers(c: nat, i: nat, n: nat)
    requires c < n && i < n
    ensures exists d :: 0 <= d < n && Offset(c, d, n) == i
  {
    var d := if i >= c then i - c else i + n - c;
    assert Offset(c, d, n) == i;
  }

  // ---------------------------------------------------------------- policies

  /** `tasks_waiting.value and not is_busy()`: a nonzero counter and a clear busy cell. */
  predicate Eligible(w: Slot)
  {
    w.pending != 0 && !w.busy
  }

  /** round_robin: probe only the cursor's worker; choose it when eligible and
      advance the cursor by one. */
  function RoundRobinChoice(s: seq<Slot>, cursor: nat): (p: Pick)
    requires cursor < |s|
    ensures p.Chosen? ==> p.cursor < |s| && p.index < |s|
  {
    if Eligible(s[cursor]) then Chosen(Next(cursor, |s|), cursor) else Blocked
  }

  /** fifo, from the d-th probe on: skip workers with nothing pending; at the
      first one with pending work choose it if it is not busy and otherwise
      spin on it. After |s| skips every worker was seen idle, and on a frozen
      snapshot the scan would go round for ever. */
  function FifoFrom(s: seq<Slot>, cursor: nat, d: nat): (p: Pick)
    requires cursor < |s| && d <= |s|
    ensures p.Chosen? ==> p.cursor < |s| && p.index < |s|
    decreases |s| - d
  {
    if d == |s| then Blocked
    else
      var i := Offset(cursor, d, |s|);
      if s[i].pending == 0 then FifoFrom(s, cursor, d + 1)
      else if !s[i].busy then Chosen(i, i)
      else Blocked
  }

  function FifoChoice(s: seq<Slot>, cursor: nat): (p: Pick)
    requires cursor < |s|
    ensures p.Chosen? ==> p.cursor < |s| && p.index < |s|
  {
    FifoFrom(s, cursor, 0)
  }

  function Choose(policy: Policy, s: seq<Slot>, cursor: nat): (p: Pick)
    requires cursor < |s|
    ensures p.Chosen? ==> p.cursor < |s| && p.index < |s|
  {
    match policy
    case RoundRobin => RoundRobinChoice(s, cursor)
    case Fifo => FifoChoice(s, cursor)
  }

  /** The worker d probes after the cursor. */
  function At(s: seq<Slot>, cursor: nat, d: nat): Slot
    requires cursor < |s| && d < |s|
  {
    s[Offset(cursor, d, |s|)]
  }

  /** Probe e (at or after probe d) is the first, in cyclic order from the
      cursor, that finds pending work. */
  predicate FirstPendingFrom(s: seq<Slot>, cursor: nat, d: nat, e: nat)
    requires cursor < |s|
  {
    d <= e < |s| && At(s, cursor, e).pending != 0 &&
    forall f :: d <= f < e ==> At(s, cursor, f).pending == 0
  }

  lemma FirstPendingUnique(s: seq<Slot>, cursor: nat, d: nat, e1: nat, e2: nat)
    requires cursor < |s|
    requires FirstPendingFrom(s, cursor, d, e1) && FirstPendingFrom(s, cursor, d, e2)
    ensures e1 == e2
  {
  }

  lemma {:induction false} FifoFromMeaning(s: seq<Slot>, cursor: nat, d: nat)
    requires cursor < |s| && d <= |s|
    ensures FifoFrom(s, cursor, d).Chosen? <==>
              exists e :: FirstPendingFrom(s, cursor, d, e) && !At(s, cursor, e).busy
    ensures forall e :: FirstPendingFrom(s, cursor, d, e) && !At(s, cursor, e).busy ==>
              FifoFrom(s, cursor, d) == Chosen(Offset(cursor, e, |s|), Offset(cursor, e, |s|))
    ensures FifoFrom(s, cursor, d).Blocked? <==>
              (forall f :: d <= f < |s| ==> At(s, cursor, f).pending == 0) ||
              (exists e :: FirstPendingFrom(s, cursor, d, e) && At(s, cursor, e).busy)
    decreases |s| - d
  {
    if d < |s| {
      FifoFromMeaning(s, cursor, d + 1);
      if At(s, cursor, d).pending == 0 {
        forall e | FirstPendingFrom(s, cursor, d, e) ensures FirstPendingFrom(s, cursor, d + 1, e) {
        }
        forall e | FirstPendingFrom(s, cursor, d + 1, e) ensures FirstPendingFrom(s, cursor, d, e) {
        }
      } else {
        assert FirstPendingFrom(s, cursor, d, d);
        forall e | FirstPendingFrom(s, cursor, d, e) ensures e == d {
          FirstPendingUnique(s, cursor, d, d, e);
        }
      }
    }
  }

  /** fifo chooses exactly the first worker, in cyclic order from the cursor,
      that has pending work, provided it is not busy; the cursor it returns is
      that worker's own index. It blocks exactly when every worker is idle or
      that first worker is busy. */
  lemma FifoChoiceMeaning(s: seq<Slot>, cursor: nat)
    requires cursor < |s|
    ensures FifoChoice(s, cursor).Chosen? <==>
              exists e :: FirstPendingFrom(s, cursor, 0, e) && !At(s, cursor, e).busy
    ensures forall e :: FirstPendingFrom(s, cursor, 0, e) && !At(s, cursor, e).busy ==>
              FifoChoice(s, cursor) == Chosen(Offset(cursor, e, |s|), Offset(cursor, e, |s|))
    ensures FifoChoice(s, cursor).Blocked? <==>
              (forall i :: 0 <= i < |s| ==> s[i].pending == 0) ||
              (exists e :: FirstPendingFrom(s, cursor, 0, e) && At(s, cursor, e).busy)
  {
    FifoFromMeaning(s, cursor, 0);
    if forall f :: 0 <= f < |s| ==> At(s, cursor, f).pending == 0 {
      forall i | 0 <= i < |s| ensures s[i].pending == 0 {
        OffsetCovers(cursor, i, |s|);
      }
    }
  }

  /** The worker either policy chooses has pending work and is not busy. */
  lemma ChosenIsEligible(policy: Policy, s: seq<Slot>, cursor: nat)
    requires cursor < |s|
    ensures Choose(policy, s, cursor).Chosen? ==> Eligible(s[Choose(policy, s, cursor).index])
  {
    if policy.Fifo? {
      FifoChoiceMeaning(s, cursor);
    }
  }

  /** With no busy worker, fifo blocks only when nothing is pending anywhere. */
  lemma FifoIdleWorkersNeverBlock(s: seq<Slot>, cursor: nat)
    requires cursor < |s|
    requires forall i :: 0 <= i < |s| ==> !s[i].busy
    ensures FifoChoice(s, cursor).Blocked? <==> forall i :: 0 <= i < |s| ==> s[i].pending == 0
  {
    FifoChoiceMeaning(s, cursor);
  }

  /** With nothing busy and some work pending, fifo chooses a worker that has
      pending work. */
  lemma FifoChoosesPending(s: seq<Slot>, cursor: nat)
    requires cursor < |s| && NonNegative(s)
    requires forall i :: 0 <= i < |s| ==> !s[i].busy
    requires exists i :: 0 <= i < |s| && s[i].pending > 0
    ensures FifoChoice(s, cursor).Chosen?
    ensures FifoChoice(s, cursor).cursor == FifoChoice(s, cursor).index
    ensures s[FifoChoice(s, cursor).index].pending > 0
  {
    FifoChoiceMeaning(s, cursor);
    FifoIdleWorkersNeverBlock(s, cursor);
    ChosenIsEligible(Fifo, s, cursor);
  }

  // ---------------------------------------------------- dispatch and wake-up

  /** Scheduler side of one dispatch: the handshake lock acquired by the
      policy's successful probe is recorded as held, the busy cell is set and
      the admission lock is released. */
  function Dispatch(s: seq<Slot>, j: nat): (t: seq<Slot>)
    requires j < |s|
  {
    s[j := s[j].(busy := true, admission := true, handshake := true)]
  }

  /** Worker side: one pass of do_work's loop after wait() returns. */
  function Wake(s: seq<Slot>, links: seq<Option<nat>>, j: nat): (t: seq<Slot>)
    requires LinksOk(s, links) && j < |s|
    ensures |t| == |s|
  {
    var w := s[j].(admission := false);
    if !w.running then s[j := w.(terminated := true)]
    else
      var t := s[j := w.(pending := w.pending - 1, handshake := false, runs := w.runs + 1)];
      var u := match links[j]
               case None => t
               case Some(d) => t[d := t[d].(pending := t[d].pending + 1)];
      u[j := u[j].(busy := false)]
  }

  /** A dispatch followed by the chosen worker's wake-up, as one transition. */
  function Step(s: seq<Slot>, links: seq<Option<nat>>, j: nat): (t: seq<Slot>)
    requires LinksOk(s, links) && j < |s|
    ensures |t| == |s| && LinksOk(t, links)
  {
    Wake(Dispatch(s, j), links, j)
  }

  /** stop(): clear `running` and release the admission lock. */
  function Stop(s: seq<Slot>, j: nat): (t: seq<Slot>)
    requires j < |s|
  {
    s[j := s[j].(running := false, admission := true)]
  }

  /** A running worker consumes exactly one pending unit, runs its work once,
      feeds its downstream worker one unit, and clears its busy cell; nothing
      else changes. */
  lemma WakeRunning(s: seq<Slot>, links: seq<Option<nat>>, j: nat)
    requires LinksOk(s, links) && j < |s| && s[j].running
    requires links[j] != Some(j)
    ensures var t := Wake(s, links, j);
      t[j].pending == s[j].pending - 1 && t[j].runs == s[j].runs + 1 &&
      !t[j].busy && !t[j].handshake && !t[j].admission && t[j].terminated == s[j].terminated &&
      (forall i :: 0 <= i < |s| && i != j && links[j] == Some(i) ==>
         t[i] == s[i].(pending := s[i].pending + 1)) &&
      (forall i :: 0 <= i < |s| && i != j && links[j] != Some(i) ==> t[i] == s[i])
  {
  }

  /** Wake, worker by worker: only the woken worker and its downstream
      worker change. */
  lemma WakeAt(s: seq<Slot>, links: seq<Option<nat>>, j: nat, i: nat)
    requires LinksOk(s, links) && j < |s| && i < |s|
    ensures var t := Wake(s, links, j);
      i == j && !s[j].running ==> t[i] == s[j].(admission := false, terminated := true)
    ensures var t := Wake(s, links, j);
      i == j && s[j].running ==>
        t[i] == s[j].(admission := false, handshake := false, busy := false, runs := s[j].runs + 1,
                      pending := s[j].pending - 1 + if links[j] == Some(j) then 1 else 0)
    ensures var t := Wake(s, links, j);
      i != j ==> t[i] == if s[j].running && links[j] == Some(i) then s[i].(pending := s[i].pending + 1) else s[i]
  {
  }

  /** After stop(), the next wake-up terminates the worker without consuming
      a unit or running its work; the other workers are untouched. */
  lemma StopThenWake(s: seq<Slot>, links: seq<Option<nat>>, j: nat)
    requires LinksOk(s, links) && j < |s|
    ensures var t := Wake(Stop(s, j), links, j);
      t[j].terminated && !t[j].running && !t[j].admission &&
      t[j].pending == s[j].pending && t[j].runs == s[j].runs && t[j].busy == s[j].busy &&
      forall i :: 0 <= i < |s| && i != j ==> t[i] == s[i]
  {
  }

  // ------------------------------------------------------------- whole runs

  function Pendings(s: seq<Slot>): (p: seq<int>)
    ensures |p| == |s| && forall i :: 0 <= i < |s| ==> p[i] == s[i].pending
  {
    seq(|s|, i requires 0 <= i < |s| => s[i].pending)
  }

  function PrefixSum(p: seq<int>, n: nat): int
    requires n <= |p|
  {
    if n == 0 then 0 else PrefixSum(p, n - 1) + p[n - 1]
  }

  function Sum(p: seq<int>): int
  {
    PrefixSum(p, |p|)
  }

  /** `sum(pending) * len(processes)`, the dispatch total schedule() computes. */
  function TotalDispatches(s: seq<Slot>): int
  {
    Sum(Pendings(s)) * |s|
  }

  /** The scheduler loop: while dispatches are owed, ask the policy, then
      dispatch the chosen worker and let it take its step. */
  function Run(s: seq<Slot>, links: seq<Option<nat>>, policy: Policy, cursor: nat, tasks: int): (r: RunResult)
    requires LinksOk(s, links) && (tasks > 0 ==> cursor < |s|)
    ensures |r.state| == |s|
    decreases tasks
  {
    if tasks <= 0 then RunResult(s, cursor, Completed, [])
    else match Choose(policy, s, cursor)
      case Blocked => RunResult(s, cursor, Stuck(tasks), [])
      case Chosen(c, j) =>
        var r := Run(Step(s, links, j), links, policy, c, tasks - 1);
        r.(trace := [j] + r.trace)
  }

  /** One pass of the scheduler loop: a chosen worker is dispatched and the loop goes on from the new cursor. */
  lemma RunUnfold(s: seq<Slot>, links: seq<Option<nat>>, policy: Policy, cursor: nat, tasks: int, c: nat, j: nat)
    requires LinksOk(s, links) && cursor < |s| && tasks > 0
    requires Choose(policy, s, cursor) == Chosen(c, j)
    ensures var rest := Run(Step(s, links, j), links, policy, c, tasks - 1);
      Run(s, links, policy, cursor, tasks) == rest.(trace := [j] + rest.trace)
  {
  }

  predicate NonNegative(s: seq<Slot>)
  {
    forall i :: 0 <= i < |s| ==> s[i].pending >= 0
  }

  /** Dispatching only a worker with pending work keeps every counter non-negative. */
  lemma StepKeepsNonNegative(s: seq<Slot>, links: seq<Option<nat>>, j: nat)
    requires LinksOk(s, links) && j < |s| && NonNegative(s) && s[j].pending != 0
    ensures NonNegative(Step(s, links, j))
  {
  }

  /** Under either policy, from any snapshot with non-negative counters, no
      pending counter ever goes negative; a completed run dispatched exactly
      the owed number of times, and a run only stops early when the policy
      would spin. */
  lemma {:induction false} RunKeepsNonNegative(s: seq<Slot>, links: seq<Option<nat>>, policy: Policy, cursor: nat, tasks: nat)
    requires LinksOk(s, links) && (tasks > 0 ==> cursor < |s|) && NonNegative(s)
    ensures var r := Run(s, links, policy, cursor, tasks);
      NonNegative(r.state) &&
      (r.outcome == Completed ==> |r.trace| == tasks) &&
      (r.outcome.Stuck? ==> r.outcome.remaining + |r.trace| == tasks && r.outcome.remaining > 0)
    decreases tasks
  {
    if tasks > 0 {
      match Choose(policy, s, cursor)
      case Blocked =>
      case Chosen(c, j) =>
        ChosenIsEligible(policy, s, cursor);
        StepKeepsNonNegative(s, links, j);
        RunKeepsNonNegative(Step(s, links, j), links, policy, c, tasks - 1);
    }
  }

  /** Round robin serves workers in strict cyclic order from the cursor. */
  lemma {:induction false} RoundRobinTraceCyclic(s: seq<Slot>, links: seq<Option<nat>>, cursor: nat, tasks: nat)
    requires LinksOk(s, links) && cursor < |s|
    ensures var r := Run(s, links, RoundRobin, cursor, tasks);
      (|r.trace| > 0 ==> r.trace[0] == cursor) &&
      (forall m :: 0 <= m < |r.trace| ==> r.trace[m] < |s|) &&
      (forall m :: 0 <= m < |r.trace| - 1 ==> r.trace[m + 1] == Next(r.trace[m], |s|))
    decreases tasks
  {
    if tasks > 0 && RoundRobinChoice(s, cursor).Chosen? {
      var t := Step(s, links, cursor);
      var c := Next(cursor, |s|);
      RoundRobinTraceCyclic(t, links, c, tasks - 1);
      var r' := Run(t, links, RoundRobin, c, tasks - 1);
      var r := Run(s, links, RoundRobin, cursor, tasks);
      assert r.trace == [cursor] + r'.trace;
      forall m | 0 <= m < |r.trace| - 1 ensures r.trace[m + 1] == Next(r.trace[m], |s|) {
        if m > 0 {
          assert r.trace[m] == r'.trace[m - 1] && r.trace[m + 1] == r'.trace[m];
        }
      }
    }
  }

  // ------------------------------------------------- the pipeline as a chain

  /** Worker i feeds worker i + 1; the last feeds nobody (main.py:43-52). */
  function ChainLinks(k: nat): (links: seq<Option<nat>>)
    ensures |links| == k
    ensures forall i :: 0 <= i < k ==> links[i] == if i + 1 < k then Some(i + 1) else None
  {
    seq(k, i requires 0 <= i < k => if i + 1 < k then Some(i + 1) else None)
  }

  /** Between dispatches: counters non-negative, nothing busy, nothing stopped,
      no handshake lock held. */
  predicate Ready(s: seq<Slot>)
  {
    forall i :: 0 <= i < |s| ==>
      s[i].pending >= 0 && !s[i].busy && s[i].running && !s[i].handshake
  }

  lemma {:induction false} PrefixSumUpdate(p: seq<int>, j: nat, v: int, n: nat)
    requires j < |p| && n <= |p|
    ensures PrefixSum(p[j := v], n) == PrefixSum(p, n) + (if j < n then v - p[j] else 0)
  {
    if n > 0 {
      PrefixSumUpdate(p, j, v, n - 1);
    }
  }

  /** The units still to pass through stage i of a chain: those pending at
      stages 0 to i. */
  function Through(p: seq<int>, i: nat): int
    requires i < |p|
  {
    PrefixSum(p, i + 1)
  }

  function ThroughSum(p: seq<int>, n: nat): int
    requires n <= |p|
  {
    if n == 0 then 0 else ThroughSum(p, n - 1) + Through(p, n - 1)
  }

  /** The number of dispatches a chain still needs: every stage once for each
      unit that has still to pass through it, so a unit pending at stage i
      counts |p| - i times. */
  function Weight(p: seq<int>): int
  {
    ThroughSum(p, |p|)
  }

  /** One unit leaves stage j for stage j + 1 (or leaves the pipeline). */
  function Moved(p: seq<int>, j: nat): (q: seq<int>)
    requires j < |p|
    ensures |q| == |p|
  {
    if j + 1 < |p| then p[j := p[j] - 1][j + 1 := p[j + 1] + 1] else p[j := p[j] - 1]
  }

  lemma MovedThrough(p: seq<int>, j: nat, i: nat)
    requires j < |p| && i < |p|
    ensures Through(Moved(p, j), i) == Through(p, i) - (if i == j then 1 else 0)
  {
    var q := p[j := p[j] - 1];
    PrefixSumUpdate(p, j, p[j] - 1, i + 1);
    if j + 1 < |p| {
      PrefixSumUpdate(q, j + 1, p[j + 1] + 1, i + 1);
    }
  }

  lemma {:induction false} MovedThroughSum(p: seq<int>, j: nat, n: nat)
    requires j < |p| && n <= |p|
    ensures ThroughSum(Moved(p, j), n) == ThroughSum(p, n) - (if j < n then 1 else 0)
  {
    if n > 0 {
      MovedThroughSum(p, j, n - 1);
      MovedThrough(p, j, n - 1);
    }
  }

  /** Moving a unit one stage on lowers the owed weight by exactly one and
      lowers the units still to pass through stage i only for i == j. */
  lemma MovedConserves(p: seq<int>, j: nat)
    requires j < |p|
    ensures Weight(Moved(p, j)) == Weight(p) - 1
    ensures forall i :: 0 <= i < |p| ==> Through(Moved(p, j), i) == Through(p, i) - (if i == j then 1 else 0)
  {
    MovedThroughSum(p, j, |p|);
    forall i | 0 <= i < |p| ensures Through(Moved(p, j), i) == Through(p, i) - (if i == j then 1 else 0) {
      MovedThrough(p, j, i);
    }
  }

  lemma {:induction false} PrefixNonNegative(p: seq<int>, n: nat)
    requires n <= |p| && forall i :: 0 <= i < |p| ==> p[i] >= 0
    ensures PrefixSum(p, n) >= 0
    ensures PrefixSum(p, n) == 0 <==> forall i :: 0 <= i < n ==> p[i] == 0
  {
    if n > 0 {
      PrefixNonNegative(p, n - 1);
    }
  }

  lemma {:induction false} ThroughSumNonNegative(p: seq<int>, n: nat)
    requires n <= |p| && forall i :: 0 <= i < |p| ==> p[i] >= 0
    ensures ThroughSum(p, n) >= 0
    ensures ThroughSum(p, n) == 0 <==> forall i :: 0 <= i < n ==> Through(p, i) == 0
  {
    if n > 0 {
      ThroughSumNonNegative(p, n - 1);
      PrefixNonNegative(p, n);
    }
  }

  /** With non-negative counters the weight is zero exactly when nothing is pending. */
  lemma WeightNonNegative(p: seq<int>)
    requires forall i :: 0 <= i < |p| ==> p[i] >= 0
    ensures Weight(p) >= 0
    ensures Weight(p) == 0 <==> forall i :: 0 <= i < |p| ==> p[i] == 0
  {
    ThroughSumNonNegative(p, |p|);
    if |p| > 0 {
      PrefixNonNegative(p, |p|);
      if Weight(p) == 0 {
        assert Through(p, |p| - 1) == 0;
      } else {
        var i :| 0 <= i < |p| && Through(p, i) != 0;
        PrefixNonNegative(p, i + 1);
      }
    }
  }

  /** One step of a chain at a worker with pending work: the unit moves to the
      next stage (or leaves the pipeline at the last one), that worker has
      run once more, and the chain is at rest again. */
  lemma StepOnChain(s: seq<Slot>, j: nat)
    requires Ready(s) && j < |s| && s[j].pending > 0
    ensures var t := Step(s, ChainLinks(|s|), j);
      Ready(t) && Pendings(t) == Moved(Pendings(s), j) &&
      t[j].runs == s[j].runs + 1 &&
      forall i :: 0 <= i < |s| && i != j ==> t[i].runs == s[i].runs
  {
  }

  /** The final state of a chain run that completed: nothing pending, nothing
      busy, and every stage ran once per unit that had to pass through it. */
  predicate Drained(s: seq<Slot>, r: RunResult, tasks: nat)
  {
    r.outcome == Completed && |r.trace| == tasks && |r.state| == |s| && Ready(r.state) &&
    forall i :: 0 <= i < |s| ==>
      r.state[i].pending == 0 && r.state[i].runs == s[i].runs + Through(Pendings(s), i)
  }

  /** A step followed by a drained run is a drained run. */
  lemma DrainedAfterStep(s: seq<Slot>, j: nat, r: RunResult, tasks: nat)
    requires Ready(s) && j < |s| && s[j].pending > 0 && tasks > 0
    requires Drained(Step(s, ChainLinks(|s|), j), r, tasks - 1)
    ensures Drained(s, r.(trace := [j] + r.trace), tasks)
  {
    var t := Step(s, ChainLinks(|s|), j);
    StepOnChain(s, j);
    MovedConserves(Pendings(s), j);
  }

  /** A chain at rest whose owed total equals its weight has dispatched
      everything when zero is owed. */
  lemma ChainDrainedAtZero(s: seq<Slot>, policy: Policy, cursor: nat)
    requires Ready(s) && Weight(Pendings(s)) == 0
    ensures Drained(s, Run(s, ChainLinks(|s|), policy, cursor, 0), 0)
  {
    WeightNonNegative(Pendings(s));
    forall i | 0 <= i < |s| ensures Through(Pendings(s), i) == 0 {
      PrefixZero(Pendings(s), i + 1);
    }
  }

  lemma {:induction false} PrefixZero(p: seq<int>, n: nat)
    requires n <= |p| && forall i :: 0 <= i < |p| ==> p[i] == 0
    ensures PrefixSum(p, n) == 0
  {
    if n > 0 {
      PrefixZero(p, n - 1);
    }
  }

  /** fifo drains a chain at rest from any cursor, with exactly as many
      dispatches as the chain's weight. */
  lemma {:induction false} FifoDrainsChain(s: seq<Slot>, cursor: nat, tasks: nat)
    requires Ready(s) && cursor < |s| && tasks == Weight(Pendings(s))
    ensures Drained(s, Run(s, ChainLinks(|s|), Fifo, cursor, tasks), tasks)
    decreases tasks
  {
    var links := ChainLinks(|s|);
    if tasks == 0 {
      ChainDrainedAtZero(s, Fifo, cursor);
    } else {
      WeightNonNegative(Pendings(s));
      FifoChoosesPending(s, cursor);
      var j := FifoChoice(s, cursor).index;
      assert Choose(Fifo, s, cursor) == Chosen(j, j);
      var t := Step(s, links, j);
      StepOnChain(s, j);
      MovedConserves(Pendings(s), j);
      FifoDrainsChain(t, j, tasks - 1);
      var r := Run(t, links, Fifo, j, tasks - 1);
      assert Run(s, links, Fifo, cursor, tasks) == r.(trace := [j] + r.trace);
      DrainedAfterStep(s, j, r, tasks);
    }
  }

  /** Where round robin stands on a chain that was seeded only at its head:
      apart from the head, only the cursor's worker can hold a unit, and it
      holds exactly one unless the cursor is at the head. */
  predicate RoundRobinShape(s: seq<Slot>, cursor: nat)
  {
    cursor < |s| &&
    (forall i :: 0 < i < |s| && i != cursor ==> s[i].pending == 0) &&
    (cursor > 0 ==> s[cursor].pending == 1)
  }

  /** Round robin drains a chain in that shape with exactly as many
      dispatches as the chain's weight. */
  lemma {:induction false} RoundRobinDrainsChain(s: seq<Slot>, cursor: nat, tasks: nat)
    requires Ready(s) && RoundRobinShape(s, cursor) && tasks == Weight(Pendings(s))
    ensures Drained(s, Run(s, ChainLinks(|s|), RoundRobin, cursor, tasks), tasks)
    decreases tasks
  {
    var links := ChainLinks(|s|);
    if tasks == 0 {
      ChainDrainedAtZero(s, RoundRobin, cursor);
    } else {
      WeightNonNegative(Pendings(s));
      assert s[cursor].pending > 0;
      var t := Step(s, links, cursor);
      StepOnChain(s, cursor);
      MovedConserves(Pendings(s), cursor);
      RoundRobinDrainsChain(t, Next(cursor, |s|), tasks - 1);
      var r := Run(t, links, RoundRobin, Next(cursor, |s|), tasks - 1);
      assert Run(s, links, RoundRobin, cursor, tasks) == r.(trace := [cursor] + r.trace);
      DrainedAfterStep(s, cursor, r, tasks);
    }
  }

  /** The snapshot main.py's pipeline starts from: n units seeded at the head
      of a k-stage chain, every other counter zero, every worker idle. */
  function HeadSeeded(n: nat, k: nat): (s: seq<Slot>)
    ensures |s| == k
  {
    seq(k, i requires 0 <= i < k =>
      Slot(if i == 0 then n else 0, false, true, false, false, false, 0))
  }

  lemma {:induction false} PrefixOfHead(p: seq<int>, n: nat, m: nat)
    requires 0 < m <= |p| && p[0] == n && forall i :: 0 < i < |p| ==> p[i] == 0
    ensures PrefixSum(p, m) == n
  {
    if m > 1 {
      PrefixOfHead(p, n, m - 1);
    }
  }

  lemma {:induction false} ThroughSumOfHead(p: seq<int>, n: nat, m: nat)
    requires m <= |p| && forall i :: 0 <= i < |p| ==> Through(p, i) == n
    ensures ThroughSum(p, m) == n * m
  {
    if m > 0 {
      ThroughSumOfHead(p, n, m - 1);
      assert n * (m - 1) + n == n * m;
    }
  }

  /** schedule() on a k-stage chain seeded with n units at its head performs
      exactly n * k dispatches under either policy (round robin starting from
      the constructor's cursor 0), every stage runs exactly n times, and every
      counter ends at zero. */
  lemma ChainScheduleExact(n: nat, k: nat, policy: Policy)
    requires k > 0
    ensures var s := HeadSeeded(n, k);
      TotalDispatches(s) == n * k &&
      Drained(s, Run(s, ChainLinks(k), policy, 0, n * k), n * k) &&
      forall i :: 0 <= i < k ==> Run(s, ChainLinks(k), policy, 0, n * k).state[i].runs == n
  {
    var s := HeadSeeded(n, k);
    var p := Pendings(s);
    PrefixOfHead(p, n, k);
    forall i | 0 <= i < k ensures Through(p, i) == n {
      PrefixOfHead(p, n, i + 1);
    }
    ThroughSumOfHead(p, n, k);
    if policy == Fifo {
      FifoDrainsChain(s, 0, n * k);
    } else {
      RoundRobinDrainsChain(s, 0, n * k);
    }
  }

  /** The three-stage pipeline of main.py (fetcher, statistics, logger) fed
      with five images: fifteen dispatches, five per stage. */
  lemma ThreeStageScenario(policy: Policy)
    ensures var r := Run(HeadSeeded(5, 3), ChainLinks(3), policy, 0, 15);
      r.outcome == Completed && |r.trace| == 15 &&
      r.state[0].runs == 5 && r.state[1].runs == 5 && r.state[2].runs == 5
  {
    ChainScheduleExact(5, 3, policy);
  }
}
