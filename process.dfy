/** process.py: the workers, the shared busy table, the two dispatch policies
    and the scheduler loop, as objects updated in place. Every state change is
    proved to follow the value-level engine of module SchedulerModel. */
module Process {
  import opened Common
  import opened SchedulerModel

  /** The table shared by all workers, keyed by core number: true while the
      worker on that core has a dispatched unit in flight. */
  class BusyTable {
    var busy: map<int, bool>

    constructor ()
      ensures busy == map[]
    {
      busy := map[];
    }
  }

  /** One input or output side of a worker: a shared buffer, a directory, or
      neither. */
  datatype Connector<B> = Buffer(buffer: B) | Directory(path: string) | Unset

  /** The connector a worker keeps for one side: a buffer wins over a path. */
  function Connect<B>(buffer: Option<B>, path: Option<string>): (c: Connector<B>)
  {
    if buffer.Some? then Buffer(buffer.value)
    else if path.Some? then Directory(path.value)
    else Unset
  }

  /** Whatever path is also given, a supplied buffer is the connector; a path
      is used only without a buffer. */
  lemma BufferTakesPrecedence<B>(buffer: Option<B>, path: Option<string>)
    ensures buffer.Some? ==> Connect(buffer, path) == Buffer(buffer.value)
    ensures buffer.None? ==> (Connect(buffer, path).Directory? <==> path.Some?)
    ensures Connect(buffer, path).Unset? <==> buffer.None? && path.None?
  {
  }

  /** A worker (class Process). `admissionOpen` is the released state of its
      admission lock, `handshakeHeld` the acquired state of its handshake
      lock; `runs` counts the calls of its work function. */
  class Worker {
    var pending: int
    var running: bool
    var terminated: bool
    var admissionOpen: bool
    var handshakeHeld: bool
    ghost var runs: nat
    const core: int
    const table: BusyTable
    const downstream: Worker?

    /** Process.__init__: counters and flags start cleared, the admission lock
        starts acquired, and the busy cell of the core is created (false) only
        when it is missing. */
    constructor (table: BusyTable, core: int, downstream: Worker?)
      modifies table
      ensures this.table == table && this.core == core && this.downstream == downstream
      ensures pending == 0 && running && !terminated && !admissionOpen && !handshakeHeld && runs == 0
      ensures table.busy == if core in old(table.busy) then old(table.busy) else old(table.busy)[core := false]
    {
      this.table := table;
      this.core := core;
      this.downstream := downstream;
      pending := 0;
      running := true;
      terminated := false;
      admissionOpen := false;
      handshakeHeld := false;
      runs := 0;
      new;
      if core !in table.busy {
        table.busy := table.busy[core := false];
      }
    }

    /** The downstream worker, as a frame. */
    function Downstream(): set<Worker>
    {
      if downstream == null then {} else {downstream}
    }

    /** is_busy: the worker's cell of the shared table. */
    function IsBusy(): bool
      reads this, table
      requires core in table.busy
    {
      table.busy[core]
    }

    ghost function View(): Slot
      reads this, table
      requires core in table.busy
    {
      Slot(pending, IsBusy(), running, terminated, admissionOpen, handshakeHeld, runs)
    }

    /** One pass of do_work's loop once wait() has returned: a stopped worker
        terminates; a running one consumes a unit, releases the handshake
        lock, runs its work, feeds its downstream worker and clears its busy
        cell. */
    method Wake()
      requires core in table.busy && admissionOpen
      modifies this, table, Downstream()`pending
      ensures !admissionOpen && running == old(running)
      ensures !old(running) ==>
        terminated && pending == old(pending) && runs == old(runs) &&
        handshakeHeld == old(handshakeHeld) && table.busy == old(table.busy) &&
        (downstream != null ==> downstream.pending == old(downstream.pending))
      ensures old(running) ==>
        terminated == old(terminated) && runs == old(runs) + 1 && !handshakeHeld &&
        table.busy == old(table.busy)[core := false] &&
        pending == old(pending) - 1 + (if downstream == this then 1 else 0) &&
        (downstream != null && downstream != this ==> downstream.pending == old(downstream.pending) + 1)
    {
      admissionOpen := false;
      if !running {
        terminated := true;
        return;
      }
      pending := pending - 1;
      handshakeHeld := false;
      runs := runs + 1;
      if downstream != null {
        downstream.pending := downstream.pending + 1;
      }
      table.busy := table.busy[core := false];
    }

    /** stop(): clear `running` and release the admission lock until the
        executor has terminated; the executor's next wake-up is taken here as
        the same transition. */
    method Stop()
      requires core in table.busy
      modifies this, table, Downstream()`pending
      ensures !running && terminated && handshakeHeld == old(handshakeHeld)
      ensures admissionOpen == (old(terminated) && old(admissionOpen))
      ensures pending == old(pending) && runs == old(runs) && table.busy == old(table.busy)
      ensures downstream != null ==> downstream.pending == old(downstream.pending)
    {
      running := false;
      if !terminated {
        admissionOpen := true;
        Wake();
      }
    }
  }

  /** Every worker of the list shares the one busy table. */
  predicate Shares(ws: seq<Worker>, table: BusyTable)
  {
    forall i :: 0 <= i < |ws| ==> ws[i].table == table
  }

  /** Every worker's core has a busy cell in the shared table. */
  predicate CoresKnown(ws: seq<Worker>, table: BusyTable)
    reads table
  {
    forall i :: 0 <= i < |ws| ==> ws[i].core in table.busy
  }

  /** The engine's view of a worker list. */
  ghost function SnapshotOf(ws: seq<Worker>, table: BusyTable): (s: seq<Slot>)
    reads (set w | w in ws), table
    requires Shares(ws, table) && CoresKnown(ws, table)
    ensures |s| == |ws| && forall i :: 0 <= i < |ws| ==> s[i] == ws[i].View()
  {
    seq(|ws|, i requires 0 <= i < |ws| && ws[i].table == table && ws[i].core in table.busy
                reads (set w | w in ws), table => ws[i].View())
  }

  /** round_robin: the worker at the cursor is chosen when it has pending
      work and is not busy, and the cursor moves on by one; otherwise the
      policy spins on that worker. */
  method RoundRobinPolicy(ws: seq<Worker>, ghost table: BusyTable, cursor: nat) returns (p: Pick)
    requires cursor < |ws| && Shares(ws, table) && CoresKnown(ws, table)
    ensures p == RoundRobinChoice(SnapshotOf(ws, table), cursor)
    ensures p.Chosen? <==> ws[cursor].pending != 0 && !ws[cursor].IsBusy()
    ensures p.Chosen? ==> p.index == cursor && p.cursor == (cursor + 1) % |ws|
  {
    var chosen := ws[cursor];
    if chosen.pending != 0 && !chosen.IsBusy() {
      var next := (cursor + 1) % |ws|;
      NextIsMod(cursor, |ws|);
      return Chosen(next, cursor);
    }
    return Blocked;
  }

  /** fifo: from the cursor, move past workers with nothing pending; the
      first with pending work is chosen unless it is busy, in which case the
      policy spins on it. Once every worker has been seen idle the frozen
      snapshot repeats and the scan would go round for ever. */
  method FifoPolicy(ws: seq<Worker>, ghost table: BusyTable, cursor: nat) returns (p: Pick)
    requires cursor < |ws| && Shares(ws, table) && CoresKnown(ws, table)
    ensures p == FifoChoice(SnapshotOf(ws, table), cursor)
  {
    ghost var s := SnapshotOf(ws, table);
    var index := cursor;
    var probes := 0;
    while probes < |ws|
      invariant 0 <= probes <= |ws| && index < |ws|
      invariant probes < |ws| ==> index == Offset(cursor, probes, |ws|)
      invariant FifoFrom(s, cursor, probes) == FifoChoice(s, cursor)
    {
      var chosen := ws[index];
      if chosen.pending == 0 {
        NextIsMod(index, |ws|);
        index := (index + 1) % |ws|;
        probes := probes + 1;
      } else if !chosen.IsBusy() {
        return Chosen(index, index);
      } else {
        return Blocked;
      }
    }
    return Blocked;
  }

  /** The worker list of a scheduler is well formed: distinct workers on
      distinct cores sharing one busy table, each downstream reference
      pointing at the worker that links names. */
  ghost predicate Linked(ws: seq<Worker>, table: BusyTable, links: seq<Option<nat>>)
  {
    |links| == |ws| &&
    Shares(ws, table) &&
    (forall i, j :: 0 <= i < j < |ws| ==> ws[i] != ws[j] && ws[i].core != ws[j].core) &&
    (forall i :: 0 <= i < |ws| && links[i].Some? ==> links[i].value < |ws|) &&
    (forall i :: 0 <= i < |ws| ==>
      ws[i].downstream == if links[i].Some? then ws[links[i].value] else null)
  }

  /** A worker's view, field by field. */
  lemma ViewIs(v: Worker, table: BusyTable, slot: Slot)
    requires v.table == table && v.core in table.busy && table.busy[v.core] == slot.busy
    requires v.pending == slot.pending && v.running == slot.running && v.terminated == slot.terminated
    requires v.admissionOpen == slot.admission && v.handshakeHeld == slot.handshake && v.runs == slot.runs
    ensures v.View() == slot
  {
  }

  /** `r0` is the dispatches done so far, given by `trace`, followed by `rest`. */
  predicate Resumes(r0: RunResult, trace: seq<nat>, rest: RunResult)
  {
    r0 == rest.(trace := trace + rest.trace)
  }

  /** One more dispatch moves its index from the rest onto the trace. */
  lemma ResumesStep(r0: RunResult, trace: seq<nat>, prev: RunResult, index: nat, rest: RunResult)
    requires Resumes(r0, trace, prev) && prev == rest.(trace := [index] + rest.trace)
    ensures Resumes(r0, trace + [index], rest)
  {
    assert trace + ([index] + rest.trace) == (trace + [index]) + rest.trace;
  }

  /** The Scheduler: an ordered worker list, the active policy and the cursor. */
  class Scheduler {
    const workers: seq<Worker>
    const table: BusyTable
    const core: int
    var policy: Policy
    var cursor: nat
    ghost const links: seq<Option<nat>>

    ghost function Members(): set<Worker>
    {
      set w | w in workers
    }

    /** The worker list is well formed and every core has a busy cell. */
    ghost predicate Wired()
      reads Members(), table
    {
      Linked(workers, table, links) && CoresKnown(workers, table)
    }

    ghost predicate Valid()
      reads this, Members(), table
    {
      Wired() && (cursor < |workers| || cursor == 0)
    }

    ghost function Snapshot(): (s: seq<Slot>)
      reads Members(), table
      requires Wired()
      ensures |s| == |workers| && LinksOk(s, links)
    {
      SnapshotOf(workers, table)
    }

    /** Scheduler.__init__: the cursor starts at the first worker. */
    constructor (workers: seq<Worker>, policy: Policy, core: int, table: BusyTable, ghost links: seq<Option<nat>>)
      requires Linked(workers, table, links) && CoresKnown(workers, table)
      ensures Valid() && this.workers == workers && this.table == table && this.links == links
      ensures this.policy == policy && this.core == core && cursor == 0
    {
      this.workers := workers;
      this.table := table;
      this.policy := policy;
      this.core := core;
      this.links := links;
      cursor := 0;
    }

    /** change_scheduling_scheme. */
    method ChangePolicy(policy: Policy)
      modifies this
      ensures this.policy == policy && cursor == old(cursor)
    {
      this.policy := policy;
    }

    /** One dispatch (process.py:57-58): the chosen worker's busy cell is set
        and its admission lock released. The policy's successful probe
        acquired the worker's handshake lock without releasing it; since the
        policy methods change nothing, that acquisition is recorded here.
        Nothing else changes. */
    method DispatchTo(j: nat)
      requires Valid() && j < |workers|
      modifies workers[j], table
      ensures Valid() && Snapshot() == Dispatch(old(Snapshot()), j)
    {
      var w := workers[j];
      table.busy := table.busy[w.core := true];
      w.admissionOpen := true;
      w.handshakeHeld := true;
      forall i | 0 <= i < |workers| ensures Snapshot()[i] == Dispatch(old(Snapshot()), j)[i] {
        if i != j {
          assert workers[i] != w && workers[i].core != w.core by {
            if i < j { } else { }
          }
        }
      }
    }

    /** The chosen worker's executor wakes up and takes one pass of its loop. */
    method WakeWorker(j: nat)
      requires Valid() && j < |workers| && workers[j].admissionOpen
      modifies Members(), table
      ensures Valid() && Snapshot() == Wake(old(Snapshot()), links, j)
    {
      if !workers[j].running {
        WakeStoppedWorker(j);
      } else if workers[j].downstream != null && workers[j].downstream != workers[j] {
        WakeFeedingWorker(j, links[j].value);
      } else {
        WakeRunningWorker(j);
      }
    }

    /** A stopped worker wakes up: it terminates and only its own view changes. */
    method WakeStoppedWorker(j: nat)
      requires Valid() && j < |workers| && workers[j].admissionOpen && !workers[j].running
      modifies Members(), table
      ensures Valid() && Snapshot() == Wake(old(Snapshot()), links, j)
    {
      var w := workers[j];
      assert w.Downstream() <= Members();
      ghost var s := Snapshot();
      ghost var t := Wake(s, links, j);
      w.Wake();
      forall i | 0 <= i < |workers| ensures Snapshot()[i] == t[i] {
        WakeAt(s, links, j, i);
        var v := workers[i];
        if i != j {
          assert v != w by {
            if i < j { } else { }
          }
          ViewIs(v, table, s[i]);
        }
      }
    }

    /** A running worker without a downstream worker other than itself
        wakes up: only its own view changes. */
    method WakeRunningWorker(j: nat)
      requires Valid() && j < |workers| && workers[j].admissionOpen && workers[j].running
      requires links[j].None? || links[j] == Some(j)
      modifies Members(), table
      ensures Valid() && Snapshot() == Wake(old(Snapshot()), links, j)
    {
      var w := workers[j];
      assert w.Downstream() <= Members();
      ghost var s := Snapshot();
      ghost var t := Wake(s, links, j);
      w.Wake();
      forall i | 0 <= i < |workers| ensures Snapshot()[i] == t[i] {
        WakeAt(s, links, j, i);
        var v := workers[i];
        if i != j {
          assert v != w && v.core != w.core by {
            if i < j { } else { }
          }
          ViewIs(v, table, s[i]);
        }
      }
    }

    /** A running worker feeding worker d wakes up: its own view and d's
        pending count change. */
    method WakeFeedingWorker(j: nat, ghost d: nat)
      requires Valid() && j < |workers| && workers[j].admissionOpen && workers[j].running
      requires links[j] == Some(d) && d != j
      modifies Members(), table
      ensures Valid() && Snapshot() == Wake(old(Snapshot()), links, j)
    {
      var w := workers[j];
      var down := workers[d];
      assert w.Downstream() == {down};
      assert down != w && down.core != w.core by {
        if d < j { } else { }
      }
      ghost var s := Snapshot();
      ghost var t := Wake(s, links, j);
      w.Wake();
      forall i | 0 <= i < |workers| ensures Snapshot()[i] == t[i] {
        WakeAt(s, links, j, i);
        var v := workers[i];
        if i != j && i != d {
          assert v != w && v.core != w.core && v != down by {
            if i < j { } else { }
            if i < d { } else { }
          }
          ViewIs(v, table, s[i]);
        } else if i == d {
          ViewIs(v, table, t[i]);
        }
      }
    }

    /** A dispatch followed by the chosen worker's wake-up: the engine's Step. */
    method DispatchAndWake(j: nat)
      requires Valid() && j < |workers|
      modifies Members(), table
      ensures Valid() && Snapshot() == Step(old(Snapshot()), links, j)
    {
      DispatchTo(j);
      WakeWorker(j);
    }

    /** `sum(p.pending for p in processes)`, read from the live counters. */
    method PendingTotal() returns (total: int)
      requires Valid()
      ensures total == Sum(Pendings(Snapshot()))
    {
      ghost var s := Snapshot();
      total := 0;
      var i := 0;
      while i < |workers|
        invariant 0 <= i <= |workers|
        invariant total == PrefixSum(Pendings(s), i)
      {
        total := total + workers[i].pending;
        i := i + 1;
      }
    }

    /** The policy active now, applied to the live workers. */
    method Pick() returns (p: Pick)
      requires Valid() && |workers| > 0
      ensures p == Choose(policy, Snapshot(), cursor)
    {
      if policy == RoundRobin {
        p := RoundRobinPolicy(workers, table, cursor);
      } else {
        p := FifoPolicy(workers, table, cursor);
      }
    }

    /** `rest` is what the remaining `left` dispatches will do from here. */
    ghost predicate Tracks(rest: RunResult, left: int)
      reads this, Members(), table
    {
      Valid() && (left > 0 ==> |workers| > 0) &&
      rest == Run(Snapshot(), links, policy, cursor, left)
    }

    /** One iteration of schedule()'s loop: ask the policy; if it chooses a
        worker, move the cursor, dispatch it and let it wake. `prev` is what
        the `tasks` dispatches from here do; `rest` is what remains of it. */
    method Round(ghost tasks: int, ghost prev: RunResult) returns (blocked: bool, index: nat, ghost rest: RunResult)
      requires Tracks(prev, tasks) && tasks > 0
      modifies this`cursor, Members(), table
      ensures Valid()
      ensures blocked ==>
                Snapshot() == prev.state && cursor == prev.cursor && prev.outcome == Stuck(tasks) && prev.trace == []
      ensures !blocked ==> Tracks(rest, tasks - 1) && prev == rest.(trace := [index] + rest.trace)
    {
      ghost var before := Snapshot();
      var pick := Pick();
      if pick.Blocked? {
        return true, 0, prev;
      }
      RunUnfold(before, links, policy, cursor, tasks, pick.cursor, pick.index);
      DispatchAndWake(pick.index);
      cursor := pick.cursor;
      return false, pick.index, Run(Snapshot(), links, policy, cursor, tasks - 1);
    }

    /** schedule()'s loop: `tasks` more dispatches, one Round each, ending
        early only when a policy spins. */
    method Drive(tasks: int, ghost r0: RunResult) returns (outcome: Outcome, dispatched: nat, ghost trace: seq<nat>)
      requires Valid() && (tasks > 0 ==> |workers| > 0)
      requires r0 == Run(Snapshot(), links, policy, cursor, tasks)
      modifies this`cursor, Members(), table
      ensures Valid()
      ensures Snapshot() == r0.state && cursor == r0.cursor && outcome == r0.outcome &&
        trace == r0.trace && dispatched == |trace|
    {
      var left := tasks;
      dispatched := 0;
      trace := [];
      ghost var rest := r0;
      while left > 0
        invariant left <= tasks
        invariant Tracks(rest, left)
        invariant Resumes(r0, trace, rest) && dispatched == |trace|
        decreases left
      {
        var blocked, index, r := Round(left, rest);
        if blocked {
          return Stuck(left), dispatched, trace;
        }
        ResumesStep(r0, trace, rest, index, r);
        trace := trace + [index];
        dispatched := dispatched + 1;
        left := left - 1;
        rest := r;
      }
      outcome := Completed;
    }

    /** schedule(): compute the dispatch total `sum(pending) * len(processes)`
        once, then dispatch that many times. Stuck stands for the policy
        spinning for ever. */
    method Schedule() returns (outcome: Outcome, dispatched: nat, ghost trace: seq<nat>)
      requires Valid()
      modifies this`cursor, Members(), table
      ensures Valid()
      ensures var r := Run(old(Snapshot()), links, policy, old(cursor), TotalDispatches(old(Snapshot())));
        Snapshot() == r.state && cursor == r.cursor && outcome == r.outcome &&
        trace == r.trace && dispatched == |trace|
    {
      var total := PendingTotal();
      var tasks := total * |workers|;
      assert tasks == TotalDispatches(Snapshot());
      outcome, dispatched, trace := Drive(tasks, Run(Snapshot(), links, policy, cursor, tasks));
    }
  }
}
