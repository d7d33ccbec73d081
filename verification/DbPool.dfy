/**
 * The database pool: a semaphore of `max` permits in front of a connection pool of the same size.
 * Requests take a permit, then a connection; dropping a connection returns the connection first
 * and the permit after it, in a task of its own. Steps of different requests interleave freely.
 */
module DbPool {
  import opened Common

  type TaskId = nat

  datatype Phase =
    /** Has a permit and asks the pool for a connection. */
    | Permit
    /** Holds permit and connection. */
    | Connected
    /** Dropped; the spawned closure owns both. */
    | Closing
    /** The closure has dropped the connection and still owns the permit. */
    | ConnDropped

  datatype Pool = Pool(max: nat, available: int, checkedOut: int, tasks: map<TaskId, Phase>)

  function New(max: nat): Pool {
    Pool(max, max, 0, map[])
  }

  datatype Step =
    | Acquire(t: TaskId)
    | Connect(t: TaskId)
      /** The pool reports an error; the permit goes back. */
    | Fail(t: TaskId)
    | Close(t: TaskId)
    | DropConn(t: TaskId)
    | DropPermit(t: TaskId)

  predicate In(p: Pool, t: TaskId, phase: Phase) {
    t in p.tasks && p.tasks[t] == phase
  }

  predicate Enabled(p: Pool, s: Step) {
    match s
    case Acquire(t) => t !in p.tasks && p.available > 0
    case Connect(t) => In(p, t, Permit) && p.checkedOut < p.max
    case Fail(t) => In(p, t, Permit)
    case Close(t) => In(p, t, Connected)
    case DropConn(t) => In(p, t, Closing)
    case DropPermit(t) => In(p, t, ConnDropped)
  }

  function Do(p: Pool, s: Step): Pool
    requires Enabled(p, s)
  {
    match s
    case Acquire(t) => p.(available := p.available - 1, tasks := p.tasks[t := Permit])
    case Connect(t) => p.(checkedOut := p.checkedOut + 1, tasks := p.tasks[t := Connected])
    case Fail(t) => p.(available := p.available + 1, tasks := p.tasks - {t})
    case Close(t) => p.(tasks := p.tasks[t := Closing])
    case DropConn(t) => p.(checkedOut := p.checkedOut - 1, tasks := p.tasks[t := ConnDropped])
    case DropPermit(t) => p.(available := p.available + 1, tasks := p.tasks - {t})
  }

  predicate IsRun(max: nat, steps: seq<Step>)
    decreases |steps|, 0
  {
    steps == [] || (IsRun(max, steps[..|steps| - 1]) && Enabled(After(max, steps[..|steps| - 1]), steps[|steps| - 1]))
  }

  function After(max: nat, steps: seq<Step>): Pool
    requires IsRun(max, steps)
    decreases |steps|, 1
  {
    if steps == [] then New(max) else Do(After(max, steps[..|steps| - 1]), steps[|steps| - 1])
  }

  // ----- Accounting

  predicate Holds(phase: Phase) {
    phase == Connected || phase == Closing
  }

  /** The tasks that hold a connection. */
  function HoldersOf(tasks: map<TaskId, Phase>): set<TaskId> {
    set t | t in tasks && Holds(tasks[t])
  }

  function Holders(p: Pool): set<TaskId> {
    HoldersOf(p.tasks)
  }

  lemma PhaseChanges(tasks: map<TaskId, Phase>, t: TaskId, phase: Phase)
    ensures HoldersOf(tasks[t := phase]) == if Holds(phase) then HoldersOf(tasks) + {t} else HoldersOf(tasks) - {t}
    ensures HoldersOf(tasks - {t}) == HoldersOf(tasks) - {t}
  {
  }

  predicate Balanced(p: Pool) {
    && p.available >= 0
    && p.available + |p.tasks| == p.max
    && p.checkedOut == |Holders(p)|
  }

  lemma SizeWith<T>(s: set<T>, t: T)
    ensures |s + {t}| == |s| + if t in s then 0 else 1
    ensures |s - {t}| == |s| - if t in s then 1 else 0
  {
    if t in s { assert s + {t} == s; } else { assert s - {t} == s; }
  }

  lemma SizeOfTasks(tasks: map<TaskId, Phase>, t: TaskId, phase: Phase)
    ensures |tasks[t := phase]| == |tasks| + if t in tasks then 0 else 1
    ensures |tasks - {t}| == |tasks| - if t in tasks then 1 else 0
  {
    SizeWith(tasks.Keys, t);
    assert tasks[t := phase].Keys == tasks.Keys + {t};
    assert (tasks - {t}).Keys == tasks.Keys - {t};
  }

  lemma CountTasks(p: Pool, s: Step)
    requires Enabled(p, s)
    ensures |Do(p, s).tasks| == |p.tasks| + (if s.Acquire? then 1 else if s.Fail? || s.DropPermit? then -1 else 0)
  {
    match s
    case Acquire(t) => SizeOfTasks(p.tasks, t, Permit);
    case Connect(t) => SizeOfTasks(p.tasks, t, Connected);
    case Fail(t) => SizeOfTasks(p.tasks, t, Permit);
    case Close(t) => SizeOfTasks(p.tasks, t, Closing);
    case DropConn(t) => SizeOfTasks(p.tasks, t, ConnDropped);
    case DropPermit(t) => SizeOfTasks(p.tasks, t, Permit);
  }

  lemma SizeOfHolders(tasks: map<TaskId, Phase>, t: TaskId, phase: Phase)
    ensures |HoldersOf(tasks[t := phase])|
            == |HoldersOf(tasks)| + (if Holds(phase) then 1 else 0) - (if t in HoldersOf(tasks) then 1 else 0)
    ensures |HoldersOf(tasks - {t})| == |HoldersOf(tasks)| - if t in HoldersOf(tasks) then 1 else 0
  {
    PhaseChanges(tasks, t, phase);
    SizeWith(HoldersOf(tasks), t);
  }

  lemma CountHolders(p: Pool, s: Step)
    requires Enabled(p, s)
    ensures |Holders(Do(p, s))| == |Holders(p)| + (if s.Connect? then 1 else if s.DropConn? then -1 else 0)
  {
    match s
    case Acquire(t) => SizeOfHolders(p.tasks, t, Permit);
    case Connect(t) => SizeOfHolders(p.tasks, t, Connected);
    case Fail(t) => SizeOfHolders(p.tasks, t, Permit);
    case Close(t) => SizeOfHolders(p.tasks, t, Closing);
    case DropConn(t) => SizeOfHolders(p.tasks, t, ConnDropped);
    case DropPermit(t) => SizeOfHolders(p.tasks, t, Permit);
  }

  lemma StepKeepsBalance(p: Pool, s: Step)
    requires Balanced(p) && Enabled(p, s)
    ensures Balanced(Do(p, s)) && Do(p, s).max == p.max
  {
    CountTasks(p, s);
    CountHolders(p, s);
  }

  lemma {:induction false} RunIsBalanced(max: nat, steps: seq<Step>)
    requires IsRun(max, steps)
    ensures Balanced(After(max, steps)) && After(max, steps).max == max
  {
    if steps != [] {
      RunIsBalanced(max, steps[..|steps| - 1]);
      StepKeepsBalance(After(max, steps[..|steps| - 1]), steps[|steps| - 1]);
    }
  }

  lemma SubsetIsNoLarger<T>(a: set<T>, b: set<T>)
    requires a <= b
    ensures |a| <= |b|
  {
    assert b == a + (b - a);
  }

  /**
   * In every interleaving: connections out are no more than permits out, permits out and available ones add up to the
   * configured maximum, and nothing is lost when all requests are done.
   */
  lemma ConnectionsNeedPermits(max: nat, steps: seq<Step>)
    requires IsRun(max, steps)
    ensures var p := After(max, steps);
            && p.available + |p.tasks| == max
            && 0 <= p.checkedOut <= |p.tasks| <= max
            && (p.tasks == map[] ==> p.available == max && p.checkedOut == 0)
  {
    RunIsBalanced(max, steps);
    var p := After(max, steps);
    SubsetIsNoLarger(Holders(p), p.tasks.Keys);
  }

  lemma SlotForPermit(p: Pool, t: TaskId)
    requires Balanced(p) && In(p, t, Permit)
    ensures p.checkedOut < p.max
  {
    SubsetIsNoLarger(Holders(p), p.tasks.Keys - {t});
    assert p.tasks.Keys == p.tasks.Keys - {t} + {t};
  }

  /** A request with a permit and no connection always finds a free connection slot. */
  lemma PermitFindsConnection(max: nat, steps: seq<Step>, t: TaskId)
    requires IsRun(max, steps) && In(After(max, steps), t, Permit)
    ensures Enabled(After(max, steps), Connect(t))
  {
    RunIsBalanced(max, steps);
    SlotForPermit(After(max, steps), t);
  }

  function NextStep(p: Pool, t: TaskId): Step
    requires t in p.tasks
  {
    match p.tasks[t]
    case Permit => Connect(t)
    case Connected => Close(t)
    case Closing => DropConn(t)
    case ConnDropped => DropPermit(t)
  }

  /** No request is ever stuck: each one under way can go on, and when no permit is left some request is under way. */
  lemma NobodyIsStuck(max: nat, steps: seq<Step>)
    requires IsRun(max, steps) && max > 0
    ensures var p := After(max, steps);
            && (forall t :: t in p.tasks ==> Enabled(p, NextStep(p, t)))
            && (p.available == 0 ==> p.tasks != map[])
  {
    RunIsBalanced(max, steps);
    var p := After(max, steps);
    forall t | t in p.tasks
      ensures Enabled(p, NextStep(p, t))
    {
      if p.tasks[t] == Permit { PermitFindsConnection(max, steps, t); }
    }
  }

  // ----- The order of release matters

  /** Releasing in the other order: the permit goes back while the connection is still out. */
  function PermitFirst(p: Pool, t: TaskId): Pool
    requires In(p, t, Closing)
  {
    p.(available := p.available + 1, tasks := p.tasks - {t})
  }

  /** In that order the next request gets a permit, and a connection exactly when not all of them were out. */
  lemma {:induction false} PermitFirstConnectsIff(max: nat, steps: seq<Step>, t: TaskId, u: TaskId)
    requires IsRun(max, steps) && In(After(max, steps), t, Closing) && u !in After(max, steps).tasks
    ensures var p := After(max, steps);
            && Enabled(PermitFirst(p, t), Acquire(u))
            && (Enabled(Do(PermitFirst(p, t), Acquire(u)), Connect(u)) <==> p.checkedOut < max)
  {
    RunIsBalanced(max, steps);
  }

  lemma Extends(max: nat, steps: seq<Step>, s: Step)
    requires IsRun(max, steps) && Enabled(After(max, steps), s)
    ensures IsRun(max, steps + [s]) && After(max, steps + [s]) == Do(After(max, steps), s)
  {
    assert (steps + [s])[..|steps|] == steps;
  }

  function AllConnected(n: nat): (tasks: map<TaskId, Phase>)
    ensures forall t: TaskId :: (t in tasks <==> t < n) && (t in tasks ==> tasks[t] == Connected)
  {
    if n == 0 then map[] else AllConnected(n - 1)[n - 1 := Connected]
  }

  /** The first n requests take a permit and a connection each. */
  function Fill(n: nat): seq<Step> {
    if n == 0 then [] else Fill(n - 1) + [Acquire(n - 1)] + [Connect(n - 1)]
  }

  lemma {:induction false} FillIs(max: nat, n: nat)
    requires n <= max
    ensures IsRun(max, Fill(n)) && After(max, Fill(n)) == Pool(max, max - n, n, AllConnected(n))
  {
    if n > 0 {
      FillIs(max, n - 1);
      Extends(max, Fill(n - 1), Acquire(n - 1));
      Extends(max, Fill(n - 1) + [Acquire(n - 1)], Connect(n - 1));
      assert AllConnected(n - 1)[n - 1 := Permit][n - 1 := Connected] == AllConnected(n);
    }
  }

  /** For every pool there is a run after which that order leaves the next request with a permit and no connection. */
  lemma {:induction false} PermitFirstStarves(max: nat) returns (steps: seq<Step>, t: TaskId, u: TaskId)
    requires max > 0
    ensures IsRun(max, steps) && In(After(max, steps), t, Closing)
    ensures Enabled(PermitFirst(After(max, steps), t), Acquire(u))
    ensures var q := Do(PermitFirst(After(max, steps), t), Acquire(u)); In(q, u, Permit) && !Enabled(q, Connect(u))
  {
    steps, t, u := Fill(max) + [Close(0)], 0, max;
    FillIs(max, max);
    Extends(max, Fill(max), Close(0));
    PermitFirstConnectsIff(max, steps, t, u);
  }

  // ----- The pool as it runs

  class Database {
    const max: nat
    var available: int
    var checkedOut: int
    var tasks: map<TaskId, Phase>

    function Contents(): Pool
      reads this
    {
      Pool(max, available, checkedOut, tasks)
    }

    /** The semaphore and the connection pool get the same size. */
    constructor FromConfig(maxConns: nat)
      ensures Contents() == New(maxConns) && Balanced(Contents())
    {
      max, available, checkedOut, tasks := maxConns, maxConns, 0, map[];
    }

    /** `get`, first half: a permit, unless the wait times out. */
    method AcquirePermit(t: TaskId) returns (r: Outcome)
      requires Balanced(Contents()) && t !in tasks
      modifies this
      ensures Balanced(Contents())
      ensures if old(available) > 0 then r == Ok && Contents() == Do(old(Contents()), Acquire(t))
              else r == Err && Contents() == old(Contents())
    {
      if available <= 0 { return Err; }
      StepKeepsBalance(Contents(), Acquire(t));
      available := available - 1;
      tasks := tasks[t := Permit];
      return Ok;
    }

    /** `get`, second half. The slot is there; `reachable` tells whether the database answers. */
    method TakeConnection(t: TaskId, reachable: bool) returns (r: Outcome)
      requires Balanced(Contents()) && In(Contents(), t, Permit)
      modifies this
      ensures Balanced(Contents()) && Enabled(old(Contents()), Connect(t))
      ensures if reachable then r == Ok && Contents() == Do(old(Contents()), Connect(t))
              else r == Err && Contents() == Do(old(Contents()), Fail(t))
    {
      SlotForPermit(Contents(), t);
      if !reachable {
        StepKeepsBalance(Contents(), Fail(t));
        available := available + 1;
        tasks := tasks - {t};
        return Err;
      }
      StepKeepsBalance(Contents(), Connect(t));
      checkedOut := checkedOut + 1;
      tasks := tasks[t := Connected];
      return Ok;
    }

    /** `drop`: permit and connection move into a closure of its own. */
    method BeginDrop(t: TaskId)
      requires Balanced(Contents()) && In(Contents(), t, Connected)
      modifies this`tasks
      ensures Balanced(Contents()) && Contents() == Do(old(Contents()), Close(t))
    {
      StepKeepsBalance(Contents(), Close(t));
      tasks := tasks[t := Closing];
    }

    /** The closure that `drop` spawns: connection, then permit; others may run in between. */
    method ReleaseConnection(t: TaskId)
      requires Balanced(Contents()) && In(Contents(), t, Closing)
      modifies this
      ensures Balanced(Contents()) && Contents() == Do(old(Contents()), DropConn(t))
    {
      StepKeepsBalance(Contents(), DropConn(t));
      checkedOut := checkedOut - 1;
      tasks := tasks[t := ConnDropped];
    }

    method ReleasePermit(t: TaskId)
      requires Balanced(Contents()) && In(Contents(), t, ConnDropped)
      modifies this
      ensures Balanced(Contents()) && Contents() == Do(old(Contents()), DropPermit(t))
    {
      StepKeepsBalance(Contents(), DropPermit(t));
      available := available + 1;
      tasks := tasks - {t};
    }
  }
}
