/** The map of per-file write locks, pruned of locks nobody uses.

    A lock is shared by counted handles; the map holds one, each task that obtained it another. Every
    method is one atomic step, so any interleaving of tasks is a sequence of calls. */
module LockMap {
  import opened Records

  datatype Mutex = Mutex(id: int)

  datatype Task = Task(id: int)

  /** A task between obtaining a lock and dropping it. */
  datatype Use = Waiting(node: NodeId, lock: Mutex) | Holding(node: NodeId, lock: Mutex)

  type Tasks = map<Task, Use>

  /** The tasks with a handle on a lock. */
  function Handles(tasks: Tasks, m: Mutex): set<Task> {
    set t | t in tasks && tasks[t].lock == m
  }

  /** Every handle is one on the lock the map has for its file, files have different locks, and the
      counts are right. */
  ghost predicate Consistent(locks: map<NodeId, Mutex>, strong: map<Mutex, nat>, tasks: Tasks, next: int) {
    && (forall t :: t in tasks ==> tasks[t].node in locks && locks[tasks[t].node] == tasks[t].lock)
    && (forall m, n :: m in locks && n in locks && locks[m] == locks[n] ==> m == n)
    && (forall n :: n in locks ==> locks[n].id < next)
    && (forall n :: n in locks ==> locks[n] in strong && strong[locks[n]] == 1 + |Handles(tasks, locks[n])|)
  }

  predicate Holds(tasks: Tasks, t: Task, m: Mutex) {
    t in tasks && tasks[t].Holding? && tasks[t].lock == m
  }

  /** A lock is locked exactly while one task holds it. */
  ghost predicate Exclusive(held: set<Mutex>, tasks: Tasks) {
    && (forall m :: m in held <==> exists t :: Holds(tasks, t, m))
    && (forall t, u, m :: Holds(tasks, t, m) && Holds(tasks, u, m) ==> t == u)
  }

  /** Two tasks never hold one file's lock at once. */
  lemma OneWriterPerFile(locks: map<NodeId, Mutex>, strong: map<Mutex, nat>, tasks: Tasks, next: int,
                         held: set<Mutex>, t: Task, u: Task)
    requires Consistent(locks, strong, tasks, next) && Exclusive(held, tasks)
    requires t in tasks && u in tasks && tasks[t].Holding? && tasks[u].Holding? && tasks[t].node == tasks[u].node
    ensures t == u
  {
    assert Holds(tasks, t, locks[tasks[t].node]) && Holds(tasks, u, locks[tasks[u].node]);
  }

  lemma HandlesAdd(tasks: Tasks, t: Task, use: Use, m: Mutex)
    requires t !in tasks
    ensures |Handles(tasks[t := use], m)| == |Handles(tasks, m)| + if use.lock == m then 1 else 0
  {
    assert Handles(tasks[t := use], m) == Handles(tasks, m) + if use.lock == m then {t} else {};
  }

  lemma HandlesDrop(tasks: Tasks, t: Task, m: Mutex)
    requires t in tasks
    ensures |Handles(tasks, m)| == |Handles(tasks - {t}, m)| + if tasks[t].lock == m then 1 else 0
  {
    assert Handles(tasks, m) == Handles(tasks - {t}, m) + if tasks[t].lock == m then {t} else {};
  }

  lemma HandlesSame(tasks: Tasks, t: Task, use: Use, m: Mutex)
    requires t in tasks && tasks[t].lock == use.lock
    ensures Handles(tasks[t := use], m) == Handles(tasks, m)
  {
  }

  lemma HoldsSame(tasks: Tasks, t: Task, use: Use, held: set<Mutex>)
    requires Exclusive(held, tasks) && use.Waiting? && t !in tasks
    ensures Exclusive(held, tasks[t := use])
  {
    var after := tasks[t := use];
    assert forall u, m :: Holds(tasks, u, m) <==> Holds(after, u, m);
    forall m ensures m in held <==> exists u :: Holds(after, u, m) {
      if u :| Holds(tasks, u, m) { assert Holds(after, u, m); }
    }
  }

  lemma HoldsDropped(tasks: Tasks, t: Task, held: set<Mutex>)
    requires Exclusive(held, tasks) && t in tasks && tasks[t].Waiting?
    ensures Exclusive(held, tasks - {t})
  {
    assert forall u, m :: Holds(tasks - {t}, u, m) <==> Holds(tasks, u, m);
  }

  lemma HoldsMore(tasks: Tasks, t: Task, use: Use, held: set<Mutex>)
    requires Exclusive(held, tasks) && t in tasks && tasks[t].Waiting? && use.Holding? && use.lock !in held
    ensures Exclusive(held + {use.lock}, tasks[t := use])
  {
    var after := tasks[t := use];
    assert Holds(after, t, use.lock);
    assert forall u, m :: u != t ==> (Holds(after, u, m) <==> Holds(tasks, u, m));
  }

  lemma HoldsLess(tasks: Tasks, t: Task, use: Use, held: set<Mutex>)
    requires Exclusive(held, tasks) && t in tasks && tasks[t].Holding? && use.Waiting? && use.lock == tasks[t].lock
    ensures Exclusive(held - {use.lock}, tasks[t := use])
  {
    var after := tasks[t := use];
    assert forall u, m :: u != t ==> (Holds(after, u, m) <==> Holds(tasks, u, m));
    assert forall m :: Holds(tasks, t, m) <==> m == use.lock;
    assert Holds(tasks, t, use.lock);
  }

  /** What pruning leaves: the locks somebody besides the map still holds on to. */
  function Pruned(locks: map<NodeId, Mutex>, strong: map<Mutex, nat>): map<NodeId, Mutex> {
    map n | n in locks && locks[n] in strong && strong[locks[n]] > 1 :: locks[n]
  }

  lemma UsedIsKept(locks: map<NodeId, Mutex>, strong: map<Mutex, nat>, tasks: Tasks, next: int, t: Task)
    requires Consistent(locks, strong, tasks, next) && t in tasks
    ensures tasks[t].node in Pruned(locks, strong)
  {
    assert t in Handles(tasks, tasks[t].lock);
  }

  /** A lock some task has a handle on survives pruning. */
  lemma PruneSafe(locks: map<NodeId, Mutex>, strong: map<Mutex, nat>, tasks: Tasks, next: int)
    requires Consistent(locks, strong, tasks, next)
    ensures Consistent(Pruned(locks, strong), strong, tasks, next)
  {
    forall t | t in tasks ensures tasks[t].node in Pruned(locks, strong) { UsedIsKept(locks, strong, tasks, next, t); }
  }

  /** And only such locks do. */
  lemma PruneExact(locks: map<NodeId, Mutex>, strong: map<Mutex, nat>, tasks: Tasks, next: int, n: NodeId)
    requires Consistent(locks, strong, tasks, next) && n in locks
    ensures n in Pruned(locks, strong) <==> exists t :: t in tasks && tasks[t].node == n
  {
    var users := Handles(tasks, locks[n]);
    if t :| t in tasks && tasks[t].node == n { UsedIsKept(locks, strong, tasks, next, t); }
    if |users| > 0 {
      var t :| t in users;
      assert t in tasks && tasks[t].node == n;
    }
  }

  lemma {:induction false} NodesInUse(tasks: Tasks)
    ensures |set t | t in tasks :: tasks[t].node| <= |tasks|
    decreases |tasks|
  {
    if tasks != map[] {
      var t :| t in tasks;
      var rest := tasks - {t};
      assert tasks.Keys == rest.Keys + {t};
      NodesInUse(rest);
      var fewer := set u | u in rest :: rest[u].node;
      assert (set u | u in tasks :: tasks[u].node) == fewer + {tasks[t].node};
    }
  }

  lemma Fewer(a: set<NodeId>, b: set<NodeId>)
    requires a <= b
    ensures |a| <= |b|
  {
    assert b == a + (b - a);
  }

  /** Pruning leaves no more locks than there are tasks. */
  lemma PrunedBounded(locks: map<NodeId, Mutex>, strong: map<Mutex, nat>, tasks: Tasks, next: int)
    requires Consistent(locks, strong, tasks, next)
    ensures |Pruned(locks, strong)| <= |tasks|
  {
    var nodes := set t | t in tasks :: tasks[t].node;
    forall n | n in Pruned(locks, strong) ensures n in nodes { PruneExact(locks, strong, tasks, next, n); }
    NodesInUse(tasks);
    Fewer(Pruned(locks, strong).Keys, nodes);
  }

  class WriteLocks {
    /** How many locks the map may have before it is pruned. */
    const limit: int
    var locks: map<NodeId, Mutex>
    var strong: map<Mutex, nat>
    var held: set<Mutex>
    var next: int
    ghost var tasks: Tasks

    ghost predicate Valid()
      reads this
    {
      Consistent(locks, strong, tasks, next) && Exclusive(held, tasks)
    }

    constructor (limit: int)
      ensures Valid() && tasks == map[] && this.limit == limit
    {
      this.limit := limit;
      locks, strong, held, next, tasks := map[], map[], {}, 0, map[];
    }

    /** Once over the limit, forget every lock no task has a handle on. */
    method Prune()
      requires Valid()
      modifies this`locks
      ensures Valid() && locks == if |old(locks)| > limit then Pruned(old(locks), strong) else old(locks)
    {
      var crowded := |locks| > limit;
      if crowded {
        PruneSafe(locks, strong, tasks, next);
        locks := Pruned(locks, strong);
      }
    }

    method Clone(n: NodeId, ghost t: Task) returns (m: Mutex)
      requires Valid() && n in locks && t !in tasks
      modifies this`strong, this`tasks
      ensures Valid() && tasks == old(tasks)[t := Waiting(n, m)]
      ensures forall u :: u in old(tasks) && old(tasks)[u].node == n ==> old(tasks)[u].lock == m
    {
      m := locks[n];
      Cloned(locks, strong, tasks, next, n, t);
      HoldsSame(tasks, t, Waiting(n, m), held);
      strong := strong[m := strong[m] + 1];
      tasks := tasks[t := Waiting(n, m)];
    }

    /** A handle on the lock of one file, created on demand; whoever has one already has the same. */
    method Obtain(n: NodeId, ghost t: Task) returns (m: Mutex)
      requires Valid() && t !in tasks
      modifies this`locks, this`strong, this`next, this`tasks
      ensures Valid() && tasks == old(tasks)[t := Waiting(n, m)]
      ensures forall u :: u in old(tasks) && old(tasks)[u].node == n ==> old(tasks)[u].lock == m
      ensures |locks| <= limit + 1 || |locks| <= |old(tasks)| + 1
    {
      Entry(n);
      m := Clone(n, t);
    }

    method Entry(n: NodeId)
      requires Valid()
      modifies this`locks, this`strong, this`next
      ensures Valid() && n in locks && (|locks| <= limit + 1 || |locks| <= |tasks| + 1)
    {
      PrunedBounded(locks, strong, tasks, next);
      Prune();
      if n !in locks { Create(n); }
    }

    method Create(n: NodeId)
      requires Valid() && n !in locks
      modifies this`locks, this`strong, this`next
      ensures Valid() && n in locks && |locks| == |old(locks)| + 1
    {
      var m := Mutex(next);
      Created(locks, strong, tasks, next, n);
      next := next + 1;
      locks := locks[n := m];
      strong := strong[m := 1];
    }

    /** Lock it, unless another task has; a task that has to wait asks again. */
    method TryAcquire(m: Mutex, ghost t: Task) returns (ok: bool)
      requires Valid() && t in tasks && tasks[t].Waiting? && tasks[t].lock == m
      modifies this`held, this`tasks
      ensures Valid() && (ok <==> forall u :: !Holds(old(tasks), u, m))
      ensures tasks == if ok then old(tasks)[t := Holding(old(tasks)[t].node, m)] else old(tasks)
    {
      if m in held { return false; }
      Relabelled(locks, strong, tasks, next, t, Holding(tasks[t].node, m));
      HoldsMore(tasks, t, Holding(tasks[t].node, m), held);
      held := held + {m};
      tasks := tasks[t := Holding(tasks[t].node, m)];
      ok := true;
    }

    method Release(m: Mutex, ghost t: Task)
      requires Valid() && t in tasks && tasks[t].Holding? && tasks[t].lock == m
      modifies this`held, this`tasks
      ensures Valid() && tasks == old(tasks)[t := Waiting(old(tasks)[t].node, m)] && m !in held
    {
      Relabelled(locks, strong, tasks, next, t, Waiting(tasks[t].node, m));
      HoldsLess(tasks, t, Waiting(tasks[t].node, m), held);
      held := held - {m};
      tasks := tasks[t := Waiting(tasks[t].node, m)];
    }

    /** Give the handle back; a task may do so while it is still waiting. */
    method Drop(m: Mutex, ghost t: Task)
      requires Valid() && t in tasks && tasks[t].Waiting? && tasks[t].lock == m
      modifies this`strong, this`tasks
      ensures Valid() && tasks == old(tasks) - {t}
    {
      Dropped(locks, strong, tasks, next, t);
      HoldsDropped(tasks, t, held);
      strong := strong[m := strong[m] - 1];
      tasks := tasks - {t};
    }
  }

  lemma Created(locks: map<NodeId, Mutex>, strong: map<Mutex, nat>, tasks: Tasks, next: int, n: NodeId)
    requires Consistent(locks, strong, tasks, next) && n !in locks
    ensures Consistent(locks[n := Mutex(next)], strong[Mutex(next) := 1], tasks, next + 1)
  {
    assert Handles(tasks, Mutex(next)) == {};
  }

  lemma Cloned(locks: map<NodeId, Mutex>, strong: map<Mutex, nat>, tasks: Tasks, next: int, n: NodeId, t: Task)
    requires Consistent(locks, strong, tasks, next) && n in locks && t !in tasks
    ensures Consistent(locks, strong[locks[n] := strong[locks[n]] + 1], tasks[t := Waiting(n, locks[n])], next)
  {
    forall m | m in locks ensures |Handles(tasks[t := Waiting(n, locks[n])], locks[m])| == |Handles(tasks, locks[m])| + if m == n then 1 else 0 {
      HandlesAdd(tasks, t, Waiting(n, locks[n]), locks[m]);
    }
  }

  lemma Dropped(locks: map<NodeId, Mutex>, strong: map<Mutex, nat>, tasks: Tasks, next: int, t: Task)
    requires Consistent(locks, strong, tasks, next) && t in tasks
    ensures tasks[t].lock in strong && strong[tasks[t].lock] > 1
    ensures Consistent(locks, strong[tasks[t].lock := strong[tasks[t].lock] - 1], tasks - {t}, next)
  {
    assert t in Handles(tasks, tasks[t].lock);
    forall m | m in locks ensures |Handles(tasks, locks[m])| == |Handles(tasks - {t}, locks[m])| + if m == tasks[t].node then 1 else 0 {
      HandlesDrop(tasks, t, locks[m]);
    }
  }

  lemma Relabelled(locks: map<NodeId, Mutex>, strong: map<Mutex, nat>, tasks: Tasks, next: int, t: Task, use: Use)
    requires Consistent(locks, strong, tasks, next) && t in tasks && use.node == tasks[t].node && use.lock == tasks[t].lock
    ensures Consistent(locks, strong, tasks[t := use], next)
  {
    forall m: Mutex ensures Handles(tasks[t := use], m) == Handles(tasks, m) { HandlesSame(tasks, t, use, m); }
  }
}
