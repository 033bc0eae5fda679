/** Workgroup tasking: selective receive on continuation ids.

    A task suspends on one continuation id. A message for that id resumes it at once; a
    message for any other id, or for a task that does not exist (yet, or any more), is
    buffered per task and per id. `Arrive` is what one delivered message does to one task's
    slot; `Group` is the mutable object of the source, proved against it; the theorem is
    that a slot is a function of the per-id queues of messages alone. */
module Workgroup {
  import opened Common

  // Invariants of a queue map: no empty queue is kept, so equal contents are equal maps.
  type Queues<P> = q: map<nat, seq<P>> | forall k :: k in q ==> q[k] != [] witness map[]

  function QueueOf<P>(q: map<nat, seq<P>>, k: nat): seq<P> {
    if k in q then q[k] else []
  }

  function Push<P>(q: Queues<P>, k: nat, p: P): Queues<P> {
    q[k := QueueOf(q, k) + [p]]
  }

  function Pop<P>(q: Queues<P>, k: nat): Queues<P>
    requires k in q
  {
    if |q[k]| == 1 then q - {k} else q[k := q[k][1..]]
  }

  // The number of buffered messages.
  ghost function Size<P>(q: map<nat, seq<P>>): nat
    decreases |q|
  {
    if q == map[] then 0
    else
      var k :| k in q;
      |q[k]| + Size(q - {k})
  }

  lemma {:induction false} SizeSplit<P>(q: map<nat, seq<P>>, k: nat)
    requires k in q
    ensures Size(q) == |q[k]| + Size(q - {k})
    decreases |q|
  {
    var j :| j in q && Size(q) == |q[j]| + Size(q - {j});
    if j != k {
      SizeSplit(q - {j}, k);
      SizeSplit(q - {k}, j);
      assert q - {j} - {k} == q - {k} - {j};
    }
  }

  lemma PopShrinks<P>(q: Queues<P>, k: nat)
    requires k in q
    ensures Size(Pop(q, k)) == Size(q) - 1
  {
    SizeSplit(q, k);
    if |q[k]| > 1 {
      SizeSplit(Pop(q, k), k);
      assert Pop(q, k) - {k} == q - {k};
    }
  }

  // A task object: the continuation it is suspended on, whether it is still active, its fields.
  datatype Task<+S> = Task(continuation: nat, active: bool, state: S)

  // The user's code: the task constructor and the continuation bodies.
  datatype Program<!S, !P> = Program(create: P -> Task<S>, resume: (Task<S>, P) -> Task<S>)

  // Everything a workgroup holds for one task id. `log` is what the task has consumed so far,
  // with the ids it was suspended on.
  datatype Slot<+S, P> = Slot(task: Option<Task<S>>, log: seq<(nat, P)>, buffers: Queues<P>)

  datatype Message<+P> = Create(payload: P) | Resume(id: nat, payload: P)

  // The continuation runs on a payload; the task is kept only while it is active.
  function Consume<S, P>(prog: Program<S, P>, s: Slot<S, P>, p: P): Slot<S, P>
    requires s.task.Some?
  {
    var t := prog.resume(s.task.value, p);
    s.(task := if t.active then Some(t) else None, log := s.log + [(s.task.value.continuation, p)])
  }

  // A live task with a buffered message for its continuation.
  predicate Ready<S, P>(s: Slot<S, P>) {
    s.task.Some? && s.task.value.continuation in s.buffers
  }

  // Consume the front of the queue the task is suspended on.
  function TakeOne<S, P>(prog: Program<S, P>, s: Slot<S, P>): Slot<S, P>
    requires Ready(s)
  {
    var k := s.task.value.continuation;
    var c := Consume(prog, s, s.buffers[k][0]);
    c.(buffers := Pop(s.buffers, k))
  }

  // Repeat until nothing is buffered for the current continuation.
  ghost function Drain<S, P>(prog: Program<S, P>, s: Slot<S, P>): (r: Slot<S, P>)
    ensures !Ready(r)
    decreases Size(s.buffers)
  {
    if !Ready(s) then s
    else
      PopShrinks(s.buffers, s.task.value.continuation);
      Drain(prog, TakeOne(prog, s))
  }

  function Buffer<S, P>(s: Slot<S, P>, id: nat, p: P): Slot<S, P> {
    s.(buffers := Push(s.buffers, id, p))
  }

  // The effect of one delivered message.
  ghost function Arrive<S, P>(prog: Program<S, P>, s: Slot<S, P>, m: Message<P>): Slot<S, P> {
    match m
    case Create(p) =>
      var t := prog.create(p);
      if t.active then Drain(prog, s.(task := Some(t))) else s
    case Resume(id, p) =>
      if s.task.Some? && s.task.value.continuation == id then
        var c := Consume(prog, s, p);
        if c.task.Some? then Drain(prog, c) else c
      else Buffer(s, id, p)
  }

  // ---------------------------------------------------------------- confluence of one slot

  lemma PopPush<P>(q: Queues<P>, k: nat, j: nat, p: P)
    requires k in q
    ensures Push(q, j, p)[k][0] == q[k][0]
    ensures Pop(Push(q, j, p), k) == Push(Pop(q, k), j, p)
  {
    var pushed := Push(q, j, p);
    if j != k {
      assert pushed[k] == q[k];
      if |q[k]| == 1 {
        assert pushed - {k} == (q - {k})[j := pushed[j]];
      } else {
        assert pushed[k := q[k][1..]] == q[k := q[k][1..]][j := pushed[j]];
      }
    } else {
      assert (q[k] + [p])[1..] == q[k][1..] + [p];
      assert pushed[k := pushed[k][1..]] == q[k := q[k][1..] + [p]];
      if |q[k]| == 1 {
        assert (q - {k})[k := [p]] == q[k := [p]];
      } else {
        assert q[k := q[k][1..]][k := q[k][1..] + [p]] == q[k := q[k][1..] + [p]];
      }
    }
  }

  /** Buffering behind a message that can be consumed changes nothing but the order of the two
      steps: draining later messages in is the same as draining first and then delivering. */
  lemma {:induction false} DrainThenArrive<S, P>(prog: Program<S, P>, s: Slot<S, P>, id: nat, p: P)
    ensures Arrive(prog, Drain(prog, s), Resume(id, p)) == Drain(prog, Buffer(s, id, p))
    decreases Size(s.buffers)
  {
    var b := Buffer(s, id, p);
    if Ready(s) {
      var k := s.task.value.continuation;
      PopShrinks(s.buffers, k);
      PopPush(s.buffers, k, id, p);
      assert TakeOne(prog, b) == Buffer(TakeOne(prog, s), id, p);
      DrainThenArrive(prog, TakeOne(prog, s), id, p);
    } else if s.task.Some? && s.task.value.continuation == id {
      assert b.buffers[id] == [p];
      assert Pop(b.buffers, id) == s.buffers;
      assert TakeOne(prog, b) == Consume(prog, s, p);
    }
  }

  // ---------------------------------------------------------------- runs

  ghost function Run<S, P>(prog: Program<S, P>, s: Slot<S, P>, ms: seq<Message<P>>): Slot<S, P> {
    if ms == [] then s
    else Arrive(prog, Run(prog, s, ms[..|ms| - 1]), ms[|ms| - 1])
  }

  // The messages of one continuation id, in arrival order.
  function Select<P>(ms: seq<Message<P>>, id: nat): seq<P> {
    if ms == [] then []
    else
      var rest, last := Select(ms[..|ms| - 1], id), ms[|ms| - 1];
      if last.Resume? && last.id == id then rest + [last.payload] else rest
  }

  // The payloads of the create messages, in arrival order (a task id is created at most once).
  function Creations<P>(ms: seq<Message<P>>): seq<P> {
    if ms == [] then []
    else
      var rest, last := Creations(ms[..|ms| - 1]), ms[|ms| - 1];
      if last.Create? then rest + [last.payload] else rest
  }

  // Every message of the run put into its queue, none consumed.
  function Queued<P>(ms: seq<Message<P>>): (q: Queues<P>)
    ensures forall id :: QueueOf(q, id) == Select(ms, id)
  {
    if ms == [] then map[]
    else
      var rest, last := Queued(ms[..|ms| - 1]), ms[|ms| - 1];
      if last.Resume? then Push(rest, last.id, last.payload) else rest
  }

  // What a run amounts to: the created task fed from complete queues.
  ghost function Settled<S, P>(prog: Program<S, P>, ms: seq<Message<P>>): Slot<S, P> {
    var made := Creations(ms);
    var t := if made == [] then None
             else var t := prog.create(made[0]); if t.active then Some(t) else None;
    Drain(prog, Slot(t, [], Queued(ms)))
  }

  function Vacant<S, P>(): Slot<S, P> {
    Slot(None, [], map[])
  }

  /** A run with at most one creation, in whatever order its messages arrive, leaves the slot
      that feeding the finished queues to the task would: messages that came before the
      creation, or before the continuation they are for, are not lost or reordered. */
  lemma {:induction false} RunSettles<S, P>(prog: Program<S, P>, ms: seq<Message<P>>)
    requires |Creations(ms)| <= 1
    ensures Run(prog, Vacant(), ms) == Settled(prog, ms)
    decreases |ms|
  {
    if ms != [] {
      var pre, last := ms[..|ms| - 1], ms[|ms| - 1];
      RunSettles(prog, pre);
      var made := Creations(pre);
      match last
      case Create(p) =>
        assert made == [];
        assert Settled(prog, pre) == Slot(None, [], Queued(pre));
      case Resume(id, p) =>
        var t := if made == [] then None
                 else var t := prog.create(made[0]); if t.active then Some(t) else None;
        DrainThenArrive(prog, Slot(t, [], Queued(pre)), id, p);
    }
  }

  // ---------------------------------------------------------------- what the task has been through

  // The task after its continuations have run on these payloads, one after the other.
  function Continued<S, P>(prog: Program<S, P>, creation: P, log: seq<(nat, P)>): Task<S> {
    if log == [] then prog.create(creation)
    else prog.resume(Continued(prog, creation, log[..|log| - 1]), log[|log| - 1].1)
  }

  // Each payload was consumed by a task that was active and waited for it.
  predicate Awaited<S, P>(prog: Program<S, P>, creation: P, log: seq<(nat, P)>) {
    forall i :: 0 <= i < |log| ==>
      Continued(prog, creation, log[..i]).active && Continued(prog, creation, log[..i]).continuation == log[i].0
  }

  // The task is held exactly while it is active.
  ghost predicate Traced<S, P>(prog: Program<S, P>, creation: P, s: Slot<S, P>) {
    var t := Continued(prog, creation, s.log);
    Awaited(prog, creation, s.log) && s.task == if t.active then Some(t) else None
  }

  lemma ConsumeTraced<S, P>(prog: Program<S, P>, creation: P, s: Slot<S, P>, p: P)
    requires Traced(prog, creation, s) && s.task.Some?
    ensures Traced(prog, creation, Consume(prog, s, p))
  {
    var log := Consume(prog, s, p).log;
    forall i | 0 <= i < |log|
      ensures Continued(prog, creation, log[..i]).active
      ensures Continued(prog, creation, log[..i]).continuation == log[i].0
    {
      assert log[..i] == s.log[..i];
      assert s.log[..|s.log|] == s.log;
    }
    assert log[..|log| - 1] == s.log;
  }

  lemma {:induction false} DrainTraced<S, P>(prog: Program<S, P>, creation: P, s: Slot<S, P>)
    requires Traced(prog, creation, s)
    ensures Traced(prog, creation, Drain(prog, s))
    decreases Size(s.buffers)
  {
    if Ready(s) {
      var k := s.task.value.continuation;
      PopShrinks(s.buffers, k);
      ConsumeTraced(prog, creation, s, s.buffers[k][0]);
      DrainTraced(prog, creation, TakeOne(prog, s));
    }
  }

  /** Over any run, the task that is held is the one that was created, after its continuations have run on
      the payloads consumed, in their order; each of these was for the continuation the task waited at then;
      once it has become inactive the task is not held and consumes nothing; and nothing is buffered for the
      continuation it waits at. Before the creation nothing is consumed. */
  lemma {:induction false} TaskIsContinued<S, P>(prog: Program<S, P>, ms: seq<Message<P>>)
    requires |Creations(ms)| <= 1
    ensures var r, made := Run(prog, Vacant(), ms), Creations(ms);
      && (if made == [] then r.task == None && r.log == [] else Traced(prog, made[0], r))
      && (r.task.Some? ==> r.task.value.continuation !in r.buffers)
    decreases |ms|
  {
    if ms != [] {
      var pre, last := ms[..|ms| - 1], ms[|ms| - 1];
      TaskIsContinued(prog, pre);
      var r, made := Run(prog, Vacant(), pre), Creations(pre);
      match last
      case Create(p) =>
        assert made == [];
        var t := prog.create(p);
        assert Traced(prog, p, r.(task := if t.active then Some(t) else None));
        DrainTraced(prog, p, r.(task := if t.active then Some(t) else None));
      case Resume(id, p) =>
        if r.task.Some? && r.task.value.continuation == id {
          ConsumeTraced(prog, made[0], r, p);
          DrainTraced(prog, made[0], Consume(prog, r, p));
        }
    }
  }

  // What a task has consumed under one continuation id.
  function Consumed<P>(log: seq<(nat, P)>, id: nat): seq<P> {
    if log == [] then []
    else
      var rest, last := Consumed(log[..|log| - 1], id), log[|log| - 1];
      if last.0 == id then rest + [last.1] else rest
  }

  lemma TakeOneConserves<S, P>(prog: Program<S, P>, s: Slot<S, P>, id: nat)
    requires Ready(s)
    ensures var r := TakeOne(prog, s);
            Consumed(r.log, id) + QueueOf(r.buffers, id) == Consumed(s.log, id) + QueueOf(s.buffers, id)
  {
    var k, next := s.task.value.continuation, TakeOne(prog, s);
    assert next.log[..|next.log| - 1] == s.log;
    if id == k {
      assert [s.buffers[k][0]] + QueueOf(next.buffers, k) == s.buffers[k];
    }
  }

  lemma {:induction false} DrainConserves<S, P>(prog: Program<S, P>, s: Slot<S, P>, id: nat)
    ensures var r := Drain(prog, s);
            Consumed(r.log, id) + QueueOf(r.buffers, id) == Consumed(s.log, id) + QueueOf(s.buffers, id)
    decreases Size(s.buffers)
  {
    if Ready(s) {
      PopShrinks(s.buffers, s.task.value.continuation);
      TakeOneConserves(prog, s, id);
      DrainConserves(prog, TakeOne(prog, s), id);
    }
  }

  /** First come, first served per id, nothing lost, nothing consumed twice: what the task
      consumed under an id, followed by what is still buffered for it, is what arrived for it. */
  lemma NothingLost<S, P>(prog: Program<S, P>, ms: seq<Message<P>>, id: nat)
    requires |Creations(ms)| <= 1
    ensures var r := Run(prog, Vacant(), ms);
            Consumed(r.log, id) + QueueOf(r.buffers, id) == Select(ms, id)
  {
    RunSettles(prog, ms);
    var made := Creations(ms);
    var t := if made == [] then None
             else var t := prog.create(made[0]); if t.active then Some(t) else None;
    DrainConserves(prog, Slot(t, [], Queued(ms)), id);
  }

  lemma SameQueues<P>(a: seq<Message<P>>, b: seq<Message<P>>)
    requires forall id :: Select(a, id) == Select(b, id)
    ensures Queued(a) == Queued(b)
  {
    var p, q := Queued(a), Queued(b);
    forall id: nat
      ensures id in p <==> id in q
      ensures id in p && id in q ==> p[id] == q[id]
    {
      assert QueueOf(p, id) == QueueOf(q, id);
    }
  }

  // ---------------------------------------------------------------- whole workgroups

  // A delivered message together with the task id it names.
  datatype Arrival<+P> = Arrival(tid: nat, msg: Message<P>)

  function SlotOf<S, P>(w: map<nat, Slot<S, P>>, tid: nat): Slot<S, P> {
    if tid in w then w[tid] else Vacant()
  }

  ghost function RunAll<S, P>(prog: Program<S, P>, arrivals: seq<Arrival<P>>): map<nat, Slot<S, P>> {
    if arrivals == [] then map[]
    else
      var w, last := RunAll(prog, arrivals[..|arrivals| - 1]), arrivals[|arrivals| - 1];
      w[last.tid := Arrive(prog, SlotOf(w, last.tid), last.msg)]
  }

  function For<P>(arrivals: seq<Arrival<P>>, tid: nat): seq<Message<P>> {
    if arrivals == [] then []
    else
      var rest, last := For(arrivals[..|arrivals| - 1], tid), arrivals[|arrivals| - 1];
      if last.tid == tid then rest + [last.msg] else rest
  }

  lemma {:induction false} RunAllIsPerTask<S, P>(prog: Program<S, P>, arrivals: seq<Arrival<P>>, tid: nat)
    ensures SlotOf(RunAll(prog, arrivals), tid) == Run(prog, Vacant(), For(arrivals, tid))
    decreases |arrivals|
  {
    if arrivals != [] {
      var pre, last := arrivals[..|arrivals| - 1], arrivals[|arrivals| - 1];
      RunAllIsPerTask(prog, pre, tid);
      if last.tid == tid {
        var ms := For(arrivals, tid);
        assert ms[..|ms| - 1] == For(pre, tid);
      }
    }
  }

  // Two arrival orders that agree per (task, continuation id) and on the creations.
  ghost predicate Agree<P(!new)>(a: seq<Arrival<P>>, b: seq<Arrival<P>>) {
    && (forall tid: nat, id: nat :: Select(For(a, tid), id) == Select(For(b, tid), id))
    && (forall tid: nat :: Creations(For(a, tid)) == Creations(For(b, tid)))
  }

  /** Determinism: the interleaving of different ids and tasks is unobservable. Every task has
      consumed the same sequence of messages, is in the same state, and leaves the same
      buffers behind. */
  lemma Determinism<S, P(!new)>(prog: Program<S, P>, a: seq<Arrival<P>>, b: seq<Arrival<P>>, tid: nat)
    requires Agree(a, b)
    requires |Creations(For(a, tid))| <= 1
    ensures SlotOf(RunAll(prog, a), tid) == SlotOf(RunAll(prog, b), tid)
  {
    RunAllIsPerTask(prog, a, tid);
    RunAllIsPerTask(prog, b, tid);
    RunSettles(prog, For(a, tid));
    RunSettles(prog, For(b, tid));
    SameQueues(For(a, tid), For(b, tid));
  }

  // ---------------------------------------------------------------- the mutable workgroup

  // The queues of one task id as the source keeps them: drained queues stay behind, empty.
  function Trim<P>(raw: map<nat, seq<P>>): (q: Queues<P>)
    ensures forall k :: QueueOf(q, k) == QueueOf(raw, k)
  {
    map k | k in raw && raw[k] != [] :: raw[k]
  }

  lemma TrimPop<P>(raw: map<nat, seq<P>>, id: nat)
    requires id in raw && raw[id] != []
    ensures Trim(raw[id := raw[id][1..]]) == Pop(Trim(raw), id)
  {
  }

  lemma TrimPush<P>(raw: map<nat, seq<P>>, id: nat, p: P)
    ensures Trim(raw[id := QueueOf(raw, id) + [p]]) == Push(Trim(raw), id, p)
  {
  }

  class Group<S, P> {
    const prog: Program<S, P>
    var active: nat
    var tasks: map<nat, Task<S>>
    var buffers: map<nat, map<nat, seq<P>>>
    ghost var logs: map<nat, seq<(nat, P)>>

    ghost function At(tid: nat): Slot<S, P>
      reads `tasks, `logs, `buffers
    {
      Slot(if tid in tasks then Some(tasks[tid]) else None,
           if tid in logs then logs[tid] else [],
           Trim(if tid in buffers then buffers[tid] else map[]))
    }

    // Between messages nothing is buffered for the continuation a task is suspended on.
    ghost predicate AtRest()
      reads `tasks, `logs, `buffers
    {
      forall tid :: !Ready(At(tid))
    }

    constructor (prog: Program<S, P>)
      ensures this.prog == prog && AtRest()
      ensures forall tid :: At(tid) == Vacant()
    {
      this.prog := prog;
      active, tasks, buffers, logs := 0, map[], map[], map[];
    }

    method Create(tid: nat, payload: P)
      requires AtRest()
      requires prog.create(payload).active ==> tid !in tasks
      modifies this
      ensures AtRest()
      ensures At(tid) == Arrive(prog, old(At(tid)), Message.Create(payload))
      ensures forall other :: other != tid ==> At(other) == old(At(other))
    {
      active := tid;
      var task := prog.create(payload);
      if task.active {
        tasks := tasks[tid := task];
        assert forall other :: other != tid ==> At(other) == old(At(other));
        TryContinue();
      }
      assert forall other :: other != tid ==> At(other) == old(At(other));
      assert !Ready(At(tid)) by { assert !Ready(old(At(tid))); }
      assert forall other :: other != tid ==> !Ready(old(At(other)));
    }

    method ResumeMessage(tid: nat, id: nat, payload: P)
      requires AtRest()
      modifies this
      ensures AtRest()
      ensures At(tid) == Arrive(prog, old(At(tid)), Message.Resume(id, payload))
      ensures forall other :: other != tid ==> At(other) == old(At(other))
    {
      var taken, keep := TryResume(tid, id, payload);
      if taken {
        if keep {
          TryContinue();
        }
      } else {
        BufferMessage(tid, id, payload);
      }
    }

    // Deliver to the task if it is suspended on this id; drop the task once it is inactive.
    method TryResume(tid: nat, id: nat, payload: P) returns (taken: bool, keep: bool)
      modifies this
      ensures taken <==> old(tid in tasks && tasks[tid].continuation == id)
      ensures taken ==> active == tid && At(tid) == Consume(prog, old(At(tid)), payload)
      ensures !taken ==> At(tid) == old(At(tid)) && active == old(active)
      ensures keep <==> taken && tid in tasks
      ensures buffers == old(buffers)
      ensures forall other :: other != tid ==> At(other) == old(At(other))
    {
      if tid !in tasks || tasks[tid].continuation != id {
        return false, false;
      }
      active := tid;
      var task := prog.resume(tasks[tid], payload);
      logs := logs[tid := (if tid in logs then logs[tid] else []) + [(id, payload)]];
      tasks := if task.active then tasks[tid := task] else tasks - {tid};
      return true, task.active;
    }

    method TryContinue()
      requires active in tasks
      modifies this
      ensures active == old(active)
      ensures At(active) == Drain(prog, old(At(active)))
      ensures forall other :: other != active ==> At(other) == old(At(other))
      decreases Size(At(active).buffers)
    {
      var tid := active;
      var mine := if tid in buffers then buffers[tid] else map[];
      var id := tasks[tid].continuation;
      buffers := buffers[tid := mine];
      assert forall t :: At(t) == old(At(t));
      if id !in mine || mine[id] == [] {
        return;
      }
      PopShrinks(At(tid).buffers, id);
      var keep := TakeBuffered(tid, id);
      if keep {
        TryContinue();
      }
    }

    // The task consumes the first message buffered for the continuation it is suspended on.
    method TakeBuffered(tid: nat, id: nat) returns (keep: bool)
      requires tid == active && tid in tasks && tasks[tid].continuation == id
      requires tid in buffers && id in buffers[tid] && buffers[tid][id] != []
      modifies this
      ensures active == old(active) && (keep <==> tid in tasks)
      ensures At(tid) == TakeOne(prog, old(At(tid)))
      ensures forall other :: other != tid ==> At(other) == old(At(other))
    {
      var mine := buffers[tid];
      var taken;
      taken, keep := TryResume(tid, id, mine[id][0]);
      assert forall other :: other != tid ==> At(other) == old(At(other));
      buffers := buffers[tid := mine[id := mine[id][1..]]];
      TrimPop(mine, id);
    }

    method BufferMessage(tid: nat, id: nat, payload: P)
      modifies this
      ensures At(tid) == Buffer(old(At(tid)), id, payload)
      ensures active == old(active)
      ensures forall other :: other != tid ==> At(other) == old(At(other))
    {
      var mine := if tid in buffers then buffers[tid] else map[];
      buffers := buffers[tid := mine[id := QueueOf(mine, id) + [payload]]];
      TrimPush(mine, id, payload);
    }
  }
}
