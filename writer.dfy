/**
 * The BLE write queue of utils/batteryManager.js: `WriteTask`, `WritePriority` and
 * `BluetoothWriter`.
 *
 * The asynchronous parts become explicit events. A running `_processQueue` loop is a `Worker`,
 * suspended either on a write (`Writing`) or on the 50 ms pause that follows it (`Pausing`).
 * `Settle` delivers the outcome of the transport write, success or failure, chosen by the
 * caller; `Resume` continues the loop after the pause. Each task's promise is identified by its
 * `id`; `outcomes` maps every settled promise to its value, and the first resolution of a promise
 * is the one that counts.
 *
 * The pure functions on `Queue` specify each step; the class `BluetoothWriter` performs them on
 * its fields and is proved against them.
 */
module Writer {
  import opened Options
  import opened ByteCodec

  /** The device, service and characteristic a write goes to. */
  datatype Characteristic = Characteristic(deviceId: string, serviceId: string, characteristicId: string)

  /** `WritePriority` */
  datatype Priority = Low | Normal | High

  /** A `WriteTask`: the characteristic it was created for, its payload and its promise. */
  datatype WriteTask = WriteTask(id: nat, characteristic: Characteristic, data: seq<Byte>)

  /**
   * A running `_processQueue` loop: awaiting a write of `task` to `target` (the write
   * characteristic read when the write started), or awaiting the pause after a write.
   */
  datatype Worker =
    | Writing(task: WriteTask, target: Option<Characteristic>)
    | Pausing

  /** The settled promises: task id to the boolean each one resolved with. */
  type Outcomes = map<nat, bool>

  /** The queue part of a writer: `_writeQueue`, the running loops, `_isProcessingQueue`, the promises. */
  datatype Queue = Queue(tasks: seq<WriteTask>, workers: seq<Worker>, processing: bool, outcomes: Outcomes)

  /** `task.complete(result)`: a promise resolves once, so a second resolution changes nothing. */
  function Resolve(outcomes: Outcomes, id: nat, result: bool): (r: Outcomes)
    ensures r.Keys == outcomes.Keys + {id}
    ensures r[id] == if id in outcomes then outcomes[id] else result
    ensures forall k :: k in outcomes ==> r[k] == outcomes[k]
  {
    if id in outcomes then outcomes else outcomes[id := result]
  }

  /** Resolving every task of `tasks` in order, as `dispose`'s `forEach` does. */
  function ResolveAll(outcomes: Outcomes, tasks: seq<WriteTask>, result: bool): Outcomes
    decreases |tasks|
  {
    if tasks == [] then outcomes
    else Resolve(ResolveAll(outcomes, tasks[..|tasks| - 1], result), tasks[|tasks| - 1].id, result)
  }

  /** After the loop, exactly the earlier promises and the promises of `tasks` have settled. */
  lemma {:induction false} ResolveAllKeys(outcomes: Outcomes, tasks: seq<WriteTask>, result: bool)
    ensures ResolveAll(outcomes, tasks, result).Keys == outcomes.Keys + set t | t in tasks :: t.id
    decreases |tasks|
  {
    if tasks != [] {
      var init := tasks[..|tasks| - 1];
      var last := tasks[|tasks| - 1];
      ResolveAllKeys(outcomes, init, result);
      assert tasks == init + [last];
      IdsSnoc(init, last);
    }
  }

  /** The ids of a list with one more task are the earlier ids and that task's. */
  lemma IdsSnoc(init: seq<WriteTask>, last: WriteTask)
    ensures (set t | t in init + [last] :: t.id) == (set t | t in init :: t.id) + {last.id}
  {
    forall t | t in init + [last] && t != last ensures t in init {
      var i :| 0 <= i < |init + [last]| && (init + [last])[i] == t;
      assert init[i] == t;
    }
  }

  /**
   * The loop leaves every earlier promise alone, and every task that had not settled before holds
   * `result`.
   */
  lemma {:induction false} ResolveAllValues(outcomes: Outcomes, tasks: seq<WriteTask>, result: bool)
    ensures forall k :: k in outcomes ==> k in ResolveAll(outcomes, tasks, result) && ResolveAll(outcomes, tasks, result)[k] == outcomes[k]
    ensures forall t :: t in tasks && t.id !in outcomes ==>
      t.id in ResolveAll(outcomes, tasks, result) && ResolveAll(outcomes, tasks, result)[t.id] == result
    decreases |tasks|
  {
    if tasks != [] {
      var init := tasks[..|tasks| - 1];
      var last := tasks[|tasks| - 1];
      ResolveAllValues(outcomes, init, result);
      forall t | t in tasks && t.id !in outcomes
        ensures t.id in ResolveAll(outcomes, tasks, result) && ResolveAll(outcomes, tasks, result)[t.id] == result
      {
        if t != last {
          assert t in init by {
            var i :| 0 <= i < |tasks| && tasks[i] == t;
            assert init[i] == t;
          }
        } else if t.id in ResolveAll(outcomes, init, result) {
          ResolveAllKeys(outcomes, init, result);
          var t' :| t' in init && t'.id == t.id;
        }
      }
    }
  }

  /** `_isSameData` on two byte arrays: unequal lengths differ, otherwise compare byte by byte. */
  method IsSameData(a: seq<Byte>, b: seq<Byte>) returns (same: bool)
    ensures same <==> a == b
  {
    if |a| != |b| {
      return false;
    }
    var i := 0;
    while i < |a|
      invariant 0 <= i <= |a|
      invariant a[..i] == b[..i]
    {
      if a[i] != b[i] {
        return false;
      }
      i := i + 1;
    }
    assert a == a[..i] && b == b[..i];
    return true;
  }

  /** The head dedup of `_enqueueWrite`: a HIGH payload equal to the one at the queue's head. */
  predicate IsHeadDuplicate(tasks: seq<WriteTask>, data: seq<Byte>, priority: Priority) {
    priority == High && |tasks| > 0 && tasks[0].data == data
  }

  /** `unshift` for HIGH, `push` otherwise. */
  function Place(tasks: seq<WriteTask>, task: WriteTask, priority: Priority): (q: seq<WriteTask>)
    ensures |q| == |tasks| + 1
    ensures priority == High ==> q[0] == task && q[1..] == tasks
    ensures priority != High ==> q[|tasks|] == task && q[..|tasks|] == tasks
  {
    if priority == High then [task] + tasks else tasks + [task]
  }

  /** Placing a task adds it and keeps every queued task: the new queue is a permutation of the old one plus the task. */
  lemma PlacePermutes(tasks: seq<WriteTask>, task: WriteTask, priority: Priority)
    ensures multiset(Place(tasks, task, priority)) == multiset(tasks) + multiset{task}
  {
    var q := Place(tasks, task, priority);
    if priority == High {
      assert q == [task] + tasks;
    } else {
      assert q == tasks + [task];
    }
  }

  /**
   * `_writeBLECharacteristicValue` reads `_writeCharacteristic` when it is called; with none set,
   * reading its `deviceId` throws and the loop records `false`.
   */
  function WriteResult(target: Option<Characteristic>, ok: bool): (success: bool)
    ensures success ==> target.Some?
    ensures target.Some? ==> success == ok
  {
    target.Some? && ok
  }

  /** The ids of the tasks being written. */
  ghost function WorkerIds(workers: seq<Worker>): set<nat> {
    set w | w in workers && w.Writing? :: w.task.id
  }

  /** Every unsettled promise the writer still holds: the queued tasks and the tasks being written. */
  ghost function Pending(s: Queue): set<nat> {
    (set t | t in s.tasks :: t.id) + WorkerIds(s.workers)
  }

  /**
   * Promise bookkeeping: the held ids are distinct, issued (below `nextId`) and unsettled, and
   * every settled promise was issued.
   */
  ghost predicate Inv(s: Queue, nextId: nat) {
    (forall i, j :: 0 <= i < j < |s.tasks| ==> s.tasks[i].id != s.tasks[j].id) &&
    (forall i, j :: 0 <= i < j < |s.workers| && s.workers[i].Writing? && s.workers[j].Writing? ==>
      s.workers[i].task.id != s.workers[j].task.id) &&
    (forall i, j :: 0 <= i < |s.tasks| && 0 <= j < |s.workers| && s.workers[j].Writing? ==>
      s.tasks[i].id != s.workers[j].task.id) &&
    (forall i :: 0 <= i < |s.tasks| ==> s.tasks[i].id < nextId && s.tasks[i].id !in s.outcomes) &&
    (forall j :: 0 <= j < |s.workers| && s.workers[j].Writing? ==>
      s.workers[j].task.id < nextId && s.workers[j].task.id !in s.outcomes) &&
    (forall k :: k in s.outcomes ==> k < nextId)
  }

  /** The single-loop discipline `_isProcessingQueue` is meant to keep: the flag is set exactly while one loop runs. */
  predicate Coherent(s: Queue) {
    |s.workers| <= 1 && (s.processing <==> |s.workers| == 1)
  }

  /**
   * `_processQueue` up to its first `await`: unless a loop already runs, the head task goes to
   * `target`; with nothing queued the flag is set and cleared again.
   */
  function Process(s: Queue, target: Option<Characteristic>): (r: Queue)
    ensures r.outcomes == s.outcomes
    ensures s.processing || s.tasks == [] ==> r == s
    ensures !s.processing && s.tasks != [] ==>
      r.processing && [s.tasks[0]] + r.tasks == s.tasks &&
      |r.workers| == |s.workers| + 1 && r.workers[..|s.workers|] == s.workers &&
      r.workers[|s.workers|] == Writing(s.tasks[0], target)
  {
    if s.processing || s.tasks == [] then s
    else s.(tasks := s.tasks[1..], workers := s.workers + [Writing(s.tasks[0], target)], processing := true)
  }

  /**
   * `_enqueueWrite` of `task` followed by `_processQueue`: a HIGH head duplicate resolves `true`
   * at once and is never queued; otherwise the task is placed by priority and the queue processed.
   */
  function Enqueue(s: Queue, task: WriteTask, priority: Priority, target: Option<Characteristic>): Queue {
    if IsHeadDuplicate(s.tasks, task.data, priority) then s.(outcomes := Resolve(s.outcomes, task.id, true))
    else Process(Placed(s, task, priority), target)
  }

  /**
   * The transport answered the write of worker `w` (`ok` is success or failure): the `finally`
   * block completes the task and the loop starts its 50 ms pause.
   */
  function Settle(s: Queue, w: nat, ok: bool): Queue
    requires w < |s.workers| && s.workers[w].Writing?
  {
    s.(workers := s.workers[w := Pausing],
       outcomes := Resolve(s.outcomes, s.workers[w].task.id, WriteResult(s.workers[w].target, ok)))
  }

  /**
   * The pause of worker `w` elapsed: its `while` takes the next queued task and writes it to the
   * current write characteristic, or, with the queue empty, ends and clears `_isProcessingQueue`.
   */
  function Resume(s: Queue, w: nat, target: Option<Characteristic>): Queue
    requires w < |s.workers| && s.workers[w].Pausing?
  {
    if s.tasks != [] then s.(tasks := s.tasks[1..], workers := s.workers[w := Writing(s.tasks[0], target)])
    else s.(workers := s.workers[..w] + s.workers[w + 1..], processing := false)
  }

  /** `setCharacteristic` empties `_writeQueue` without completing the dropped tasks. */
  function Drop(s: Queue): Queue {
    s.(tasks := [])
  }

  /** The queue part of `dispose`: every queued task resolves `false`, the queue empties and the flag clears. */
  function DisposeQueue(s: Queue): Queue {
    s.(tasks := [], processing := false, outcomes := ResolveAll(s.outcomes, s.tasks, false))
  }

  lemma ProcessInv(s: Queue, target: Option<Characteristic>, nextId: nat)
    requires Inv(s, nextId)
    ensures Inv(Process(s, target), nextId)
  {
    if !s.processing && s.tasks != [] {
      var r := Process(s, target);
      forall i, j | 0 <= i < |r.tasks| && 0 <= j < |r.workers| && r.workers[j].Writing?
        ensures r.tasks[i].id != r.workers[j].task.id
      {
        assert r.tasks[i] == s.tasks[i + 1];
      }
    }
  }

  lemma ProcessPending(s: Queue, target: Option<Characteristic>, nextId: nat)
    requires Inv(s, nextId)
    ensures Pending(Process(s, target)) == Pending(s)
  {
    if !s.processing && s.tasks != [] {
      var r := Process(s, target);
      var head := s.tasks[0];
      assert s.tasks == [head] + r.tasks;
      assert (set t | t in s.tasks :: t.id) == {head.id} + (set t | t in r.tasks :: t.id);
      assert WorkerIds(r.workers) == WorkerIds(s.workers) + {head.id};
    }
  }

  /** The queue after `_enqueueWrite` placed a task that is not a head duplicate. */
  function Placed(s: Queue, task: WriteTask, priority: Priority): Queue {
    s.(tasks := Place(s.tasks, task, priority))
  }

  lemma PlacedFrontInv(s: Queue, task: WriteTask)
    requires Inv(s, task.id)
    ensures Inv(s.(tasks := [task] + s.tasks), task.id + 1)
  {
    var p := s.(tasks := [task] + s.tasks);
    forall i | 0 < i < |p.tasks| ensures p.tasks[i] == s.tasks[i - 1] {
    }
  }

  lemma PlacedBackInv(s: Queue, task: WriteTask)
    requires Inv(s, task.id)
    ensures Inv(s.(tasks := s.tasks + [task]), task.id + 1)
  {
    var p := s.(tasks := s.tasks + [task]);
    forall i | 0 <= i < |s.tasks| ensures p.tasks[i] == s.tasks[i] {
    }
  }

  lemma PlacedInv(s: Queue, task: WriteTask, priority: Priority)
    requires Inv(s, task.id)
    ensures Inv(Placed(s, task, priority), task.id + 1)
  {
    if priority == High {
      PlacedFrontInv(s, task);
    } else {
      PlacedBackInv(s, task);
    }
  }

  lemma PlacedPending(s: Queue, task: WriteTask, priority: Priority)
    ensures Pending(Placed(s, task, priority)) == Pending(s) + {task.id}
  {
    var p := Placed(s, task, priority);
    PlacePermutes(s.tasks, task, priority);
    forall t | t in p.tasks ensures t in s.tasks || t == task {
      assert t in multiset(p.tasks);
    }
    forall t | t in s.tasks ensures t in p.tasks {
      assert t in multiset(s.tasks);
    }
    assert task in multiset(p.tasks);
    assert (set t | t in p.tasks :: t.id) == (set t | t in s.tasks :: t.id) + {task.id};
  }

  lemma ResolvedNewInv(s: Queue, id: nat, result: bool)
    requires Inv(s, id)
    ensures Inv(s.(outcomes := s.outcomes[id := result]), id + 1)
  {
  }

  /** Enqueueing a task whose id is the next one issued keeps the bookkeeping. */
  lemma EnqueueInv(s: Queue, task: WriteTask, priority: Priority, target: Option<Characteristic>)
    requires Inv(s, task.id)
    ensures Inv(Enqueue(s, task, priority, target), task.id + 1)
  {
    if IsHeadDuplicate(s.tasks, task.data, priority) {
      ResolvedNewInv(s, task.id, true);
    } else {
      PlacedInv(s, task, priority);
      ProcessInv(Placed(s, task, priority), target, task.id + 1);
    }
  }

  /**
   * A new task either resolves `true` at once (a head duplicate, never written) or becomes
   * pending with no promise settled; an accepted HIGH task is the next one written when no loop
   * is running.
   */
  lemma EnqueueSettlesOrHolds(s: Queue, task: WriteTask, priority: Priority, target: Option<Characteristic>)
    requires Inv(s, task.id)
    ensures IsHeadDuplicate(s.tasks, task.data, priority) ==>
      Enqueue(s, task, priority, target) == s.(outcomes := s.outcomes[task.id := true])
    ensures !IsHeadDuplicate(s.tasks, task.data, priority) ==>
      Enqueue(s, task, priority, target).outcomes == s.outcomes &&
      Pending(Enqueue(s, task, priority, target)) == Pending(s) + {task.id}
    ensures !IsHeadDuplicate(s.tasks, task.data, priority) && priority == High && !s.processing ==>
      Enqueue(s, task, priority, target).workers == s.workers + [Writing(task, target)]
  {
    if !IsHeadDuplicate(s.tasks, task.data, priority) {
      PlacedInv(s, task, priority);
      PlacedPending(s, task, priority);
      ProcessPending(Placed(s, task, priority), target, task.id + 1);
    }
  }

  /** The ids of the queued tasks are none of the ids being written. */
  lemma TasksNotWritten(s: Queue, nextId: nat)
    requires Inv(s, nextId)
    ensures (set t | t in s.tasks :: t.id) !! WorkerIds(s.workers)
  {
    forall t | t in s.tasks ensures t.id !in WorkerIds(s.workers) {
      var i :| 0 <= i < |s.tasks| && s.tasks[i] == t;
    }
  }

  lemma SettleInv(s: Queue, w: nat, ok: bool, nextId: nat)
    requires Inv(s, nextId) && w < |s.workers| && s.workers[w].Writing?
    ensures Inv(Settle(s, w, ok), nextId)
  {
  }

  /**
   * When the transport answers, worker `w`'s task settles with the transport's outcome (always
   * `false` without a write characteristic) and stops being pending.
   */
  lemma SettleKeeps(s: Queue, w: nat, ok: bool, nextId: nat)
    requires Inv(s, nextId) && w < |s.workers| && s.workers[w].Writing?
    ensures Inv(Settle(s, w, ok), nextId)
    ensures Settle(s, w, ok).outcomes == s.outcomes[s.workers[w].task.id := WriteResult(s.workers[w].target, ok)]
    ensures Pending(Settle(s, w, ok)) == Pending(s) - {s.workers[w].task.id}
    ensures Coherent(s) ==> Coherent(Settle(s, w, ok))
  {
    SettleInv(s, w, ok, nextId);
    TasksNotWritten(s, nextId);
    var r := Settle(s, w, ok);
    var id := s.workers[w].task.id;
    assert WorkerIds(r.workers) == WorkerIds(s.workers) - {id} by {
      forall x | x in WorkerIds(s.workers) && x != id ensures x in WorkerIds(r.workers) {
        var j :| 0 <= j < |s.workers| && s.workers[j].Writing? && s.workers[j].task.id == x;
        assert r.workers[j] == s.workers[j];
      }
      forall x | x in WorkerIds(r.workers) ensures x in WorkerIds(s.workers) && x != id {
        var j :| 0 <= j < |r.workers| && r.workers[j].Writing? && r.workers[j].task.id == x;
        assert r.workers[j] == s.workers[j];
      }
    }
  }

  lemma ResumeTakeInv(s: Queue, w: nat, target: Option<Characteristic>, nextId: nat)
    requires Inv(s, nextId) && w < |s.workers| && s.workers[w].Pausing? && s.tasks != []
    ensures Inv(Resume(s, w, target), nextId)
  {
    var r := Resume(s, w, target);
    forall i, j | 0 <= i < |r.tasks| && 0 <= j < |r.workers| && r.workers[j].Writing?
      ensures r.tasks[i].id != r.workers[j].task.id
    {
      assert r.tasks[i] == s.tasks[i + 1];
    }
  }

  lemma ResumeEndInv(s: Queue, w: nat, target: Option<Characteristic>, nextId: nat)
    requires Inv(s, nextId) && w < |s.workers| && s.workers[w].Pausing? && s.tasks == []
    ensures Inv(Resume(s, w, target), nextId)
  {
    var r := Resume(s, w, target);
    forall i, j | 0 <= i < j < |r.workers| && r.workers[i].Writing? && r.workers[j].Writing?
      ensures r.workers[i].task.id != r.workers[j].task.id
    {
      var i' := if i < w then i else i + 1;
      var j' := if j < w then j else j + 1;
      assert r.workers[i] == s.workers[i'] && r.workers[j] == s.workers[j'];
    }
    forall j | 0 <= j < |r.workers| && r.workers[j].Writing?
      ensures r.workers[j].task.id < nextId && r.workers[j].task.id !in r.outcomes
    {
      var j' := if j < w then j else j + 1;
      assert r.workers[j] == s.workers[j'];
    }
  }

  lemma ResumePending(s: Queue, w: nat, target: Option<Characteristic>)
    requires w < |s.workers| && s.workers[w].Pausing?
    ensures Pending(Resume(s, w, target)) == Pending(s)
  {
    var r := Resume(s, w, target);
    if s.tasks != [] {
      var head := s.tasks[0];
      assert s.tasks == [head] + r.tasks;
      assert (set t | t in s.tasks :: t.id) == {head.id} + (set t | t in r.tasks :: t.id);
      WorkerIdsStart(s.workers, w, Writing(head, target));
    } else {
      WorkerIdsRetire(s.workers, w);
    }
  }

  /** A paused loop that takes a task adds that task's id to those being written. */
  lemma WorkerIdsStart(workers: seq<Worker>, w: nat, next: Worker)
    requires w < |workers| && workers[w].Pausing? && next.Writing?
    ensures WorkerIds(workers[w := next]) == WorkerIds(workers) + {next.task.id}
  {
    var r := workers[w := next];
    forall x | x in WorkerIds(r) ensures x in WorkerIds(workers) + {next.task.id} {
      var j :| 0 <= j < |r| && r[j].Writing? && r[j].task.id == x;
      if j != w {
        assert r[j] == workers[j];
      }
    }
    forall x | x in WorkerIds(workers) ensures x in WorkerIds(r) {
      var j :| 0 <= j < |workers| && workers[j].Writing? && workers[j].task.id == x;
      assert r[j] == workers[j];
    }
    assert r[w] == next;
  }

  /** A paused loop that ends takes no id with it. */
  lemma WorkerIdsRetire(workers: seq<Worker>, w: nat)
    requires w < |workers| && workers[w].Pausing?
    ensures WorkerIds(workers[..w] + workers[w + 1..]) == WorkerIds(workers)
  {
    var r := workers[..w] + workers[w + 1..];
    forall x | x in WorkerIds(r) ensures x in WorkerIds(workers) {
      var j :| 0 <= j < |r| && r[j].Writing? && r[j].task.id == x;
      if j < w {
        assert r[j] == workers[j];
      } else {
        assert r[j] == workers[j + 1];
      }
    }
    forall x | x in WorkerIds(workers) ensures x in WorkerIds(r) {
      var j :| 0 <= j < |workers| && workers[j].Writing? && workers[j].task.id == x;
      if j < w {
        assert r[j] == workers[j];
      } else {
        assert r[j - 1] == workers[j];
      }
    }
  }

  /** After the pause, the loop either takes the next task or ends; nothing settles and nothing is lost. */
  lemma ResumeKeeps(s: Queue, w: nat, target: Option<Characteristic>, nextId: nat)
    requires Inv(s, nextId) && w < |s.workers| && s.workers[w].Pausing?
    ensures Inv(Resume(s, w, target), nextId)
    ensures Resume(s, w, target).outcomes == s.outcomes
    ensures Pending(Resume(s, w, target)) == Pending(s)
    ensures Coherent(s) ==> Coherent(Resume(s, w, target))
  {
    if s.tasks != [] {
      ResumeTakeInv(s, w, target, nextId);
    } else {
      ResumeEndInv(s, w, target, nextId);
    }
    ResumePending(s, w, target);
  }

  /**
   * `setCharacteristic` loses the queued tasks: their promises are neither settled nor held by
   * the writer any more, so they never settle.
   */
  lemma DropLoses(s: Queue, nextId: nat)
    requires Inv(s, nextId)
    ensures Inv(Drop(s), nextId)
    ensures forall t :: t in s.tasks ==> t.id !in Drop(s).outcomes && t.id !in Pending(Drop(s))
  {
    TasksNotWritten(s, nextId);
    forall t | t in s.tasks ensures t.id !in s.outcomes {
      var i :| 0 <= i < |s.tasks| && s.tasks[i] == t;
    }
  }

  /**
   * `dispose` settles every queued task `false` and leaves every earlier promise alone; the
   * tasks being written stay pending.
   */
  lemma DisposeSettles(s: Queue, nextId: nat)
    requires Inv(s, nextId)
    ensures forall t :: t in s.tasks ==> t.id in DisposeQueue(s).outcomes && !DisposeQueue(s).outcomes[t.id]
    ensures forall k :: k in s.outcomes ==> k in DisposeQueue(s).outcomes && DisposeQueue(s).outcomes[k] == s.outcomes[k]
    ensures Pending(DisposeQueue(s)) == WorkerIds(s.workers)
  {
    ResolveAllValues(s.outcomes, s.tasks, false);
    forall t | t in s.tasks ensures t.id !in s.outcomes {
      var i :| 0 <= i < |s.tasks| && s.tasks[i] == t;
    }
  }

  /** `dispose` keeps the promise bookkeeping. */
  lemma DisposeInv(s: Queue, nextId: nat)
    requires Inv(s, nextId)
    ensures Inv(DisposeQueue(s), nextId)
  {
    ResolveAllKeys(s.outcomes, s.tasks, false);
    TasksNotWritten(s, nextId);
    forall t | t in s.tasks ensures t.id < nextId {
      var i :| 0 <= i < |s.tasks| && s.tasks[i] == t;
    }
    var r := DisposeQueue(s);
    forall j | 0 <= j < |r.workers| && r.workers[j].Writing?
      ensures r.workers[j].task.id !in r.outcomes
    {
      assert r.workers[j].task.id in WorkerIds(s.workers);
    }
  }

  /** While the loop discipline holds, enqueueing keeps it: at most one loop writes at a time. */
  lemma EnqueueCoherent(s: Queue, task: WriteTask, priority: Priority, target: Option<Characteristic>)
    requires Coherent(s)
    ensures Coherent(Enqueue(s, task, priority, target))
  {
  }

  /**
   * `dispose` clears `_isProcessingQueue` while a suspended loop is still alive, so the next
   * write after it starts a second loop beside the first.
   */
  lemma DisposeStartsSecondLoop(s: Queue, task: WriteTask, priority: Priority, target: Option<Characteristic>)
    requires Coherent(s) && |s.workers| == 1
    ensures Coherent(DisposeQueue(s)) == false
    ensures |Enqueue(DisposeQueue(s), task, priority, target).workers| == 2
    ensures Enqueue(DisposeQueue(s), task, priority, target).processing
  {
  }

  /** `BluetoothWriter`. `heartbeatArmed` is whether `_heartbeatTimer` holds a running interval. */
  class BluetoothWriter {
    var writeCharacteristic: Option<Characteristic>
    var heartbeatCharacteristic: Option<Characteristic>
    var queue: seq<WriteTask>
    var heartbeatArmed: bool
    var heartbeatData: Option<seq<Byte>>
    var heartbeatInterval: nat
    var isProcessingQueue: bool
    var workers: seq<Worker>
    var outcomes: Outcomes
    var nextId: nat

    /** The queue part of the writer's state. */
    function State(): Queue
      reads this`queue, this`workers, this`isProcessingQueue, this`outcomes
    {
      Queue(queue, workers, isProcessingQueue, outcomes)
    }

    constructor()
      ensures writeCharacteristic.None? && heartbeatCharacteristic.None?
      ensures !heartbeatArmed && heartbeatData.None? && heartbeatInterval == 5000
      ensures State() == Queue([], [], false, map[]) && nextId == 0
    {
      writeCharacteristic := None;
      heartbeatCharacteristic := None;
      queue := [];
      heartbeatArmed := false;
      heartbeatData := None;
      heartbeatInterval := 5000;
      isProcessingQueue := false;
      workers := [];
      outcomes := map[];
      nextId := 0;
    }

    /** `setCharacteristic`: the queue is dropped (see `DropLoses`) and the heartbeat stops. */
    method SetCharacteristic(c: Option<Characteristic>)
      modifies this`writeCharacteristic, this`queue, this`heartbeatArmed
      ensures writeCharacteristic == c && State() == Drop(old(State())) && !heartbeatArmed
    {
      writeCharacteristic := c;
      queue := [];
      heartbeatArmed := false;
    }

    /** `setHeartbeatCharacteristic` */
    method SetHeartbeatCharacteristic(c: Option<Characteristic>)
      modifies this`heartbeatCharacteristic
      ensures heartbeatCharacteristic == c
    {
      heartbeatCharacteristic := c;
    }

    /** `setHeartbeat(data, interval)`: the old interval stops; a new one runs when there is data. */
    method SetHeartbeat(data: Option<seq<Byte>>, interval: nat)
      modifies this`heartbeatArmed, this`heartbeatData, this`heartbeatInterval
      ensures heartbeatData == data && heartbeatInterval == interval
      ensures heartbeatArmed <==> data.Some?
    {
      heartbeatArmed := false;
      heartbeatData := data;
      heartbeatInterval := interval;
      if heartbeatData.Some? {
        heartbeatArmed := true;
      }
    }

    /** `_processQueue` up to its first `await`. */
    method ProcessQueue()
      modifies this`isProcessingQueue, this`queue, this`workers
      ensures State() == Process(old(State()), writeCharacteristic)
    {
      if isProcessingQueue {
        return;
      }
      isProcessingQueue := true;
      if |queue| > 0 {
        var task := queue[0];
        queue := queue[1..];
        workers := workers + [Writing(task, writeCharacteristic)];
      } else {
        isProcessingQueue := false;
      }
    }

    /** `_enqueueWrite(characteristic, data, task, priority)` for an already created `task`. */
    method EnqueueTask(task: WriteTask, priority: Priority)
      modifies this`isProcessingQueue, this`queue, this`workers, this`outcomes
      ensures State() == Enqueue(old(State()), task, priority, writeCharacteristic)
    {
      var isSame := false;
      if |queue| > 0 {
        isSame := IsSameData(queue[0].data, task.data);
      }
      if priority == High && |queue| > 0 && isSame {
        outcomes := Resolve(outcomes, task.id, true);
        return;
      }
      queue := Place(queue, task, priority);
      ProcessQueue();
    }

    /** A new `WriteTask` for `c` and `data`, enqueued; `id` names its promise. */
    method EnqueueWrite(c: Characteristic, data: seq<Byte>, priority: Priority) returns (id: nat)
      modifies this`isProcessingQueue, this`queue, this`workers, this`outcomes, this`nextId
      ensures id == old(nextId) && nextId == id + 1
      ensures State() == Enqueue(old(State()), WriteTask(id, c, data), priority, writeCharacteristic)
    {
      id := nextId;
      var task := WriteTask(id, c, data);
      nextId := nextId + 1;
      EnqueueTask(task, priority);
    }

    /**
     * `writeData`: without a write characteristic it answers `false` at once (`None`); otherwise
     * it enqueues a task for the write characteristic and answers with that task's promise.
     */
    method WriteData(data: seq<Byte>, priority: Priority) returns (id: Option<nat>)
      modifies this`isProcessingQueue, this`queue, this`workers, this`outcomes, this`nextId
      ensures old(writeCharacteristic).None? ==> id.None? && State() == old(State()) && nextId == old(nextId)
      ensures old(writeCharacteristic).Some? ==>
        id == Some(old(nextId)) && nextId == old(nextId) + 1 &&
        State() == Enqueue(old(State()), WriteTask(old(nextId), writeCharacteristic.value, data), priority, writeCharacteristic)
    {
      if writeCharacteristic.None? {
        return None;
      }
      var n := EnqueueWrite(writeCharacteristic.value, data, priority);
      id := Some(n);
    }

    /**
     * One firing of the heartbeat interval: with heartbeat data and a write characteristic, the
     * data is enqueued HIGH for the heartbeat characteristic, or else the write characteristic.
     */
    method HeartbeatTick()
      requires heartbeatArmed
      modifies this`isProcessingQueue, this`queue, this`workers, this`outcomes, this`nextId
      ensures heartbeatData.None? || writeCharacteristic.None? ==> State() == old(State()) && nextId == old(nextId)
      ensures heartbeatData.Some? && writeCharacteristic.Some? ==>
        nextId == old(nextId) + 1 &&
        State() == Enqueue(old(State()),
          WriteTask(old(nextId), heartbeatCharacteristic.GetOr(writeCharacteristic.value), heartbeatData.value),
          High, writeCharacteristic)
    {
      if heartbeatData.Some? && writeCharacteristic.Some? {
        var c := heartbeatCharacteristic.GetOr(writeCharacteristic.value);
        var _ := EnqueueWrite(c, heartbeatData.value, High);
      }
    }

    /** The transport answered worker `w`'s write with `ok`. */
    method WriteSettled(w: nat, ok: bool)
      requires w < |workers| && workers[w].Writing?
      modifies this`workers, this`outcomes
      ensures State() == Settle(old(State()), w, ok)
    {
      var id := workers[w].task.id;
      var success := WriteResult(workers[w].target, ok);
      outcomes := Resolve(outcomes, id, success);
      workers := workers[w := Pausing];
    }

    /** Worker `w`'s 50 ms pause elapsed. */
    method PauseElapsed(w: nat)
      requires w < |workers| && workers[w].Pausing?
      modifies this`isProcessingQueue, this`queue, this`workers
      ensures State() == Resume(old(State()), w, writeCharacteristic)
    {
      if |queue| > 0 {
        var task := queue[0];
        queue := queue[1..];
        workers := workers[w := Writing(task, writeCharacteristic)];
      } else {
        workers := workers[..w] + workers[w + 1..];
        isProcessingQueue := false;
      }
    }

    /** The `forEach` of `dispose`: every queued task completes `false`, in queue order. */
    method FailQueued()
      modifies this`outcomes
      ensures outcomes == ResolveAll(old(outcomes), queue, false)
    {
      var k := 0;
      while k < |queue|
        invariant 0 <= k <= |queue|
        invariant outcomes == ResolveAll(old(outcomes), queue[..k], false)
      {
        assert queue[..k + 1][..k] == queue[..k];
        outcomes := Resolve(outcomes, queue[k].id, false);
        k := k + 1;
      }
      assert queue[..k] == queue;
    }

    /**
     * `dispose`: the heartbeat stops, the queued tasks fail, and the queue, the flag, both
     * characteristics and the heartbeat data are cleared.
     */
    method Dispose()
      modifies this`heartbeatArmed, this`outcomes, this`queue, this`isProcessingQueue
      modifies this`writeCharacteristic, this`heartbeatCharacteristic, this`heartbeatData
      ensures State() == DisposeQueue(old(State()))
      ensures writeCharacteristic.None? && heartbeatCharacteristic.None? && heartbeatData.None? && !heartbeatArmed
    {
      heartbeatArmed := false;
      FailQueued();
      queue := [];
      isProcessingQueue := false;
      writeCharacteristic := None;
      heartbeatCharacteristic := None;
      heartbeatData := None;
    }
  }
}
