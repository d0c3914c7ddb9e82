// The timing wheel of sixty slots, refining a plain table of deadlines.
module Agendas {
  import opened Options

  const SlotCount := 60

  // A delay outside 1..60 counts as one second.
  function Normal(delay: int): (d: nat)
    ensures 1 <= d <= SlotCount
  {
    if delay < 1 || delay > SlotCount then 1 else delay
  }

  // What a delay given after now ticks aims at: that many ticks later, or the next tick when the delay is
  // out of range.
  predicate AimsAt(now: nat, delay: int, due: int) {
    if 1 <= delay <= SlotCount then due - now == delay else due - now == 1
  }

  // The ticks so far, and the task due at each coming tick under each id.
  datatype Agenda<T> = Agenda(now: nat, pending: map<(string, nat), T>)

  datatype Op<T> = AddOp(id: string, delay: int, task: T) | RemoveOp(id: string, delay: int) | TickOp

  ghost function Step<T>(a: Agenda<T>, op: Op<T>): Agenda<T> {
    match op
    case AddOp(id, delay, task) => a.(pending := a.pending[(id, a.now + Normal(delay)) := task])
    case RemoveOp(id, delay) => a.(pending := a.pending - {(id, a.now + Normal(delay))})
    case TickOp => Agenda(a.now + 1, map k | k in a.pending && k.1 != a.now + 1 :: a.pending[k])
  }

  lemma StepNow<T>(a: Agenda<T>, op: Op<T>)
    ensures Step(a, op).now == if op.TickOp? then a.now + 1 else a.now
  {
  }

  // What the next tick returns: the tasks due then.
  ghost predicate Fires<T>(a: Agenda<T>, id: string, task: T) {
    (id, a.now + 1) in a.pending && a.pending[(id, a.now + 1)] == task
  }

  ghost function After<T>(a: Agenda<T>, ops: seq<Op<T>>): Agenda<T> {
    if ops == [] then a else Step(After(a, ops[..|ops| - 1]), ops[|ops| - 1])
  }

  function Ticks<T>(ops: seq<Op<T>>): nat {
    if ops == [] then 0 else Ticks(ops[..|ops| - 1]) + if ops[|ops| - 1].TickOp? then 1 else 0
  }

  function Lookup<T>(a: Agenda<T>, id: string, due: nat): Option<T> {
    if (id, due) in a.pending then Some(a.pending[(id, due)]) else None
  }

  // The history alone: what the last addition or removal aimed at (id, due) left there.
  ghost function LastTouch<T>(a: Agenda<T>, ops: seq<Op<T>>, id: string, due: nat): Option<T> {
    if ops == [] then Lookup(a, id, due)
    else
      var before, last := ops[..|ops| - 1], ops[|ops| - 1];
      var now := a.now + Ticks(before);
      match last
      case AddOp(i, delay, task) =>
        if i == id && AimsAt(now, delay, due) then Some(task) else LastTouch(a, before, id, due)
      case RemoveOp(i, delay) => if i == id && AimsAt(now, delay, due) then None else LastTouch(a, before, id, due)
      case TickOp => LastTouch(a, before, id, due)
  }

  lemma {:induction false} AfterNow<T>(a: Agenda<T>, ops: seq<Op<T>>)
    ensures After(a, ops).now == a.now + Ticks(ops)
  {
    if ops != [] {
      AfterNow(a, ops[..|ops| - 1]);
    }
  }

  lemma {:induction false} PendingIsHistory<T>(a: Agenda<T>, ops: seq<Op<T>>, id: string, due: nat)
    requires due > a.now + Ticks(ops)
    ensures Lookup(After(a, ops), id, due) == LastTouch(a, ops, id, due)
  {
    if ops != [] {
      AfterNow(a, ops[..|ops| - 1]);
      PendingIsHistory(a, ops[..|ops| - 1], id, due);
    }
  }

  // After any history the next tick returns a task under an id exactly when the last operation aimed at
  // that id and that very tick was the addition of this task.
  lemma FiresIff<T>(a: Agenda<T>, ops: seq<Op<T>>, id: string, task: T)
    ensures Fires(After(a, ops), id, task) <==> LastTouch(a, ops, id, a.now + Ticks(ops) + 1) == Some(task)
  {
    AfterNow(a, ops);
    PendingIsHistory(a, ops, id, a.now + Ticks(ops) + 1);
  }

  // No operation among ops, run from now on, aims at (id, due).
  ghost predicate Untouched<T>(now: nat, ops: seq<Op<T>>, id: string, due: nat) {
    forall i :: 0 <= i < |ops| && !ops[i].TickOp? && ops[i].id == id ==>
      !AimsAt(now + Ticks(ops[..i]), ops[i].delay, due)
  }

  lemma {:induction false} UntouchedKeeps<T>(a: Agenda<T>, ops: seq<Op<T>>, id: string, due: nat)
    requires Untouched(a.now, ops, id, due)
    ensures LastTouch(a, ops, id, due) == Lookup(a, id, due)
  {
    if ops != [] {
      var before := ops[..|ops| - 1];
      forall i | 0 <= i < |before| && !before[i].TickOp? && before[i].id == id
        ensures !AimsAt(a.now + Ticks(before[..i]), before[i].delay, due)
      {
        assert ops[..i] == before[..i] && ops[i] == before[i];
      }
      UntouchedKeeps(a, before, id, due);
    }
  }

  // An added task that nobody removes or replaces is returned by the tick that its delay aims at.
  lemma FiresAtDelay<T>(a: Agenda<T>, id: string, delay: int, task: T, ops: seq<Op<T>>, due: nat)
    requires AimsAt(a.now, delay, due) && a.now + Ticks(ops) == due - 1
    requires Untouched(a.now, ops, id, due)
    ensures Fires(After(Step(a, AddOp(id, delay, task)), ops), id, task)
  {
    var added := Step(a, AddOp(id, delay, task));
    assert Lookup(added, id, due) == Some(task);
    hide Untouched, Ticks, After, LastTouch;
    UntouchedKeeps(added, ops, id, due);
    FiresIff(added, ops, id, task);
  }

  // With a delay between 1 and 60 that is after one tick less than the delay; otherwise it is the next tick.
  lemma FiresAfterTicks<T>(a: Agenda<T>, id: string, delay: int, task: T, ops: seq<Op<T>>)
    requires if 1 <= delay <= 60 then Ticks(ops) == delay - 1 else Ticks(ops) == 0
    requires Untouched(a.now, ops, id, a.now + Ticks(ops) + 1)
    ensures Fires(After(Step(a, AddOp(id, delay, task)), ops), id, task)
  {
    hide Untouched, Ticks, After, Fires;
    FiresAtDelay(a, id, delay, task, ops, a.now + Ticks(ops) + 1);
  }

  // And it plays no part at any other tick: there the outcome is as if it had not been added.
  lemma {:induction false} OnlyAtDelay<T>(a: Agenda<T>, id: string, delay: int, task: T, ops: seq<Op<T>>, due: nat)
    requires !AimsAt(a.now, delay, due)
    ensures LastTouch(Step(a, AddOp(id, delay, task)), ops, id, due) == LastTouch(a, ops, id, due)
  {
    if ops != [] {
      OnlyAtDelay(a, id, delay, task, ops[..|ops| - 1], due);
    }
  }

  // Removing with the original delay works at once; after a tick it aims at a later deadline and misses.
  lemma RemoveHitsOnlyAtOnce<T>(a: Agenda<T>, id: string, delay: int, task: T, ops: seq<Op<T>>, due: nat)
    requires AimsAt(a.now, delay, due) && Untouched(a.now, ops, id, due) && a.now + Ticks(ops) < due
    ensures var removed := Step(After(Step(a, AddOp(id, delay, task)), ops), RemoveOp(id, delay));
      Lookup(removed, id, due) == if Ticks(ops) == 0 then None else Some(task)
  {
    hide Untouched, Ticks, After, LastTouch;
    var added := Step(a, AddOp(id, delay, task));
    assert Lookup(added, id, due) == Some(task);
    hide Step, Lookup;
    AfterNow(added, ops);
    StepNow(a, AddOp(id, delay, task));
    UntouchedKeeps(added, ops, id, due);
    PendingIsHistory(added, ops, id, due);
    RemoveLookup(After(added, ops), id, delay, due);
  }

  // A removal takes away what its delay aims at under the id, and nothing else.
  lemma RemoveLookup<T>(a: Agenda<T>, id: string, delay: int, due: nat)
    ensures Lookup(Step(a, RemoveOp(id, delay)), id, due) ==
      if AimsAt(a.now, delay, due) then None else Lookup(a, id, due)
    ensures forall i, d :: i != id ==> Lookup(Step(a, RemoveOp(id, delay)), i, d) == Lookup(a, i, d)
  {
  }

  // ---------- Sixty slots for all deadlines ----------

  // Slot due % 60 holds exactly the tasks due at the coming tick number due.
  ghost predicate Agrees<T>(a: Agenda<T>, slots: seq<map<string, T>>) {
    |slots| == SlotCount &&
    (forall id: string, due: nat ::
      (id, due) in a.pending <==> a.now < due <= a.now + SlotCount && id in slots[due % SlotCount]) &&
    (forall id: string, due: nat :: (id, due) in a.pending ==> a.pending[(id, due)] == slots[due % SlotCount][id])
  }

  // A deadline within the next sixty ticks is determined by its slot.
  lemma OneDeadline(now: nat, a: nat, b: nat)
    requires now < a <= now + SlotCount && now < b <= now + SlotCount && a % SlotCount == b % SlotCount
    ensures a == b
  {
  }

  lemma AddAgrees<T>(a: Agenda<T>, slots: seq<map<string, T>>, id: string, delay: int, task: T)
    requires Agrees(a, slots)
    ensures var s := (a.now + Normal(delay)) % SlotCount;
      Agrees(Step(a, AddOp(id, delay, task)), slots[s := slots[s][id := task]])
  {
    var due := a.now + Normal(delay);
    forall d: nat | a.now < d <= a.now + SlotCount
      ensures d % SlotCount == due % SlotCount <==> d == due
    {
      if d % SlotCount == due % SlotCount {
        OneDeadline(a.now, d, due);
      }
    }
  }

  lemma RemoveAgrees<T>(a: Agenda<T>, slots: seq<map<string, T>>, id: string, delay: int)
    requires Agrees(a, slots)
    ensures var s := (a.now + Normal(delay)) % SlotCount;
      Agrees(Step(a, RemoveOp(id, delay)), slots[s := slots[s] - {id}])
  {
    var due := a.now + Normal(delay);
    forall d: nat | a.now < d <= a.now + SlotCount
      ensures d % SlotCount == due % SlotCount <==> d == due
    {
      if d % SlotCount == due % SlotCount {
        OneDeadline(a.now, d, due);
      }
    }
  }

  lemma TickAgrees<T>(a: Agenda<T>, slots: seq<map<string, T>>)
    requires Agrees(a, slots)
    ensures Agrees(Step(a, TickOp), slots[(a.now + 1) % SlotCount := map[]])
  {
    var due := a.now + 1;
    forall d: nat | a.now < d <= a.now + SlotCount
      ensures d % SlotCount == due % SlotCount <==> d == due
    {
      if d % SlotCount == due % SlotCount {
        OneDeadline(a.now, d, due);
      }
    }
    assert (due + SlotCount) % SlotCount == due % SlotCount;
  }

  // The keys of a slot are as many as the deadlines that it stands for.
  lemma SlotSize<T>(a: Agenda<T>, slots: seq<map<string, T>>, i: nat, here: set<(string, nat)>)
    requires Agrees(a, slots) && i < SlotCount
    requires forall k :: k in here <==> k in a.pending && k.1 % SlotCount == i
    ensures |here| == |slots[i]|
  {
    var due := a.now + 1 + (i - a.now - 1) % SlotCount;
    assert due % SlotCount == i;
    forall k
      ensures k in here <==> k.1 == due && k.0 in slots[i].Keys
    {
      if k in here {
        assert (k.0, k.1) in a.pending;
        OneDeadline(a.now, k.1, due);
      }
    }
    SameSize(here, slots[i].Keys, due);
  }

  lemma {:induction false} SameSize(keys: set<(string, nat)>, ids: set<string>, due: nat)
    requires forall k :: k in keys <==> k.1 == due && k.0 in ids
    ensures |keys| == |ids|
  {
    if ids == {} {
      assert keys == {};
    } else {
      var id :| id in ids;
      assert (id, due) in keys;
      SameSize(keys - {(id, due)}, ids - {id}, due);
    }
  }
}

module TimeWheel {
  import opened Agendas

  class Task {
    const id: string
    var delay: int

    constructor (id: string, delay: int)
      ensures this.id == id && this.delay == delay
    {
      this.id, this.delay := id, delay;
    }
  }

  // The map's tasks, each once, in some order.
  ghost predicate Lists(all: seq<Task>, tasks: map<string, Task>) {
    (forall t :: t in all ==> t.id in tasks && tasks[t.id] == t) &&
    (forall id :: id in tasks ==> tasks[id] in all) &&
    forall i, j :: 0 <= i < j < |all| ==> all[i] != all[j]
  }

  ghost predicate NotForgotten(all: seq<Task>, a: Agenda<Task>, id: string) {
    (id, a.now + 1) in a.pending ==> a.pending[(id, a.now + 1)] in all
  }

  // The tasks due at the next tick, each once.
  ghost predicate AreDue(all: seq<Task>, a: Agenda<Task>) {
    (forall t :: t in all ==> Fires(a, t.id, t)) &&
    (forall id :: NotForgotten(all, a, id)) &&
    forall i, j :: 0 <= i < j < |all| ==> all[i] != all[j]
  }

  lemma ListsDue(a: Agenda<Task>, slots: seq<map<string, Task>>, all: seq<Task>)
    requires Agrees(a, slots) && Lists(all, slots[(a.now + 1) % SlotCount])
    ensures AreDue(all, a)
  {
  }

  class Slot {
    var tasks: map<string, Task>

    constructor ()
      ensures tasks == map[]
    {
      tasks := map[];
    }

    ghost predicate Valid()
      reads this
    {
      forall id :: id in tasks ==> tasks[id].id == id
    }

    method AddTask(task: Task)
      requires Valid()
      modifies this
      ensures Valid() && tasks == old(tasks)[task.id := task]
    {
      tasks := tasks[task.id := task];
    }

    method RemoveTask(taskID: string) returns (removed: bool)
      requires Valid()
      modifies this
      ensures Valid() && tasks == old(tasks) - {taskID} && (removed <==> taskID in old(tasks))
    {
      if taskID in tasks {
        tasks := tasks - {taskID};
        return true;
      }
      tasks := tasks - {taskID};
      return false;
    }

    // The tasks come out in the map's arbitrary order, each once.
    method GetAndClear() returns (all: seq<Task>)
      requires Valid()
      modifies this
      ensures Valid() && tasks == map[]
      ensures Lists(all, old(tasks))
    {
      all := [];
      if |tasks| == 0 {
        assert tasks.Keys == {};
        assert tasks == map[];
        return;
      }
      var ids := tasks.Keys;
      while ids != {}
        invariant ids <= tasks.Keys
        invariant forall t :: t in all <==> t.id in tasks && t.id !in ids && tasks[t.id] == t
        invariant forall i, j :: 0 <= i < j < |all| ==> all[i] != all[j]
        decreases ids
      {
        var id :| id in ids;
        assert tasks[id] !in all;
        ids := ids - {id};
        all := all + [tasks[id]];
      }
      tasks := map[];
    }

    method Count() returns (n: nat)
      ensures n == |tasks|
    {
      n := |tasks|;
    }
  }

  // The tasks in each slot.
  function Contents(slots: seq<Slot>): (r: seq<map<string, Task>>)
    reads slots
    ensures |r| == |slots| && forall i :: 0 <= i < |slots| ==> r[i] == slots[i].tasks
  {
    seq(|slots|, i requires 0 <= i < |slots| reads slots => slots[i].tasks)
  }

  class Wheel {
    const slots: array<Slot>
    var currentSlot: int
    // The ticks so far and the deadlines that the slots stand for.
    ghost var agenda: Agenda<Task>

    ghost predicate Valid()
      reads this, slots, slots[..]
    {
      slots.Length == SlotCount &&
      (forall i, j :: 0 <= i < j < SlotCount ==> slots[i] != slots[j]) &&
      (forall i :: 0 <= i < SlotCount ==> slots[i].Valid()) &&
      currentSlot == agenda.now % SlotCount &&
      Agrees(agenda, Contents(slots[..]))
    }

    constructor ()
      ensures Valid() && fresh(slots) && fresh(slots[..]) && agenda == Agenda(0, map[])
    {
      currentSlot := 0;
      agenda := Agenda(0, map[]);
      var first := new Slot();
      slots := new Slot[SlotCount](_ => first);
      new;
      for i := 1 to SlotCount
        invariant slots.Length == SlotCount && fresh(slots) && fresh(slots[..])
        invariant currentSlot == 0 && agenda == Agenda(0, map[])
        invariant forall j :: 0 <= j < SlotCount ==> slots[j].tasks == map[]
        invariant forall j, k :: 0 <= j < k < i ==> slots[j] != slots[k]
        invariant forall j :: i <= j < SlotCount ==> slots[j] == slots[0]
      {
        slots[i] := new Slot();
      }
    }

    // Only the tasks of slot s have changed.
    twostate lemma OneSlot(s: nat)
      requires old(Valid()) && slots[..] == old(slots[..]) && s < SlotCount
      requires forall i :: 0 <= i < SlotCount && i != s ==> slots[i].tasks == old(slots[i].tasks)
      ensures Contents(slots[..]) == old(Contents(slots[..]))[s := slots[s].tasks]
    {
    }

    method AddTask(task: Task)
      requires Valid()
      modifies task, slots[..], this`agenda
      ensures Valid() && task.delay == Normal(old(task.delay))
      ensures agenda == Step(old(agenda), AddOp(task.id, old(task.delay), task))
    {
      hide Agrees, Step;
      if task.delay < 1 || task.delay > SlotCount {
        task.delay := 1;
      }
      var targetSlot := (currentSlot + task.delay) % SlotCount;
      assert targetSlot == (agenda.now + task.delay) % SlotCount;
      slots[targetSlot].AddTask(task);
      OneSlot(targetSlot);
      AddAgrees(agenda, old(Contents(slots[..])), task.id, old(task.delay), task);
      agenda := Step(agenda, AddOp(task.id, old(task.delay), task));
      StepNow(old(agenda), AddOp(task.id, old(task.delay), task));
    }

    method RemoveTask(taskID: string, delay: int) returns (removed: bool)
      requires Valid()
      modifies slots[..], this`agenda
      ensures Valid() && agenda == Step(old(agenda), RemoveOp(taskID, delay))
      ensures removed <==> (taskID, old(agenda).now + Normal(delay)) in old(agenda).pending
    {
      var d := delay;
      if d < 1 || d > SlotCount {
        d := 1;
      }
      hide Agrees, Step;
      PendingInSlot(agenda, Contents(slots[..]), taskID, delay);
      var targetSlot := (currentSlot + d) % SlotCount;
      assert targetSlot == (agenda.now + d) % SlotCount;
      removed := slots[targetSlot].RemoveTask(taskID);
      OneSlot(targetSlot);
      RemoveAgrees(agenda, old(Contents(slots[..])), taskID, delay);
      agenda := Step(agenda, RemoveOp(taskID, delay));
      StepNow(old(agenda), RemoveOp(taskID, delay));
    }

    // The tasks due at this tick, each once.
    method Tick() returns (tasks: seq<Task>)
      requires Valid()
      modifies this`currentSlot, this`agenda, slots[..]
      ensures Valid() && agenda == Step(old(agenda), TickOp)
      ensures AreDue(tasks, old(agenda))
    {
      hide Agrees, Step, AreDue, Lists;
      ghost var contents := Contents(slots[..]);
      currentSlot := (currentSlot + 1) % SlotCount;
      assert currentSlot == (agenda.now + 1) % SlotCount;
      tasks := slots[currentSlot].GetAndClear();
      ListsDue(agenda, contents, tasks);
      OneSlot(currentSlot);
      TickAgrees(agenda, old(Contents(slots[..])));
      agenda := Step(agenda, TickOp);
      StepNow(old(agenda), TickOp);
    }

    // GetTotalTaskCount
    method GetTotalTaskCount() returns (total: nat)
      requires Valid()
      ensures total == |agenda.pending|
    {
      total := 0;
      ghost var pending := agenda.pending.Keys;
      ghost var seen: set<(string, nat)> := {};
      for i := 0 to SlotCount
        invariant total == |seen| && seen <= pending
        invariant forall k :: k in seen <==> k in pending && k.1 % SlotCount < i
      {
        var n := slots[i].Count();
        ghost var here := set k | k in pending && k.1 % SlotCount == i;
        SlotSize(agenda, Contents(slots[..]), i, here);
        seen := seen + here;
        total := total + n;
      }
      assert seen == pending;
    }
  }

  lemma PendingInSlot(a: Agenda<Task>, slots: seq<map<string, Task>>, id: string, delay: int)
    requires Agrees(a, slots)
    ensures |slots| == SlotCount
    ensures (id, a.now + Normal(delay)) in a.pending <==> id in slots[(a.now + Normal(delay)) % SlotCount]
  {
  }
}
