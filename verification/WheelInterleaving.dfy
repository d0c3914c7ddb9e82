// The timing wheel without the fiction of one big lock. AddTask and RemoveTask read the current slot
// under one lock and touch the target slot under another; Tick advances under one and drains under
// another. Other calls may run in between; there is one ticker, so its two halves alternate.
module WheelInterleaving {
  import opened Agendas

  // An addition between its two halves: the target slot was computed from the advances made by then.
  datatype Call = Call(id: string, delay: nat, readAt: nat)

  // A task in a slot, with the number of drains completed when it was inserted.
  datatype Entry = Entry(call: Call, insertedAt: nat)

  // Calls between their halves are counted, since equal ones may overlap. The log has what each drain returned.
  datatype Wheel = Wheel(advances: nat, drains: nat, slots: seq<map<string, Entry>>,
                         adding: multiset<Call>, removing: multiset<Call>, log: seq<map<string, Entry>>)

  datatype Step =
    | ReadForAdd(id: string, delay: int)
    | Insert(call: Call)
    | ReadForRemove(id: string, delay: int)
    | Delete(call: Call)
    | Advance
    | Drain

  const Start := Wheel(0, 0, seq(SlotCount, _ => map[]), multiset{}, multiset{}, [])

  // The slot that a call computes when it reads the current one.
  function Target(c: Call): nat {
    (c.readAt + c.delay) % SlotCount
  }

  predicate Enabled(w: Wheel, s: Step) {
    match s
    case ReadForAdd(_, _) => true
    case ReadForRemove(_, _) => true
    case Insert(c) => c in w.adding
    case Delete(c) => c in w.removing
    case Advance => w.advances == w.drains
    case Drain => w.drains < w.advances
  }

  // A step that is not enabled does not happen. The drained slot is the one of the last advance.
  function Next(w: Wheel, s: Step): Wheel
    requires |w.slots| == SlotCount
  {
    if !Enabled(w, s) then w
    else match s
      case ReadForAdd(id, delay) => w.(adding := w.adding + multiset{Call(id, Normal(delay), w.advances)})
      case ReadForRemove(id, delay) => w.(removing := w.removing + multiset{Call(id, Normal(delay), w.advances)})
      case Insert(c) =>
        w.(adding := w.adding - multiset{c},
           slots := w.slots[Target(c) := w.slots[Target(c)][c.id := Entry(c, w.drains)]])
      case Delete(c) =>
        w.(removing := w.removing - multiset{c}, slots := w.slots[Target(c) := w.slots[Target(c)] - {c.id}])
      case Advance => w.(advances := w.advances + 1)
      case Drain =>
        var s := w.advances % SlotCount;
        w.(drains := w.drains + 1, slots := w.slots[s := map[]], log := w.log + [w.slots[s]])
  }

  ghost function Run(w: Wheel, steps: seq<Step>): (r: Wheel)
    requires |w.slots| == SlotCount
  {
    if steps == [] then w
    else
      var before := Run(w, steps[..|steps| - 1]);
      if |before.slots| == SlotCount then Next(before, steps[|steps| - 1]) else before
  }

  // The number of the first drain of the entry's slot after it was inserted; drain k drains slot k % 60.
  function FirstDrain(e: Entry): nat {
    e.insertedAt + 1 + (e.call.readAt + e.call.delay - e.insertedAt - 1) % SlotCount
  }

  ghost predicate CallOk(w: Wheel, c: Call) {
    1 <= c.delay <= SlotCount && c.readAt <= w.advances
  }

  // An entry still in its slot has its first drain ahead.
  ghost predicate EntryOk(w: Wheel, s: nat, e: Entry) {
    Target(e.call) == s && CallOk(w, e.call) && e.call.readAt <= e.insertedAt + 1 &&
    e.insertedAt <= w.drains < FirstDrain(e)
  }

  // A drained entry was drained at its first drain.
  ghost predicate DrainedOk(w: Wheel, k: nat, e: Entry) {
    CallOk(w, e.call) && e.call.readAt <= e.insertedAt + 1 && FirstDrain(e) == k
  }

  ghost predicate Inv(w: Wheel) {
    |w.slots| == SlotCount && w.drains <= w.advances <= w.drains + 1 && |w.log| == w.drains &&
    (forall c :: c in w.adding || c in w.removing ==> CallOk(w, c)) &&
    (forall s, id :: 0 <= s < SlotCount && id in w.slots[s] ==>
      EntryOk(w, s, w.slots[s][id]) && w.slots[s][id].call.id == id) &&
    (forall k, id :: 0 <= k < |w.log| && id in w.log[k] ==> DrainedOk(w, k + 1, w.log[k][id]))
  }

  lemma SameResidue(a: int, b: int)
    requires a % SlotCount == b % SlotCount && 0 <= b - a < SlotCount
    ensures a == b
  {
  }

  lemma FirstDrainResidue(e: Entry)
    ensures e.insertedAt < FirstDrain(e) <= e.insertedAt + SlotCount
    ensures FirstDrain(e) % SlotCount == Target(e.call)
  {
  }

  // Inserting: the new entry's first drain is ahead by definition.
  lemma InsertKeeps(w: Wheel, c: Call)
    requires Inv(w) && c in w.adding
    ensures Inv(Next(w, Insert(c)))
  {
    var e := Entry(c, w.drains);
    FirstDrainResidue(e);
    assert EntryOk(w, Target(c), e);
    hide FirstDrain, Target;
  }

  // Draining: what lies in the drained slot has its first drain now, and what lies elsewhere has not.
  lemma DrainKeeps(w: Wheel)
    requires Inv(w) && w.drains < w.advances
    ensures Inv(Next(w, Drain))
  {
    var k := w.advances;
    var r := Next(w, Drain);
    forall s, id | 0 <= s < SlotCount && id in w.slots[s]
      ensures if s == k % SlotCount then DrainedOk(r, k, w.slots[s][id]) else EntryOk(r, s, w.slots[s][id])
    {
      var e := w.slots[s][id];
      assert EntryOk(w, s, e);
      FirstDrainResidue(e);
      if s == k % SlotCount {
        SameResidue(k, FirstDrain(e));
      }
    }
    hide FirstDrain, Target;
    forall j, id | 0 <= j < |r.log| && id in r.log[j]
      ensures DrainedOk(r, j + 1, r.log[j][id])
    {
      if j < |w.log| {
        assert DrainedOk(w, j + 1, w.log[j][id]);
      }
    }
  }

  lemma DeleteKeeps(w: Wheel, c: Call)
    requires Inv(w) && c in w.removing
    ensures Inv(Next(w, Delete(c)))
  {
    hide FirstDrain, EntryOk, DrainedOk;
    var r := Next(w, Delete(c));
    assert forall d :: d in r.removing ==> d in w.removing;
    forall s, id | 0 <= s < SlotCount && id in r.slots[s]
      ensures id in w.slots[s] && r.slots[s][id] == w.slots[s][id]
    {
    }
    SameEntries(w, w.(removing := r.removing));
    EntriesOf(w.(removing := r.removing), r);
  }

  // Whether an entry is right depends on the counts of advances and drains only.
  lemma EntriesOf(w: Wheel, r: Wheel)
    requires r.advances == w.advances && r.drains == w.drains
    ensures forall s, e :: EntryOk(w, s, e) == EntryOk(r, s, e)
    ensures forall k, e :: DrainedOk(w, k, e) == DrainedOk(r, k, e)
  {
    hide FirstDrain, Target;
  }

  lemma ReadKeeps(w: Wheel, id: string, delay: int)
    requires Inv(w)
    ensures Inv(Next(w, ReadForAdd(id, delay))) && Inv(Next(w, ReadForRemove(id, delay)))
  {
    hide FirstDrain, Target, EntryOk, DrainedOk;
    var c := Call(id, Normal(delay), w.advances);
    var adding, removing := Next(w, ReadForAdd(id, delay)), Next(w, ReadForRemove(id, delay));
    assert forall d :: d in adding.adding ==> d in w.adding || d == c;
    assert forall d :: d in removing.removing ==> d in w.removing || d == c;
    SameEntries(w, adding);
    SameEntries(w, removing);
  }

  lemma AdvanceKeeps(w: Wheel)
    requires Inv(w) && w.advances == w.drains
    ensures Inv(Next(w, Advance))
  {
    hide FirstDrain, Target, EntryOk, DrainedOk;
    SameEntries(w, Next(w, Advance));
  }

  // Entries stay as they are supposed to be while only calls and advances are added.
  lemma SameEntries(w: Wheel, r: Wheel)
    requires Inv(w) && r.slots == w.slots && r.log == w.log && r.drains == w.drains && r.advances >= w.advances
    ensures forall s, id :: 0 <= s < SlotCount && id in r.slots[s] ==> EntryOk(r, s, r.slots[s][id])
    ensures forall k, id :: 0 <= k < |r.log| && id in r.log[k] ==> DrainedOk(r, k + 1, r.log[k][id])
  {
    hide FirstDrain, Target;
  }

  lemma NextKeeps(w: Wheel, s: Step)
    requires Inv(w)
    ensures Inv(Next(w, s))
  {
    hide Inv;
    match s
    case ReadForAdd(id, delay) => ReadKeeps(w, id, delay);
    case ReadForRemove(id, delay) => ReadKeeps(w, id, delay);
    case Insert(c) => if c in w.adding { InsertKeeps(w, c); }
    case Delete(c) => if c in w.removing { DeleteKeeps(w, c); }
    case Advance => if w.advances == w.drains { AdvanceKeeps(w); }
    case Drain => if w.drains < w.advances { DrainKeeps(w); }
  }

  lemma {:induction false} RunKeeps(w: Wheel, steps: seq<Step>)
    requires Inv(w)
    ensures Inv(Run(w, steps))
  {
    if steps != [] {
      RunKeeps(w, steps[..|steps| - 1]);
      NextKeeps(Run(w, steps[..|steps| - 1]), steps[|steps| - 1]);
    }
  }

  lemma StartOk()
    ensures Inv(Start)
  {
  }

  // ---------- When an entry is drained ----------

  // The deadline that the caller meant: delay advances after the read.
  function Deadline(e: Entry): nat {
    e.call.readAt + e.call.delay
  }

  // A full round, read and inserted between an advance and its drain.
  predicate FullRoundInside(e: Entry) {
    e.call.delay == SlotCount && e.insertedAt + 1 == e.call.readAt
  }

  // The first drain is early exactly for a full round inside a tick, by sixty; it is the one meant
  // exactly when the entry was inserted before it and is no such round; all others are late by a multiple of sixty.
  lemma FirstDrainIs(e: Entry)
    requires 1 <= e.call.delay <= SlotCount && e.call.readAt <= e.insertedAt + 1
    ensures FirstDrain(e) < Deadline(e) <==> FullRoundInside(e)
    ensures FullRoundInside(e) ==> FirstDrain(e) == Deadline(e) - SlotCount
    ensures FirstDrain(e) == Deadline(e) <==> e.insertedAt < Deadline(e) && !FullRoundInside(e)
    ensures (FirstDrain(e) - Deadline(e)) % SlotCount == 0
  {
    var ahead := Deadline(e) - e.insertedAt - 1;
    assert ahead <= SlotCount;
    if FullRoundInside(e) {
      assert ahead == SlotCount;
    } else if e.insertedAt < Deadline(e) {
      assert 0 <= ahead < SlotCount;
    }
  }

  // What the log tells of an entry that drain k returned.
  ghost predicate DrainedRight(k: nat, e: Entry) {
    && (k < Deadline(e) <==> FullRoundInside(e))
    && (k == Deadline(e) <==> e.insertedAt < Deadline(e) && !FullRoundInside(e))
    && (k - Deadline(e)) % SlotCount == 0
    && e.insertedAt < k <= e.insertedAt + SlotCount
  }

  // The call's first half is a read among the steps, of the same kind, id and moment, with a delay that
  // aims at the call's deadline.
  ghost predicate ReadAt(from: Wheel, steps: seq<Step>, i: nat, c: Call, adding: bool) {
    |from.slots| == SlotCount && i < |steps| &&
    (if adding then steps[i].ReadForAdd? else steps[i].ReadForRemove?) && steps[i].id == c.id &&
    Run(from, steps[..i]).advances == c.readAt && AimsAt(c.readAt, steps[i].delay, c.readAt + c.delay)
  }

  ghost predicate WasRead(from: Wheel, steps: seq<Step>, c: Call, adding: bool) {
    exists i: nat :: ReadAt(from, steps, i, c, adding)
  }

  lemma StillRead(from: Wheel, steps: seq<Step>, c: Call, adding: bool)
    requires steps != [] && WasRead(from, steps[..|steps| - 1], c, adding)
    ensures WasRead(from, steps, c, adding)
  {
    var before := steps[..|steps| - 1];
    var i: nat :| ReadAt(from, before, i, c, adding);
    assert before[..i] == steps[..i];
    assert ReadAt(from, steps, i, c, adding);
  }

  ghost predicate InSlot(w: Wheel, c: Call) {
    exists s: nat, id :: s < |w.slots| && id in w.slots[s] && w.slots[s][id].call == c
  }

  ghost predicate InLog(w: Wheel, c: Call) {
    exists k: nat, id :: k < |w.log| && id in w.log[k] && w.log[k][id].call == c
  }

  // The call is between its halves, or an addition in a slot or drained.
  ghost predicate HasCall(w: Wheel, c: Call, adding: bool) {
    if adding then c in w.adding || InSlot(w, c) || InLog(w, c) else c in w.removing
  }

  // All of them come from such reads.
  ghost predicate AllRead(from: Wheel, steps: seq<Step>, w: Wheel) {
    forall c, adding :: HasCall(w, c, adding) ==> WasRead(from, steps, c, adding)
  }

  lemma {:induction false} CallsAreRead(from: Wheel, steps: seq<Step>)
    requires Inv(from) && AllRead(from, [], from)
    ensures AllRead(from, steps, Run(from, steps))
  {
    if steps != [] {
      var before := steps[..|steps| - 1];
      CallsAreRead(from, before);
      RunKeeps(from, before);
      var w := Run(from, before);
      forall c, adding | WasRead(from, before, c, adding)
        ensures WasRead(from, steps, c, adding)
      {
        StillRead(from, steps, c, adding);
      }
      assert |w.slots| == SlotCount;
      NewRead(from, steps, w);
      hide Inv, ReadAt, WasRead, AllRead, Run, Next;
      StepRead(from, before, steps, w, steps[|steps| - 1]);
      LastStep(from, steps);
    }
  }

  lemma LastStep(from: Wheel, steps: seq<Step>)
    requires |from.slots| == SlotCount && steps != [] && |Run(from, steps[..|steps| - 1]).slots| == SlotCount
    ensures Run(from, steps) == Next(Run(from, steps[..|steps| - 1]), steps[|steps| - 1])
  {
  }

  lemma NewRead(from: Wheel, steps: seq<Step>, w: Wheel)
    requires |from.slots| == SlotCount && steps != [] && w == Run(from, steps[..|steps| - 1])
    ensures var s := steps[|steps| - 1];
      (s.ReadForAdd? ==> WasRead(from, steps, Call(s.id, Normal(s.delay), w.advances), true)) &&
      (s.ReadForRemove? ==> WasRead(from, steps, Call(s.id, Normal(s.delay), w.advances), false))
  {
    var n := |steps| - 1;
    var s := steps[n];
    hide Run;
    if s.ReadForAdd? {
      assert ReadAt(from, steps, n, Call(s.id, Normal(s.delay), w.advances), true);
    } else if s.ReadForRemove? {
      assert ReadAt(from, steps, n, Call(s.id, Normal(s.delay), w.advances), false);
    }
  }

  // The call that a step reads.
  predicate Reads(w: Wheel, s: Step, c: Call, adding: bool) {
    (if adding then s.ReadForAdd? else s.ReadForRemove?) && c == Call(s.id, Normal(s.delay), w.advances)
  }

  lemma NextSlots(w: Wheel, s: Step, c: Call)
    requires |w.slots| == SlotCount && InSlot(Next(w, s), c)
    ensures c in w.adding || InSlot(w, c)
  {
    var r := Next(w, s);
    hide Normal, Target;
    var t: nat, id :| t < |r.slots| && id in r.slots[t] && r.slots[t][id].call == c;
    if !(id in w.slots[t] && r.slots[t][id] == w.slots[t][id]) {
      assert s.Insert? && s.call == c && c in w.adding;
    }
  }

  lemma NextLog(w: Wheel, s: Step, c: Call)
    requires |w.slots| == SlotCount && InLog(Next(w, s), c)
    ensures InSlot(w, c) || InLog(w, c)
  {
    var r := Next(w, s);
    hide Normal, Target;
    var k: nat, id :| k < |r.log| && id in r.log[k] && r.log[k][id].call == c;
    if k >= |w.log| {
      assert r.log[k] == w.slots[w.advances % SlotCount];
    }
  }

  // A step brings no call but the one that it reads.
  lemma NextCalls(w: Wheel, s: Step, c: Call, adding: bool)
    requires |w.slots| == SlotCount && HasCall(Next(w, s), c, adding)
    ensures HasCall(w, c, adding) || Reads(w, s, c, adding)
  {
    if adding && InSlot(Next(w, s), c) {
      NextSlots(w, s, c);
    } else if adding && InLog(Next(w, s), c) {
      NextLog(w, s, c);
    }
    hide InSlot, InLog, Normal, Target;
  }

  lemma StepRead(from: Wheel, before: seq<Step>, steps: seq<Step>, w: Wheel, s: Step)
    requires |w.slots| == SlotCount && AllRead(from, before, w)
    requires forall c, adding :: WasRead(from, before, c, adding) ==> WasRead(from, steps, c, adding)
    requires s.ReadForAdd? ==> WasRead(from, steps, Call(s.id, Normal(s.delay), w.advances), true)
    requires s.ReadForRemove? ==> WasRead(from, steps, Call(s.id, Normal(s.delay), w.advances), false)
    ensures AllRead(from, steps, Next(w, s))
  {
    hide WasRead, HasCall, Normal, Next;
    forall c, adding | HasCall(Next(w, s), c, adding)
      ensures WasRead(from, steps, c, adding)
    {
      NextCalls(w, s, c, adding);
    }
  }

  // In every run of any interleaving, a task comes out before the advance that it is meant for exactly
  // if its delay is a full round and both halves of its addition fell between an advance and its drain.
  // Any other task comes out at the drain that it is meant for exactly if it was inserted before that
  // drain, and else at the first drain after its insertion that is late by a multiple of sixty. The drain
  // it is meant for is, by DrainedAsAsked, what the delay of its read aims at.
  lemma DrainedWhenDue(steps: seq<Step>, k: nat, id: string)
    ensures var w := Run(Start, steps);
      k < |w.log| && id in w.log[k] ==> DrainedRight(k + 1, w.log[k][id])
  {
    StartOk();
    RunKeeps(Start, steps);
    var w := Run(Start, steps);
    if k < |w.log| && id in w.log[k] {
      assert DrainedOk(w, k + 1, w.log[k][id]);
      hide Run, Inv, Target;
      FirstDrainIs(w.log[k][id]);
      FirstDrainResidue(w.log[k][id]);
      hide FirstDrain, Deadline, FullRoundInside;
    }
  }

  // Every drained task was asked for by a read among the steps whose delay aims at the task's deadline.
  lemma DrainedAsAsked(steps: seq<Step>, k: nat, id: string)
    ensures var w := Run(Start, steps); k < |w.log| && id in w.log[k] ==> WasRead(Start, steps, w.log[k][id].call, true)
  {
    StartOk();
    CallsAreRead(Start, steps);
    hide Run, Inv, WasRead;
    var w := Run(Start, steps);
    if k < |w.log| && id in w.log[k] {
      assert HasCall(w, w.log[k][id].call, true);
    }
  }

  // So a delay below sixty is never early.
  lemma NeverEarly(steps: seq<Step>, k: nat, id: string)
    ensures var w := Run(Start, steps);
      k < |w.log| && id in w.log[k] && w.log[k][id].call.delay < SlotCount ==> Deadline(w.log[k][id]) <= k + 1
  {
    DrainedWhenDue(steps, k, id);
  }

  // No insertion or removal in the steps aims at the id in the slot.
  predicate Untouched(steps: seq<Step>, s: nat, id: string) {
    forall i :: 0 <= i < |steps| ==>
      (steps[i].Insert? ==> steps[i].call.id != id || Target(steps[i].call) != s) &&
      (steps[i].Delete? ==> steps[i].call.id != id || Target(steps[i].call) != s)
  }

  // Where the entry is: in its slot until its first drain, then in the log of that drain.
  ghost predicate Located(w: Wheel, e: Entry) {
    Inv(w) &&
    if w.drains < FirstDrain(e) then e.call.id in w.slots[Target(e.call)] && w.slots[Target(e.call)][e.call.id] == e
    else e.call.id in w.log[FirstDrain(e) - 1] && w.log[FirstDrain(e) - 1][e.call.id] == e
  }

  lemma StaysLocated(w: Wheel, s: Step, e: Entry)
    requires Located(w, e) && Untouched([s], Target(e.call), e.call.id)
    ensures Located(Next(w, s), e)
  {
    NextKeeps(w, s);
    FirstDrainResidue(e);
    assert [s][0] == s;
    if Enabled(w, s) && s.Drain? && w.drains < FirstDrain(e) {
      var t := Target(e.call);
      assert EntryOk(w, t, w.slots[t][e.call.id]);
      if t == w.advances % SlotCount {
        SameResidue(w.advances, FirstDrain(e));
      } else {
        assert FirstDrain(e) != w.advances;
      }
    }
  }

  // An inserted task that nobody removes or replaces is drained exactly once: it stays in its slot up
  // to its first drain and is in the log of that drain from then on.
  lemma {:induction false} DrainedOnce(w: Wheel, e: Entry, steps: seq<Step>)
    requires Located(w, e) && Untouched(steps, Target(e.call), e.call.id)
    ensures Located(Run(w, steps), e)
  {
    if steps != [] {
      var before, last := steps[..|steps| - 1], steps[|steps| - 1];
      assert forall i :: 0 <= i < |before| ==> before[i] == steps[i];
      DrainedOnce(w, e, before);
      hide Located, Next;
      LocatedOk(Run(w, before), e);
      StaysLocated(Run(w, before), last, e);
    }
  }

  lemma LocatedOk(w: Wheel, e: Entry)
    requires Located(w, e)
    ensures |w.slots| == SlotCount
  {
  }

  // The insertion itself puts the entry there.
  lemma InsertLocates(w: Wheel, c: Call)
    requires Inv(w) && c in w.adding
    ensures Located(Next(w, Insert(c)), Entry(c, w.drains))
  {
    NextKeeps(w, Insert(c));
    FirstDrainResidue(Entry(c, w.drains));
  }

  // ---------- What a removal hits ----------

  // A removal takes away an entry exactly if the ids agree and the entry's first drain is the next one
  // from now on that the removal's own read aims at; it leaves every other entry where it is.
  lemma RemovesExactly(w: Wheel, c: Call, e: Entry)
    requires Located(w, e) && w.drains < FirstDrain(e) && c in w.removing
    ensures Located(Next(w, Delete(c)), e) <==>
      !(c.id == e.call.id && FirstDrain(e) == FirstDrain(Entry(c, w.drains)))
  {
    NextKeeps(w, Delete(c));
    FirstDrainResidue(e);
    FirstDrainResidue(Entry(c, w.drains));
    var t := Target(e.call);
    assert EntryOk(w, t, w.slots[t][e.call.id]);
    if Target(c) == t {
      var a, b := FirstDrain(e), FirstDrain(Entry(c, w.drains));
      if a <= b {
        SameResidue(a, b);
      } else {
        SameResidue(b, a);
      }
    }
  }

  // Of entries and removals whose halves were not torn apart by the drain they are meant for, nor enclose
  // a full round, a removal takes away exactly the entry with its id and its deadline.
  lemma RemovesDeadline(w: Wheel, c: Call, e: Entry)
    requires Located(w, e) && w.drains < FirstDrain(e) && c in w.removing
    requires e.insertedAt < Deadline(e) && !FullRoundInside(e)
    requires w.drains < Deadline(Entry(c, w.drains)) && !FullRoundInside(Entry(c, w.drains))
    ensures Located(Next(w, Delete(c)), e) <==> !(c.id == e.call.id && Deadline(e) == Deadline(Entry(c, w.drains)))
  {
    assert EntryOk(w, Target(e.call), w.slots[Target(e.call)][e.call.id]);
    FirstDrainIs(e);
    FirstDrainIs(Entry(c, w.drains));
    RemovesExactly(w, c, e);
  }

  // A removal that comes to its second half only after the drain it was meant for takes away, if anything,
  // an entry drained later by a multiple of sixty.
  lemma LateRemoval(w: Wheel, c: Call, e: Entry)
    requires Located(w, e) && w.drains < FirstDrain(e) && c in w.removing
    requires w.drains >= c.readAt + c.delay && c.id == e.call.id
    ensures !Located(Next(w, Delete(c)), e) ==>
      FirstDrain(e) > c.readAt + c.delay && (FirstDrain(e) - (c.readAt + c.delay)) % SlotCount == 0
  {
    FirstDrainIs(Entry(c, w.drains));
    RemovesExactly(w, c, e);
  }

  // An addition of a full round whose first half falls between the first advance and its drain.
  lemma ReadInsideTick()
    ensures Run(Start, [Advance, ReadForAdd("t", 60)]) == Start.(advances := 1, adding := multiset{Call("t", 60, 1)})
  {
    RunStep(Start, [], Advance, Start.(advances := 1));
    assert [] + [Advance] == [Advance];
    assert [Advance] + [ReadForAdd("t", 60)] == [Advance, ReadForAdd("t", 60)];
    hide Run;
    RunStep(Start, [Advance], ReadForAdd("t", 60), Start.(advances := 1, adding := multiset{Call("t", 60, 1)}));
  }

  // A full round inside a tick does happen: the task is drained at once instead of sixty ticks later.
  lemma SixtyTooEarly()
    ensures var w := Run(Start, [Advance, ReadForAdd("t", 60), Insert(Call("t", 60, 1)), Drain]);
      |w.log| == 1 && "t" in w.log[0] && Deadline(w.log[0]["t"]) == 61
  {
    hide Run;
    ReadInsideTick();
    var c, read := Call("t", 60, 1), [Advance, ReadForAdd("t", 60)];
    var inserted := Start.(advances := 1, slots := Start.slots[1 := map["t" := Entry(c, 0)]]);
    RunStep(Start, read, Insert(c), inserted);
    RunStep(Start, read + [Insert(c)], Drain, Next(inserted, Drain));
    assert read + [Insert(c)] + [Drain] == [Advance, ReadForAdd("t", 60), Insert(c), Drain];
  }

  lemma RunStep(w: Wheel, steps: seq<Step>, s: Step, r: Wheel)
    requires |w.slots| == SlotCount && |Run(w, steps).slots| == SlotCount && Next(Run(w, steps), s) == r
    ensures Run(w, steps + [s]) == r
  {
    assert (steps + [s])[..|steps|] == steps;
  }
}
