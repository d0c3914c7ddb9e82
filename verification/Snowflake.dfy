// Snowflake ids: the time since the epoch, 10 bits of node and 12 bits of sequence in a 64-bit integer.
module Snowflake {
  import opened Options
  import opened Bits

  const Epoch := 1704067200000
  const NodeBits := 10
  const SequenceBits := 12
  const MaxNode := 1023
  const MaxSequence := 4095

  // ((now - epoch) << 22) | (node << 12) | sequence
  function MakeId(now: int, node: int, sequence: int): int {
    Or(Or(ShiftLeft(now - Epoch, NodeBits + SequenceBits), ShiftLeft(node, SequenceBits)), sequence)
  }

  // The three parts read back by shifting and masking.
  function TimeOf(id: int): int {
    ShiftRight(id, NodeBits + SequenceBits) + Epoch
  }

  function NodeOf(id: int): int {
    And(ShiftRight(id, SequenceBits), MaxNode)
  }

  function SequenceOf(id: int): int {
    And(id, MaxSequence)
  }

  // A clock reading that leaves room for 41 bits of time.
  predicate InEra(now: int) {
    0 <= now < Epoch + 0x200_0000_0000
  }

  lemma Powers()
    ensures Pow2(10) == 1024 && Pow2(12) == 4096 && Pow2(22) == 0x40_0000
  {
    assert Pow2(5) == 32;
    assert Pow2(10) == 32 * Pow2(5);
    assert Pow2(12) == 4 * Pow2(10);
    assert Pow2(17) == 32 * Pow2(12);
    assert Pow2(22) == 32 * Pow2(17);
  }

  lemma Regroup(time: int, node: int)
    ensures time * 0x40_0000 + node * 4096 == (time * 1024 + node) * 4096
  {
  }

  lemma ShiftFits(a: int, k: nat)
    requires -0x8000_0000_0000_0000 <= a * Pow2(k) < 0x8000_0000_0000_0000
    ensures ShiftLeft(a, k) == a * Pow2(k)
  {
  }

  // The time bits that are left when the shift cuts the time off at 64 bits.
  function CutTime(now: int): int {
    ShiftLeft(now - Epoch, NodeBits + SequenceBits) / 0x40_0000
  }

  // Whatever the clock says, the time does not reach into the other bits.
  lemma IdIsSumCut(now: int, node: int, sequence: int)
    requires 0 <= node <= MaxNode && 0 <= sequence <= MaxSequence
    ensures MakeId(now, node, sequence) == CutTime(now) * 0x40_0000 + node * 0x1000 + sequence
  {
    Powers();
    hide Or, Pow2;
    ShiftIsMultiple(now - Epoch);
    ShiftFits(node, 12);
    OrDisjoint(CutTime(now), node * 4096, 22);
    Regroup(CutTime(now), node);
    OrDisjoint(CutTime(now) * 1024 + node, sequence, 12);
  }

  lemma ShiftIsMultiple(a: int)
    ensures ShiftLeft(a, 22) == ShiftLeft(a, 22) / 0x40_0000 * 0x40_0000
  {
    Powers();
    hide Pow2;
  }

  lemma NodeStays(now: int, node: int, sequence: int)
    requires 0 <= node <= MaxNode && 0 <= sequence <= MaxSequence
    ensures NodeOf(MakeId(now, node, sequence)) == node && SequenceOf(MakeId(now, node, sequence)) == sequence
  {
    IdIsSumCut(now, node, sequence);
    Powers();
    hide MakeId, And;
    var id, time := MakeId(now, node, sequence), CutTime(now);
    AndMask(id, 12);
    AndMask(id / 4096, 10);
    Remainder(id, 4096, time * 1024 + node, sequence);
    Remainder(time * 1024 + node, 1024, time, node);
  }

  // Within the era nothing overlaps and nothing overflows.
  lemma IdIsSum(now: int, node: int, sequence: int)
    requires InEra(now) && 0 <= node <= MaxNode && 0 <= sequence <= MaxSequence
    ensures MakeId(now, node, sequence) == (now - Epoch) * 0x40_0000 + node * 0x1000 + sequence
  {
    Powers();
    hide Pow2, MakeId, And;
    ShiftFits(now - Epoch, 22);
    IdIsSumCut(now, node, sequence);
  }

  lemma Decode(now: int, node: int, sequence: int)
    requires InEra(now) && 0 <= node <= MaxNode && 0 <= sequence <= MaxSequence
    ensures var id := MakeId(now, node, sequence);
      TimeOf(id) == now && NodeOf(id) == node && SequenceOf(id) == sequence &&
      -0x8000_0000_0000_0000 <= id < 0x8000_0000_0000_0000
  {
    NodeStays(now, node, sequence);
    IdIsSum(now, node, sequence);
    Powers();
    hide MakeId, NodeOf, SequenceOf;
    var id, time := MakeId(now, node, sequence), now - Epoch;
    assert id == time * 0x40_0000 + (node * 4096 + sequence);
    Remainder(id, 0x40_0000, time, node * 4096 + sequence);
  }

  datatype State = State(sequence: int, lastTime: int)

  // Waiting for a reading after lastTime: the first such reading and what the clock says after it.
  function Wait(lastTime: int, clock: seq<int>): Option<(int, seq<int>)> {
    if clock == [] then None
    else if clock[0] > lastTime then Some((clock[0], clock[1..]))
    else Wait(lastTime, clock[1..])
  }

  // Generate on the readings that the clock will give: the new state, from which the id is made, and the
  // readings left; None while the readings at hand are not enough.
  function Generated(s: State, clock: seq<int>): Option<(State, seq<int>)> {
    if clock == [] then None
    else
      var now, later := clock[0], clock[1..];
      if now == s.lastTime then
        var next := And(s.sequence + 1, MaxSequence);
        if next == 0 then
          match Wait(s.lastTime, later)
          case None => None
          case Some((after, left)) => Some((State(0, after), left))
        else Some((State(next, now), later))
      else Some((State(0, now), later))
  }

  class Node {
    const nodeID: int
    var sequence: int
    var lastTime: int

    // NewNode: a node id out of range becomes 1.
    constructor (nodeID: int)
      ensures this.nodeID == (if 0 <= nodeID <= MaxNode then nodeID else 1) && sequence == 0 && lastTime == 0
    {
      var id := nodeID;
      if id < 0 || id > MaxNode {
        id := 1;
      }
      this.nodeID := id;
      sequence, lastTime := 0, 0;
    }

    // Generate
    method Generate(clock: seq<int>) returns (id: Option<int>, left: seq<int>)
      modifies this
      ensures var r := Generated(State(old(sequence), old(lastTime)), clock);
        if r.None? then id.None?
        else
          State(sequence, lastTime) == r.value.0 && left == r.value.1 && id == Some(MakeId(lastTime, nodeID, sequence))
    {
      left := clock;
      if left == [] {
        return None, left;
      }
      var now := left[0];
      left := left[1..];
      if now == lastTime {
        sequence := And(sequence + 1, MaxSequence);
        if sequence == 0 {
          ghost var later := left;
          while now <= lastTime
            invariant Wait(lastTime, later) == if now <= lastTime then Wait(lastTime, left) else Some((now, left))
            decreases |left|, if now <= lastTime then 1 else 0
          {
            if left == [] {
              return None, left;
            }
            now := left[0];
            left := left[1..];
          }
        }
      } else {
        sequence := 0;
      }
      lastTime := now;
      id := Some(MakeId(now, nodeID, sequence));
    }
  }

  // ---------- One generation ----------

  // Every reading lies in the era.
  ghost predicate AllInEra(clock: seq<int>) {
    forall i :: 0 <= i < |clock| ==> InEra(clock[i])
  }

  predicate Before(a: State, b: State) {
    a.lastTime < b.lastTime || (a.lastTime == b.lastTime && a.sequence < b.sequence)
  }

  predicate Counts(s: State) {
    0 <= s.sequence <= MaxSequence
  }

  predicate Sound(s: State) {
    InEra(s.lastTime) && Counts(s)
  }

  lemma {:induction false} WaitPasses(lastTime: int, clock: seq<int>)
    ensures var r := Wait(lastTime, clock);
      r.Some? ==> r.value.0 > lastTime && (AllInEra(clock) ==> InEra(r.value.0) && AllInEra(r.value.1))
  {
    if clock != [] && clock[0] <= lastTime {
      WaitPasses(lastTime, clock[1..]);
    }
  }

  lemma NextSequence(sequence: int)
    requires 0 <= sequence <= MaxSequence
    ensures And(sequence + 1, MaxSequence) == if sequence < MaxSequence then sequence + 1 else 0
  {
    Powers();
    hide And;
    AndMask(sequence + 1, 12);
  }

  // One generation moves on in time or, within a millisecond, in sequence if and only if the reading it
  // starts with has not stepped back. What the clock says while the node waits plays no part.
  lemma AdvancesIff(s: State, clock: seq<int>)
    requires Counts(s)
    ensures var r := Generated(s, clock);
      r.Some? ==> Counts(r.value.0) && (Before(s, r.value.0) <==> clock[0] >= s.lastTime)
  {
    NextSequence(s.sequence);
    hide And, Wait;
    if clock != [] {
      WaitPasses(s.lastTime, clock[1..]);
    }
  }

  lemma StaysInEra(s: State, clock: seq<int>)
    requires Counts(s) && AllInEra(clock)
    ensures var r := Generated(s, clock); r.Some? ==> Sound(r.value.0) && AllInEra(r.value.1)
  {
    AdvancesIff(s, clock);
    hide And, Wait;
    if clock != [] {
      WaitPasses(s.lastTime, clock[1..]);
    }
  }

  // ---------- Runs ----------

  // The states behind the ids of a run of n generations, as far as the readings last.
  function Run(s: State, clock: seq<int>, n: nat): seq<State>
    decreases n
  {
    if n == 0 then []
    else
      match Generated(s, clock)
      case None => []
      case Some((next, left)) => [next] + Run(next, left, n - 1)
  }

  // No generation of the run starts with a reading before the node's last time.
  predicate NeverBack(s: State, clock: seq<int>, n: nat)
    decreases n
  {
    n == 0 || Generated(s, clock).None? ||
    (clock[0] >= s.lastTime && NeverBack(Generated(s, clock).value.0, Generated(s, clock).value.1, n - 1))
  }

  // The same for the generations after the first one.
  predicate NeverBackLater(s: State, clock: seq<int>, n: nat) {
    n == 0 || Generated(s, clock).None? || NeverBack(Generated(s, clock).value.0, Generated(s, clock).value.1, n - 1)
  }

  function IdsOf(node: int, states: seq<State>): (r: seq<int>)
    ensures |r| == |states|
  {
    seq(|states|, i requires 0 <= i < |states| => MakeId(states[i].lastTime, node, states[i].sequence))
  }

  ghost predicate AllSound(states: seq<State>) {
    forall i :: 0 <= i < |states| ==> Sound(states[i])
  }

  // Each state comes after all those before it.
  ghost predicate InTurn(states: seq<State>) {
    forall i, j :: 0 <= i < j < |states| ==> Before(states[i], states[j])
  }

  lemma RunStep(s: State, clock: seq<int>, n: nat, next: State, left: seq<int>)
    requires n > 0 && Generated(s, clock) == Some((next, left))
    ensures Run(s, clock, n) == [next] + Run(next, left, n - 1)
    ensures NeverBack(s, clock, n) <==> clock[0] >= s.lastTime && NeverBack(next, left, n - 1)
  {
  }

  lemma {:induction false} RunSound(s: State, clock: seq<int>, n: nat)
    requires Counts(s) && AllInEra(clock)
    ensures AllSound(Run(s, clock, n))
    decreases n
  {
    hide Generated;
    if n > 0 {
      StaysInEra(s, clock);
      var r := Generated(s, clock);
      if r.Some? {
        RunSound(r.value.0, r.value.1, n - 1);
      }
    }
  }

  lemma OneMoreInTurn(s: State, next: State, rest: seq<State>)
    ensures InTurn([s] + ([next] + rest)) <==> Before(s, next) && InTurn([next] + rest)
  {
    var states, later := [s] + ([next] + rest), [next] + rest;
    assert forall i :: 0 < i < |states| ==> states[i] == later[i - 1];
    if InTurn(states) {
      assert Before(states[0], states[1]);
      forall i, j | 0 <= i < j < |later|
        ensures Before(later[i], later[j])
      {
        assert Before(states[i + 1], states[j + 1]);
      }
    }
    if Before(s, next) && InTurn(later) {
      forall j | 0 < j < |later|
        ensures Before(s, later[j])
      {
        assert Before(later[0], later[j]);
      }
    }
  }

  // A run goes on from s in turn if and only if no generation starts with a reading that stepped back.
  lemma {:induction false} RunInTurnIff(s: State, clock: seq<int>, n: nat)
    requires Counts(s)
    ensures InTurn([s] + Run(s, clock, n)) <==> NeverBack(s, clock, n)
    decreases n
  {
    if n > 0 && Generated(s, clock).Some? {
      AdvancesIff(s, clock);
      var (next, left) := Generated(s, clock).value;
      RunInTurnIff(next, left, n - 1);
      RunStep(s, clock, n, next, left);
      hide Generated, NeverBack, Run, InTurn;
      OneMoreInTurn(s, next, Run(next, left, n - 1));
    }
  }

  // ---------- Ids ----------

  // Later states, and no others, have larger ids.
  lemma InOrderIff(a: State, b: State, node: int)
    requires Sound(a) && Sound(b) && 0 <= node <= MaxNode
    ensures MakeId(a.lastTime, node, a.sequence) < MakeId(b.lastTime, node, b.sequence) <==> Before(a, b)
  {
    IdIsSum(a.lastTime, node, a.sequence);
    IdIsSum(b.lastTime, node, b.sequence);
    hide MakeId;
  }

  // The ids strictly increase.
  ghost predicate Increasing(ids: seq<int>) {
    forall i, j :: 0 <= i < j < |ids| ==> ids[i] < ids[j]
  }

  lemma IncreasingIff(states: seq<State>, node: int)
    requires AllSound(states) && 0 <= node <= MaxNode
    ensures Increasing(IdsOf(node, states)) <==> InTurn(states)
  {
    hide MakeId;
    var ids := IdsOf(node, states);
    forall i, j | 0 <= i < j < |states|
      ensures ids[i] < ids[j] <==> Before(states[i], states[j])
    {
      InOrderIff(states[i], states[j], node);
    }
  }

  // The ids of a run strictly increase if and only if no generation after the first one starts with a
  // reading that stepped back.
  lemma IdsIncreaseIff(s: State, node: int, clock: seq<int>, n: nat)
    requires 0 <= node <= MaxNode && Counts(s) && AllInEra(clock)
    ensures Increasing(IdsOf(node, Run(s, clock, n))) <==> NeverBackLater(s, clock, n)
  {
    RunSound(s, clock, n);
    hide Generated, IdsOf, Increasing;
    IncreasingIff(Run(s, clock, n), node);
    LaterInTurnIff(s, clock, n);
  }

  lemma LaterInTurnIff(s: State, clock: seq<int>, n: nat)
    requires Counts(s)
    ensures InTurn(Run(s, clock, n)) <==> NeverBackLater(s, clock, n)
  {
    if n > 0 && Generated(s, clock).Some? {
      AdvancesIff(s, clock);
      var (next, left) := Generated(s, clock).value;
      RunStep(s, clock, n, next, left);
      RunInTurnIff(next, left, n - 1);
    }
  }

  // The clock never steps back at all.
  ghost predicate Steady(from: int, clock: seq<int>) {
    (forall i :: 0 <= i < |clock| ==> from <= clock[i]) && forall i, j :: 0 <= i < j < |clock| ==> clock[i] <= clock[j]
  }

  lemma {:induction false} WaitLeavesSteady(lastTime: int, clock: seq<int>)
    requires Steady(lastTime, clock)
    ensures var r := Wait(lastTime, clock); r.Some? ==> Steady(r.value.0, r.value.1)
  {
    if clock != [] && clock[0] <= lastTime {
      WaitLeavesSteady(lastTime, clock[1..]);
    }
  }

  lemma {:induction false} SteadyNeverBack(s: State, clock: seq<int>, n: nat)
    requires Steady(s.lastTime, clock)
    ensures NeverBack(s, clock, n)
    decreases n
  {
    hide And;
    if n > 0 && Generated(s, clock).Some? {
      assert Steady(clock[0], clock[1..]);
      if clock[0] == s.lastTime {
        WaitLeavesSteady(s.lastTime, clock[1..]);
      }
      SteadyNeverBack(Generated(s, clock).value.0, Generated(s, clock).value.1, n - 1);
    }
  }

  // So with a clock that never steps back the ids of a node strictly increase.
  lemma IdsIncrease(s: State, node: int, clock: seq<int>, n: nat)
    requires 0 <= node <= MaxNode && Counts(s) && AllInEra(clock) && Steady(s.lastTime, clock)
    ensures Increasing(IdsOf(node, Run(s, clock, n)))
  {
    IdsIncreaseIff(s, node, clock, n);
    SteadyNeverBack(s, clock, n);
    if n > 0 && Generated(s, clock).Some? {
      RunStep(s, clock, n, Generated(s, clock).value.0, Generated(s, clock).value.1);
    }
  }

  // A clock that steps back by a millisecond and recovers makes a fresh node repeat an id.
  lemma StepBackRepeats(node: int, t: int)
    requires t >= 1
    ensures var ids := IdsOf(node, Run(State(0, 0), [t, t - 1, t], 3)); |ids| == 3 && ids[0] == ids[2]
  {
    var a, b := State(0, t), State(0, t - 1);
    assert [t, t - 1, t][1..] == [t - 1, t] && [t - 1, t][1..] == [t] && [t][1..] == [];
    RunStep(State(0, 0), [t, t - 1, t], 3, a, [t - 1, t]);
    RunStep(a, [t - 1, t], 2, b, [t]);
    RunStep(b, [t], 1, a, []);
    assert Run(State(0, 0), [t, t - 1, t], 3) == [a, b, a];
  }

  // ---------- How many ids there are in a millisecond ----------

  // n states of one millisecond, counting from the sequence number first.
  function Counting(t: int, first: int, n: nat): seq<State> {
    seq(n, i requires 0 <= i < n => State(first + i, t))
  }

  lemma OneUp(s: State, clock: seq<int>)
    requires 0 <= s.sequence < MaxSequence && clock != [] && clock[0] == s.lastTime
    ensures Generated(s, clock) == Some((State(s.sequence + 1, s.lastTime), clock[1..]))
  {
    NextSequence(s.sequence);
    hide And;
  }

  lemma CountingStep(t: int, first: int, n: nat)
    requires n > 0
    ensures Counting(t, first, n) == [State(first, t)] + Counting(t, first + 1, n - 1)
  {
  }

  // Readings of the time that the node is at count the sequence number up.
  lemma {:induction false} CountsUp(s: State, clock: seq<int>)
    requires 0 <= s.sequence && s.sequence + |clock| <= MaxSequence
    requires forall i :: 0 <= i < |clock| ==> clock[i] == s.lastTime
    ensures Run(s, clock, |clock|) == Counting(s.lastTime, s.sequence + 1, |clock|)
    decreases |clock|
  {
    if clock != [] {
      var next := State(s.sequence + 1, s.lastTime);
      CountsUp(next, clock[1..]);
      OneUp(s, clock);
      RunStep(s, clock, |clock|, next, clock[1..]);
      hide Run, Generated, Counting;
      CountingStep(s.lastTime, s.sequence + 1, |clock|);
    }
  }

  // A millisecond gives one id for each of up to 4096 readings, with the sequence numbers from 0 on.
  lemma Capacity(s: State, t: int, clock: seq<int>)
    requires s.lastTime != t && 1 <= |clock| <= 4096 && forall i :: 0 <= i < |clock| ==> clock[i] == t
    ensures Run(s, clock, |clock|) == Counting(t, 0, |clock|)
  {
    hide Run, Generated, Counting;
    OtherTime(s, clock);
    RunStep(s, clock, |clock|, State(0, t), clock[1..]);
    CountsUp(State(0, t), clock[1..]);
    CountingStep(t, 0, |clock|);
  }

  lemma OtherTime(s: State, clock: seq<int>)
    requires clock != [] && clock[0] != s.lastTime
    ensures Generated(s, clock) == Some((State(0, clock[0]), clock[1..]))
  {
  }

  lemma {:induction false} WaitsFor(t: int, early: seq<int>, u: int, later: seq<int>)
    requires t < u && forall i :: 0 <= i < |early| ==> early[i] <= t
    ensures Wait(t, early + [u] + later) == Some((u, later))
  {
    var clock := early + [u] + later;
    if early != [] {
      WaitsFor(t, early[1..], u, later);
      assert clock[1..] == early[1..] + [u] + later;
    } else {
      assert clock[1..] == later;
    }
  }

  // The id after the 4096th takes the first later reading, with the sequence number 0.
  lemma AfterTheLast(t: int, early: seq<int>, u: int, later: seq<int>)
    requires t < u && forall i :: 0 <= i < |early| ==> early[i] <= t
    ensures Generated(State(MaxSequence, t), [t] + (early + [u] + later)) == Some((State(0, u), later))
  {
    NextSequence(MaxSequence);
    WaitsFor(t, early, u, later);
    assert ([t] + (early + [u] + later))[1..] == early + [u] + later;
  }

  // Each id decodes to the time, node and sequence number that it was made from.
  ghost predicate Decodable(ids: seq<int>, node: int, states: seq<State>) {
    |ids| == |states| && forall i :: 0 <= i < |ids| ==>
      TimeOf(ids[i]) == states[i].lastTime && NodeOf(ids[i]) == node && SequenceOf(ids[i]) == states[i].sequence
  }

  // Whether or not the clock steps back.
  lemma IdsDecode(s: State, node: int, clock: seq<int>, n: nat)
    requires 0 <= node <= MaxNode && Counts(s) && AllInEra(clock)
    ensures Decodable(IdsOf(node, Run(s, clock, n)), node, Run(s, clock, n))
  {
    RunSound(s, clock, n);
    hide MakeId, TimeOf, NodeOf, SequenceOf, Run;
    var states := Run(s, clock, n);
    forall i | 0 <= i < |states|
      ensures var id := MakeId(states[i].lastTime, node, states[i].sequence);
        TimeOf(id) == states[i].lastTime && NodeOf(id) == node && SequenceOf(id) == states[i].sequence
    {
      Decode(states[i].lastTime, node, states[i].sequence);
    }
  }

  lemma {:induction false} RunCounts(s: State, clock: seq<int>, n: nat)
    requires Counts(s)
    ensures forall i :: 0 <= i < |Run(s, clock, n)| ==> Counts(Run(s, clock, n)[i])
    decreases n
  {
    hide Generated;
    if n > 0 {
      AdvancesIff(s, clock);
      var r := Generated(s, clock);
      if r.Some? {
        RunCounts(r.value.0, r.value.1, n - 1);
      }
    }
  }

  lemma NodesOf(s: State, node: int, clock: seq<int>, n: nat)
    requires 0 <= node <= MaxNode && Counts(s)
    ensures forall i :: 0 <= i < |Run(s, clock, n)| ==> NodeOf(IdsOf(node, Run(s, clock, n))[i]) == node
  {
    RunCounts(s, clock, n);
    hide MakeId, NodeOf, Run;
    var states := Run(s, clock, n);
    forall i | 0 <= i < |states|
      ensures NodeOf(MakeId(states[i].lastTime, node, states[i].sequence)) == node
    {
      NodeStays(states[i].lastTime, node, states[i].sequence);
    }
  }

  // Ids of different nodes never collide, whatever their clocks say, the era and its end included.
  lemma NodesNeverCollide(s1: State, node1: int, clock1: seq<int>, n1: nat,
                          s2: State, node2: int, clock2: seq<int>, n2: nat)
    requires 0 <= node1 <= MaxNode && Counts(s1)
    requires 0 <= node2 <= MaxNode && Counts(s2)
    requires node1 != node2
    ensures Disjoint(IdsOf(node1, Run(s1, clock1, n1)), IdsOf(node2, Run(s2, clock2, n2)))
  {
    hide NodeOf, IdsOf, Run;
    NodesOf(s1, node1, clock1, n1);
    NodesOf(s2, node2, clock2, n2);
  }

  ghost predicate Disjoint(ids1: seq<int>, ids2: seq<int>) {
    forall i, j :: 0 <= i < |ids1| && 0 <= j < |ids2| ==> ids1[i] != ids2[j]
  }
}
