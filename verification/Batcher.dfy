// The message batcher: accepted messages wait in a bounded channel, the worker collects them into a
// batch, and batches are flushed to the database when full, when the ticker fires and at the end.
module Batcher {

  // The channel, the batch at hand and the batches handed to the database, in order.
  datatype Queue<M> = Queue(size: nat, channel: seq<M>, batch: seq<M>, flushed: seq<seq<M>>, running: bool)

  // Offer is a sender trying to enqueue; the others are what the worker's select finds ready: a message in
  // the channel, the ticker, or the end, by the stop channel or by the context.
  datatype Event<M> = Offer(message: M) | Message | Ticker | End

  predicate HasRoom<M>(q: Queue<M>) {
    |q.channel| < 10 * q.size
  }

  function Flush<M>(q: Queue<M>): Queue<M> {
    q.(flushed := q.flushed + [q.batch], batch := [])
  }

  // A sender waits while the channel is full. After the end nobody empties the channel.
  function Next<M>(q: Queue<M>, e: Event<M>): Queue<M> {
    match e
    case Offer(m) => if HasRoom(q) then q.(channel := q.channel + [m]) else q
    case Message =>
      if !q.running || q.channel == [] then q
      else
        var taken := q.(batch := q.batch + [q.channel[0]], channel := q.channel[1..]);
        if |taken.batch| >= q.size then Flush(taken) else taken
    case Ticker => if q.running && |q.batch| > 0 then Flush(q) else q
    case End =>
      if !q.running then q
      else if |q.batch| > 0 then Flush(q).(running := false)
      else q.(running := false)
  }

  function Run<M>(q: Queue<M>, events: seq<Event<M>>): Queue<M> {
    if events == [] then q else Next(Run(q, events[..|events| - 1]), events[|events| - 1])
  }

  // The messages whose senders found room, in order.
  function Accepted<M>(q: Queue<M>, events: seq<Event<M>>): seq<M> {
    if events == [] then []
    else
      var before, last := events[..|events| - 1], events[|events| - 1];
      Accepted(q, before) + if last.Offer? && HasRoom(Run(q, before)) then [last.message] else []
  }

  function Joined<M>(batches: seq<seq<M>>): seq<M> {
    if batches == [] then [] else Joined(batches[..|batches| - 1]) + batches[|batches| - 1]
  }

  // Everything in the queue's care, oldest first.
  function Everything<M>(q: Queue<M>): seq<M> {
    Joined(q.flushed) + q.batch + q.channel
  }

  ghost predicate Inv<M>(q: Queue<M>) {
    q.size >= 1 && |q.channel| <= 10 * q.size && |q.batch| < q.size &&
    (forall i :: 0 <= i < |q.flushed| ==> 1 <= |q.flushed[i]| <= q.size) &&
    (!q.running ==> q.batch == [])
  }

  function Fresh<M>(size: nat): Queue<M> {
    Queue(size, [], [], [], true)
  }

  lemma FlushKeepsAll<M>(q: Queue<M>)
    ensures Everything(Flush(q)) == Everything(q)
  {
    assert (q.flushed + [q.batch])[..|q.flushed|] == q.flushed;
  }

  lemma TakeKeepsAll<M>(q: Queue<M>)
    requires q.channel != []
    ensures Everything(q.(batch := q.batch + [q.channel[0]], channel := q.channel[1..])) == Everything(q)
  {
    assert q.channel == [q.channel[0]] + q.channel[1..];
    assert Joined(q.flushed) + (q.batch + [q.channel[0]]) + q.channel[1..] ==
           Joined(q.flushed) + q.batch + ([q.channel[0]] + q.channel[1..]);
  }

  lemma NextKeepsAll<M>(q: Queue<M>, e: Event<M>)
    ensures Everything(Next(q, e)) == Everything(q) + if e.Offer? && HasRoom(q) then [e.message] else []
  {
    hide Joined;
    match e
    case Offer(m) => assert Everything(q) + [m] == Joined(q.flushed) + q.batch + (q.channel + [m]);
    case Message =>
      if q.running && q.channel != [] {
        var taken := q.(batch := q.batch + [q.channel[0]], channel := q.channel[1..]);
        TakeKeepsAll(q);
        FlushKeepsAll(taken);
      }
    case Ticker => FlushKeepsAll(q);
    case End => FlushKeepsAll(q);
  }

  lemma NextKeeps<M>(q: Queue<M>, e: Event<M>)
    requires Inv(q)
    ensures Inv(Next(q, e))
  {
  }

  lemma {:induction false} RunKeepsInv<M>(q: Queue<M>, events: seq<Event<M>>)
    requires Inv(q)
    ensures Inv(Run(q, events))
  {
    hide Next, Inv;
    if events != [] {
      RunKeepsInv(q, events[..|events| - 1]);
      NextKeeps(Run(q, events[..|events| - 1]), events[|events| - 1]);
    }
  }

  lemma {:induction false} RunKeepsAll<M>(q: Queue<M>, events: seq<Event<M>>)
    ensures Everything(Run(q, events)) == Everything(q) + Accepted(q, events)
  {
    hide Next, Everything, HasRoom;
    if events != [] {
      var before, last := events[..|events| - 1], events[|events| - 1];
      RunKeepsAll(q, before);
      NextKeepsAll(Run(q, before), last);
    }
  }

  // In every run, flushed batches, current batch and channel together are the accepted messages in order,
  // each flush holds between one message and a full batch, and after the end exactly the channel is left.
  lemma RunKeeps<M>(size: nat, events: seq<Event<M>>)
    requires size >= 1
    ensures var r := Run(Fresh(size), events);
            Inv(r) && r.size == size &&
            Joined(r.flushed) + r.batch + r.channel == Accepted(Fresh(size), events) &&
            (!r.running ==> Joined(r.flushed) + r.channel == Accepted(Fresh(size), events))
  {
    hide Next, Run, Accepted, Joined;
    var r := Run(Fresh(size), events);
    RunKeepsInv(Fresh(size), events);
    RunKeepsAll(Fresh(size), events);
    RunKeepsSize(Fresh(size), events);
    StartsEmpty<M>(size);
    if !r.running {
      assert Joined(r.flushed) + [] == Joined(r.flushed);
    }
  }

  lemma StartsEmpty<M>(size: nat)
    ensures Everything<M>(Fresh(size)) == []
  {
  }

  lemma {:induction false} RunKeepsSize<M>(q: Queue<M>, events: seq<Event<M>>)
    ensures Run(q, events).size == q.size
  {
    if events != [] {
      RunKeepsSize(q, events[..|events| - 1]);
    }
  }

  // ---------- What the worker does take ----------

  // The worker's receive takes exactly the oldest waiting message, and flushes exactly when that fills the
  // batch.
  lemma MessageTakesOldest<M>(q: Queue<M>)
    requires Inv(q) && q.running && q.channel != []
    ensures var r, batch := Next(q, Message), q.batch + [q.channel[0]];
      && r.channel == q.channel[1..] && r.running
      && (|batch| == q.size ==> r.flushed == q.flushed + [batch] && r.batch == [])
      && (|batch| < q.size ==> r.flushed == q.flushed && r.batch == batch)
  {
  }

  // How many receives of the run found a message waiting and the worker running.
  function Receives<M>(q: Queue<M>, events: seq<Event<M>>): nat {
    if events == [] then 0
    else
      var before := events[..|events| - 1];
      var at := Run(q, before);
      Receives(q, before) + if events[|events| - 1].Message? && at.running && at.channel != [] then 1 else 0
  }

  // What has left the channel.
  function Out<M>(q: Queue<M>): seq<M> {
    Joined(q.flushed) + q.batch
  }

  lemma NextOut<M>(q: Queue<M>, e: Event<M>)
    requires Inv(q)
    ensures Out(Next(q, e)) == Out(q) + if e.Message? && q.running && q.channel != [] then [q.channel[0]] else []
  {
    hide Joined;
    match e
    case Offer(m) =>
    case Message =>
      if q.running && q.channel != [] {
        FlushOut(q.(batch := q.batch + [q.channel[0]], channel := q.channel[1..]));
        assert Out(q) + [q.channel[0]] == Joined(q.flushed) + (q.batch + [q.channel[0]]);
      }
    case Ticker => FlushOut(q);
    case End => FlushOut(q);
  }

  lemma FlushOut<M>(q: Queue<M>)
    ensures Out(Flush(q)) == Out(q)
  {
    assert (q.flushed + [q.batch])[..|q.flushed|] == q.flushed;
  }

  // Over a run the messages taken out of the channel are as many as such receives, and by RunKeeps they are
  // the oldest ones accepted.
  lemma {:induction false} RunTakes<M>(q: Queue<M>, events: seq<Event<M>>)
    requires Inv(q)
    ensures |Out(Run(q, events))| == |Out(q)| + Receives(q, events)
  {
    hide Next, Inv, Out;
    if events != [] {
      var before := events[..|events| - 1];
      RunTakes(q, before);
      RunKeepsInv(q, before);
      NextOut(Run(q, before), events[|events| - 1]);
    }
  }

  lemma TakesOldestFirst<M>(size: nat, events: seq<Event<M>>)
    requires size >= 1
    ensures var r, n := Run(Fresh(size), events), Receives(Fresh(size), events);
      var accepted := Accepted(Fresh(size), events);
      n <= |accepted| && Out(r) == accepted[..n] && r.channel == accepted[n..]
  {
    hide Next, Run, Accepted, Joined, Inv;
    var r := Run(Fresh(size), events);
    RunKeepsAll(Fresh(size), events);
    StartsEmpty<M>(size);
    assert Inv(Fresh<M>(size)) by { FreshOk<M>(size); }
    RunTakes(Fresh(size), events);
    NothingOut<M>(size);
    hide Receives;
    assert Out(r) + r.channel == Accepted(Fresh(size), events);
  }

  lemma FreshOk<M>(size: nat)
    requires size >= 1
    ensures Inv(Fresh<M>(size))
  {
  }

  lemma NothingOut<M>(size: nat)
    ensures Out(Fresh<M>(size)) == []
  {
  }

  // A running worker that gets to receive as often as messages wait empties the channel.
  lemma {:induction false} ReceivesEmpty<M>(q: Queue<M>, n: nat)
    requires Inv(q) && q.running && n <= |q.channel|
    ensures var r := Run(q, seq(n, _ => Message)); r.channel == q.channel[n..] && r.running && Inv(r)
  {
    var events := seq(n, _ => Message);
    if n > 0 {
      assert events[..n - 1] == seq(n - 1, _ => Message);
      ReceivesEmpty(q, n - 1);
      var before := Run(q, events[..n - 1]);
      MessageTakesOldest(before);
      NextKeeps(before, Message);
      assert Run(q, events) == Next(before, Message);
    }
  }

  // A fresh channel takes ten batches before a sender has to wait.
  lemma {:induction false} ChannelCapacity<M>(size: nat, offers: seq<Event<M>>)
    requires size >= 1 && forall i :: 0 <= i < |offers| ==> offers[i].Offer?
    ensures var r := Run(Fresh(size), offers);
      r.size == size && |r.channel| == if |offers| <= 10 * size then |offers| else 10 * size
  {
    if offers != [] {
      ChannelCapacity(size, offers[..|offers| - 1]);
    }
  }

  // A tick or the end leaves no message waiting in the batch.
  lemma NothingLinger<M>(q: Queue<M>, e: Event<M>)
    requires Inv(q) && (e.Ticker? || e.End?)
    ensures Next(q, e).batch == [] && Joined(Next(q, e).flushed) == Joined(q.flushed) + q.batch
  {
    FlushKeepsAll(q);
    assert (q.flushed + [q.batch])[..|q.flushed|] == q.flushed;
  }

  class MessageBatcher<M> {
    const batchSize: nat
    var channel: seq<M>
    var batch: seq<M>
    var flushed: seq<seq<M>>
    var running: bool

    function View(): Queue<M>
      reads this
    {
      Queue(batchSize, channel, batch, flushed, running)
    }

    // A batch size that is not positive becomes 100.
    constructor (batchSize: int)
      ensures View() == Fresh(if batchSize <= 0 then 100 else batchSize) && Inv(View())
    {
      this.batchSize := if batchSize <= 0 then 100 else batchSize;
      channel, batch, flushed, running := [], [], [], true;
    }

    // SaveMessage: false while the sender has to wait for room.
    method SaveMessage(message: M) returns (accepted: bool)
      modifies this
      ensures View() == Next(old(View()), Offer(message)) && accepted == HasRoom(old(View()))
    {
      accepted := |channel| < 10 * batchSize;
      if accepted {
        channel := channel + [message];
      }
    }

    // The worker's loop over what the select finds, and what senders do meanwhile.
    method Worker(events: seq<Event<M>>)
      modifies this
      ensures View() == Run(old(View()), events)
    {
      for i := 0 to |events|
        invariant View() == Run(old(View()), events[..i])
      {
        assert events[..i + 1][..i] == events[..i];
        match events[i]
        case Offer(message) =>
          var accepted := SaveMessage(message);
        case Message =>
          if running && |channel| > 0 {
            batch := batch + [channel[0]];
            channel := channel[1..];
            if |batch| >= batchSize {
              flushed, batch := flushed + [batch], [];
            }
          }
        case Ticker =>
          if running && |batch| > 0 {
            flushed, batch := flushed + [batch], [];
          }
        case End =>
          if running {
            if |batch| > 0 {
              flushed, batch := flushed + [batch], [];
            }
            running := false;
          }
      }
      assert events[..|events|] == events;
    }
  }
}
