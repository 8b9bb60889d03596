/** What a subscriber does get: writes, drains and reads bring a client up to date, or end its stream. */
module Delivery {
  import opened Levels
  import opened Wire
  import opened Publishing
  import opened Replication

  /** The handler and the client of one stream get on with their work; every write succeeds. */
  predicate Working(ev: Event, id: nat) {
    ev == WriteInitial(id, true) || ev == DrainL2(id) || ev == WriteNext(id, true) || ev == ClientReads(id)
  }

  /** An open stream with nothing on its way to the client. */
  predicate CaughtUp(t: L2Stream) {
    !t.ended && !t.queue.closed && t.channel + t.batch + t.queue.items == []
  }

  /** Nothing left to do: caught up, or ended by an overflow with everything written read. */
  predicate Finished(t: L2Stream) {
    CaughtUp(t) || (t.ended && t.channel == [])
  }

  /** How much work is left: a queued message is drained, written and read. */
  function Work(t: L2Stream): nat {
    3 * |t.queue.items| + 2 * |t.batch| + |t.channel| + (if t.wroteInitial then 0 else 1) + (if t.ended then 0 else 1)
  }

  function NextWork(t: L2Stream, id: nat): Event {
    if t.channel != [] then ClientReads(id)
    else if !t.wroteInitial then WriteInitial(id, true)
    else if t.batch != [] then WriteNext(id, true)
    else DrainL2(id)
  }

  /** What holds of every stream: an ended handler holds nothing, a closed queue is empty. */
  predicate Tidy(t: L2Stream) {
    (t.ended ==> t.wroteInitial && t.batch == []) && (t.queue.closed ==> t.queue.items == [])
  }

  lemma WorkShrinks(t: L2Stream, id: nat)
    requires !Finished(t) && Tidy(t)
    ensures
      var u := Handle(t, NextWork(t, id));
      && Work(u) < Work(t) && Tidy(u)
      && u.queue.closed == t.queue.closed && (t.ended || (u.ended ==> t.queue.closed))
  {
  }

  function HandleAll(t: L2Stream, work: seq<Event>): L2Stream {
    if work == [] then t else Handle(HandleAll(t, work[..|work| - 1]), work[|work| - 1])
  }

  lemma {:induction false} HandleCons(t: L2Stream, ev: Event, work: seq<Event>)
    ensures HandleAll(t, [ev] + work) == HandleAll(Handle(t, ev), work)
  {
    if work == [] {
      assert [ev] + work == [ev] && [ev][..0] == [];
    } else {
      assert ([ev] + work)[..|work|] == [ev] + work[..|work| - 1];
      HandleCons(t, ev, work[..|work| - 1]);
    }
  }

  lemma {:induction false} WorkFinishes(t: L2Stream, id: nat) returns (work: seq<Event>)
    requires Tidy(t)
    ensures forall i :: 0 <= i < |work| ==> Working(work[i], id)
    ensures
      var u := HandleAll(t, work);
      && Finished(u) && u.queue.closed == t.queue.closed && (!t.ended && !t.queue.closed ==> !u.ended)
    decreases Work(t)
  {
    if Finished(t) {
      work := [];
    } else {
      var ev := NextWork(t, id);
      WorkShrinks(t, id);
      var rest := WorkFinishes(Handle(t, ev), id);
      work := [ev] + rest;
      HandleCons(t, ev, rest);
    }
  }

  /** A working step touches nothing but its own stream. */
  lemma WorkingStep(s: Server, ev: Event, id: nat)
    requires id in s.l2 && Working(ev, id)
    ensures Step(s, ev) == UpdateL2(s, id, Handle(s.l2[id], ev))
  {
  }

  lemma ReachSnoc(events: seq<Event>, ev: Event)
    ensures Reach(events + [ev]) == Step(Reach(events), ev)
    ensures LegalRun(events) && !ev.Ingest? ==> LegalRun(events + [ev])
  {
    assert (events + [ev])[..|events|] == events;
  }

  /** The work of one stream leaves the book, its history and the other streams as they were. */
  lemma {:induction false} WorkReaches(events: seq<Event>, work: seq<Event>, id: nat)
    requires LegalRun(events) && id in Reach(events).l2
    requires forall i :: 0 <= i < |work| ==> Working(work[i], id)
    ensures LegalRun(events + work)
    ensures Reach(events + work) == UpdateL2(Reach(events), id, HandleAll(Reach(events).l2[id], work))
    decreases |work|
  {
    var s := Reach(events);
    if work == [] {
      assert events + work == events;
      UpdateNothing(s, id);
    } else {
      var init, ev := work[..|work| - 1], work[|work| - 1];
      WorkReaches(events, init, id);
      SplitLast(events, work);
      WorkReachesOne(events + init, s, id, HandleAll(s.l2[id], init), ev);
    }
  }

  lemma SplitLast<T>(a: seq<T>, b: seq<T>)
    requires b != []
    ensures a + b == (a + b[..|b| - 1]) + [b[|b| - 1]]
  {
  }

  lemma UpdateNothing(s: Server, id: nat)
    requires id in s.l2
    ensures UpdateL2(s, id, s.l2[id]) == s
  {
    assert s.l2[id := s.l2[id]] == s.l2;
  }

  lemma WorkReachesOne(events: seq<Event>, s: Server, id: nat, t: L2Stream, ev: Event)
    requires LegalRun(events) && Reach(events) == UpdateL2(s, id, t) && Working(ev, id)
    ensures LegalRun(events + [ev]) && Reach(events + [ev]) == UpdateL2(s, id, Handle(t, ev))
  {
    UpdateTwice(s, id, t, Handle(t, ev));
    WorkingStep(Reach(events), ev, id);
    ReachSnoc(events, ev);
  }

  lemma UpdateTwice(s: Server, id: nat, a: L2Stream, b: L2Stream)
    ensures UpdateL2(UpdateL2(s, id, a), id, b) == UpdateL2(s, id, b) && UpdateL2(s, id, a).l2[id] == a
  {
    assert s.l2[id := a][id := b] == s.l2[id := b];
  }

  lemma StreamTidy(events: seq<Event>, id: nat)
    requires LegalRun(events) && id in Reach(events).l2
    ensures Tidy(Reach(events).l2[id])
  {
    RunStreamsOk(events);
    assert StreamOk(Reach(events).history, Reach(events).l2[id]);
  }

  /** Delivery: from every reachable state a client of an open stream, once its handler and it have done
      their work, holds the server's aggregate at the server's revision. */
  lemma ClientCatchesUp(events: seq<Event>, id: nat) returns (work: seq<Event>)
    requires LegalRun(events) && id in Reach(events).l2
    requires !Reach(events).l2[id].ended && !Reach(events).l2[id].queue.closed
    ensures forall i :: 0 <= i < |work| ==> Working(work[i], id)
    ensures id in Reach(events + work).l2
    ensures
      var s, client := Reach(events), Reach(events + work).l2[id].client;
      !client.stopped && client.last == Some(s.seqNo) && client.book == s.agg
  {
    StreamTidy(events, id);
    work := WorkFinishes(Reach(events).l2[id], id);
    WorkReaches(events, work, id);
    ReplicaIsAggregate(events + work, id, 0);
  }

  /** And the handler of a stream closed by an overflow ends it, with everything it wrote read. */
  lemma OverflownStreamEnds(events: seq<Event>, id: nat) returns (work: seq<Event>)
    requires LegalRun(events) && id in Reach(events).l2 && Reach(events).l2[id].queue.closed
    ensures forall i :: 0 <= i < |work| ==> Working(work[i], id)
    ensures id in Reach(events + work).l2
    ensures Reach(events + work).l2[id].ended && Reach(events + work).l2[id].channel == []
  {
    StreamTidy(events, id);
    work := WorkFinishes(Reach(events).l2[id], id);
    WorkReaches(events, work, id);
  }

  /** A cancelled call and a failed write end a stream that is waiting for either. */
  lemma FailuresEnd(t: L2Stream, id: nat)
    ensures t.wroteInitial && t.batch == [] ==> Handle(t, Cancel(id)).ended
    ensures t.wroteInitial && t.batch != [] ==> Handle(t, WriteNext(id, false)).ended
    ensures !t.wroteInitial ==> Handle(t, WriteInitial(id, false)).ended
  {
  }
}
