/** No event is lost silently: what became of every depth event fed in since the last reset. */
module Conservation {
  import opened Resync
  import Traces

  // ----- sequences -----

  lemma ConcatTail<T>(a: seq<T>, b: seq<T>)
    requires a != []
    ensures (a + b)[0] == a[0] && (a + b)[1..] == a[1..] + b
  {
  }

  lemma ConcatNothing<T>(a: seq<T>)
    ensures [] + a == a && a + [] == a
  {
  }

  lemma SplitLast<T>(a: seq<T>, b: seq<T>)
    requires b != []
    ensures a + b == (a + b[..|b| - 1]) + [b[|b| - 1]] && b == b[..|b| - 1] + [b[|b| - 1]]
  {
  }

  lemma ConsSlices<T>(x: T, rest: seq<T>, k: nat)
    requires 0 < k <= |rest| + 1
    ensures ([x] + rest)[k..] == rest[k - 1..] && ([x] + rest)[..k] == [x] + rest[..k - 1]
  {
  }

  lemma ConcatAssoc<T>(a: seq<T>, b: seq<T>, c: seq<T>)
    ensures a + (b + c) == (a + b) + c
  {
  }

  // ----- what went in and what came out -----

  /** The depth events of a run, in order of arrival. */
  function Fed(inputs: seq<Input>): seq<DepthUpdate> {
    if inputs == [] then []
    else
      var last := inputs[|inputs| - 1];
      Fed(inputs[..|inputs| - 1]) + (if last.Depth? then [last.update] else [])
  }

  /** The events a list of actions applies, in order. */
  function AppliedOf(actions: seq<Action>): seq<DepthUpdate> {
    if actions == [] then []
    else (if actions[0].ApplyDelta? then [actions[0].update] else []) + AppliedOf(actions[1..])
  }

  // ----- the ledger -----

  datatype Fate = Waiting | Applied | Dropped(snap: SnapshotMessage) | Skipped(snap: SnapshotMessage)

  datatype Entry = Entry(event: DepthUpdate, fate: Fate)

  function EventsOf(l: seq<Entry>): seq<DepthUpdate> {
    seq(|l|, i requires 0 <= i < |l| => l[i].event)
  }

  /** The events with this fate, in order of arrival. */
  function With(l: seq<Entry>, fate: Fate): seq<DepthUpdate> {
    if l == [] then [] else (if l[0].fate == fate then [l[0].event] else []) + With(l[1..], fate)
  }

  /** Dropped by the filter of a snapshot that arrived. */
  ghost predicate DropJustified(policy: SequencePolicy, inputs: seq<Input>, entry: Entry) {
    entry.fate.Dropped? ==>
      Snapshot(entry.fate.snap) in inputs && policy.shouldDropBuffered(entry.event, entry.fate.snap)
  }

  /** An event behind place i was applied as the bridge of this snapshot. */
  ghost predicate BridgedBehind(policy: SequencePolicy, l: seq<Entry>, i: nat, snap: SnapshotMessage) {
    exists j :: i < j < |l| && l[j].fate == Applied && policy.bridgesSnapshot(l[j].event, snap)
  }

  /** Passed over in front of a bridge that was taken. */
  ghost predicate SkipJustified(
      policy: SequencePolicy, inputs: seq<Input>, actions: seq<Action>, l: seq<Entry>, i: nat)
    requires i < |l|
  {
    l[i].fate.Skipped? ==>
      var snap := l[i].fate.snap;
      && Snapshot(snap) in inputs && ApplySnapshot(snap) in actions
      && !policy.bridgesSnapshot(l[i].event, snap) && BridgedBehind(policy, l, i, snap)
  }

  ghost predicate Justified(policy: SequencePolicy, inputs: seq<Input>, actions: seq<Action>, l: seq<Entry>) {
    forall i :: 0 <= i < |l| ==> DropJustified(policy, inputs, l[i]) && SkipJustified(policy, inputs, actions, l, i)
  }

  /** Every event fed in has one fate: the waiting ones are the buffer and the applied ones the deltas
      announced, each in order of arrival, and every other one has its reason. */
  ghost predicate Accounts(policy: SequencePolicy, inputs: seq<Input>, l: seq<Entry>) {
    var out := Run(policy, inputs);
    && EventsOf(l) == Fed(inputs)
    && With(l, Waiting) == out.sync.buffer
    && With(l, Applied) == AppliedOf(out.actions)
    && Justified(policy, inputs, out.actions, l)
  }

  // ----- changing fates -----

  /** Nothing applied behind something that still waits. */
  ghost predicate AppliedFirst(l: seq<Entry>) {
    forall i, j :: 0 <= i < j < |l| && l[i].fate == Waiting ==> l[j].fate != Applied
  }

  /** Only waiting entries changed, and only their fate. */
  ghost predicate Settles(l: seq<Entry>, l': seq<Entry>, fate: Fate) {
    && |l'| == |l|
    && (forall i :: 0 <= i < |l| ==> l'[i].event == l[i].event)
    && (forall i :: 0 <= i < |l| ==> l'[i] == l[i] || (l[i].fate == Waiting && l'[i].fate == fate))
  }

  lemma WithCons(e: Entry, rest: seq<Entry>, fate: Fate)
    ensures With([e] + rest, fate) == (if e.fate == fate then [e.event] else []) + With(rest, fate)
  {
    assert ([e] + rest)[1..] == rest;
  }

  lemma {:induction false} WithConcat(a: seq<Entry>, b: seq<Entry>, fate: Fate)
    ensures With(a + b, fate) == With(a, fate) + With(b, fate)
  {
    if a == [] {
      ConcatNothing(b);
      ConcatNothing(With(b, fate));
    } else {
      ConcatTail(a, b);
      WithConcat(a[1..], b, fate);
      ConcatAssoc(if a[0].fate == fate then [a[0].event] else [], With(a[1..], fate), With(b, fate));
    }
  }

  function DropOne(policy: SequencePolicy, e: Entry, snap: SnapshotMessage): Entry {
    if e.fate == Waiting && policy.shouldDropBuffered(e.event, snap) then e.(fate := Dropped(snap)) else e
  }

  /** What a snapshot's filter does to the waiting entries. */
  function DropCovered(policy: SequencePolicy, l: seq<Entry>, snap: SnapshotMessage): (l': seq<Entry>)
    ensures Settles(l, l', Dropped(snap))
    ensures forall i :: 0 <= i < |l| && l'[i] != l[i] ==> policy.shouldDropBuffered(l[i].event, snap)
  {
    if l == [] then [] else [DropOne(policy, l[0], snap)] + DropCovered(policy, l[1..], snap)
  }

  lemma {:induction false} DropCoveredFilters(policy: SequencePolicy, l: seq<Entry>, snap: SnapshotMessage)
    ensures With(DropCovered(policy, l, snap), Waiting) == Survivors(policy, With(l, Waiting), snap)
    ensures With(DropCovered(policy, l, snap), Applied) == With(l, Applied)
  {
    if l != [] {
      var e, rest := l[0], DropCovered(policy, l[1..], snap);
      DropCoveredFilters(policy, l[1..], snap);
      WithCons(DropOne(policy, e, snap), rest, Waiting);
      WithCons(DropOne(policy, e, snap), rest, Applied);
      var waiting := With(l[1..], Waiting);
      if e.fate == Waiting {
        assert With(l, Waiting) == [e.event] + waiting;
        SurvivorsCons(policy, e.event, waiting, snap);
      } else {
        assert With(l, Waiting) == waiting;
      }
    }
  }

  lemma SurvivorsCons(policy: SequencePolicy, e: DepthUpdate, rest: seq<DepthUpdate>, snap: SnapshotMessage)
    ensures Survivors(policy, [e] + rest, snap)
         == (if policy.shouldDropBuffered(e, snap) then [] else [e]) + Survivors(policy, rest, snap)
  {
    assert ([e] + rest)[1..] == rest;
  }

  /** The first k waiting entries get a fate. */
  function Mark(l: seq<Entry>, k: nat, fate: Fate): (l': seq<Entry>)
    ensures Settles(l, l', fate)
  {
    if l == [] || k == 0 then l
    else if l[0].fate == Waiting then [l[0].(fate := fate)] + Mark(l[1..], k - 1, fate)
    else [l[0]] + Mark(l[1..], k, fate)
  }

  lemma MarkTail(l: seq<Entry>, k: nat, fate: Fate)
    requires l != [] && k > 0
    ensures
      var waits := l[0].fate == Waiting;
      var first, rest := if waits then l[0].(fate := fate) else l[0], Mark(l[1..], if waits then k - 1 else k, fate);
      Mark(l, k, fate) == [first] + rest && Mark(l, k, fate)[1..] == rest
  {
  }

  /** Whatever still waits stands behind everything marked. */
  lemma {:induction false} MarkedInFront(l: seq<Entry>, k: nat, fate: Fate, i: nat, j: nat)
    requires i < |l| && j < |l| && k > 0 && fate != Waiting
    requires Mark(l, k, fate)[i] != l[i] && Mark(l, k, fate)[j].fate == Waiting
    ensures i < j
  {
    MarkTail(l, k, fate);
    if i > 0 && j > 0 {
      var m := if l[0].fate == Waiting then k - 1 else k;
      assert Mark(l[1..], m, fate)[i - 1] != l[1..][i - 1] && Mark(l[1..], m, fate)[j - 1].fate == Waiting;
      MarkedInFront(l[1..], m, fate, i - 1, j - 1);
    }
  }

  lemma MarkNothing(l: seq<Entry>, fate: Fate)
    ensures Mark(l, 0, fate) == l
  {
  }

  lemma {:induction false} MarkTakes(l: seq<Entry>, k: nat, fate: Fate)
    requires k <= |With(l, Waiting)| && fate != Waiting
    ensures With(Mark(l, k, fate), Waiting) == With(l, Waiting)[k..]
    ensures fate != Applied ==> With(Mark(l, k, fate), Applied) == With(l, Applied)
  {
    if l != [] && k > 0 {
      var waits, rest := l[0].fate == Waiting, l[1..];
      var m := if waits then k - 1 else k;
      MarkTakes(rest, m, fate);
      MarkTail(l, k, fate);
      MarkedHead(l[0], if waits then l[0].(fate := fate) else l[0], rest, Mark(rest, m, fate));
      assert l == [l[0]] + rest;
      if waits { ConsSlices(l[0].event, With(rest, Waiting), k); }
    }
  }

  lemma MarkedHead(e: Entry, first: Entry, rest: seq<Entry>, marked: seq<Entry>)
    ensures With([e] + rest, Waiting) == (if e.fate == Waiting then [e.event] else []) + With(rest, Waiting)
    ensures With([e] + rest, Applied) == (if e.fate == Applied then [e.event] else []) + With(rest, Applied)
    ensures With([first] + marked, Waiting) == (if first.fate == Waiting then [first.event] else []) + With(marked, Waiting)
    ensures With([first] + marked, Applied) == (if first.fate == Applied then [first.event] else []) + With(marked, Applied)
    ensures [] + With(rest, Waiting) == With(rest, Waiting) && [] + With(marked, Waiting) == With(marked, Waiting)
    ensures [] + With(rest, Applied) == With(rest, Applied) && [] + With(marked, Applied) == With(marked, Applied)
  {
    WithCons(e, rest, Waiting);
    WithCons(e, rest, Applied);
    WithCons(first, marked, Waiting);
    WithCons(first, marked, Applied);
  }

  lemma {:induction false} NoneApplied(l: seq<Entry>)
    requires forall i :: 0 <= i < |l| ==> l[i].fate != Applied
    ensures With(l, Applied) == []
  {
    if l != [] { NoneApplied(l[1..]); }
  }

  lemma {:induction false} MarkApplies(l: seq<Entry>, k: nat)
    requires k <= |With(l, Waiting)| && AppliedFirst(l)
    ensures With(Mark(l, k, Applied), Applied) == With(l, Applied) + With(l, Waiting)[..k]
  {
    if l != [] && k > 0 {
      var rest, waits := l[1..], l[0].fate == Waiting;
      var m := if waits then k - 1 else k;
      AppliedFirstTail(l);
      MarkApplies(rest, m);
      WithCons(if waits then l[0].(fate := Applied) else l[0], Mark(rest, m, Applied), Applied);
      if waits {
        NoneApplied(rest);
        assert With(l, Waiting)[..k] == [l[0].event] + With(rest, Waiting)[..k - 1];
      }
    }
  }

  lemma AppliedFirstTail(l: seq<Entry>)
    requires AppliedFirst(l) && l != []
    ensures AppliedFirst(l[1..])
    ensures l[0].fate == Waiting ==> forall i :: 0 <= i < |l[1..]| ==> l[1..][i].fate != Applied
  {
    assert forall i :: 0 <= i < |l[1..]| ==> l[1..][i] == l[i + 1];
  }

  /** The first waiting entry. */
  lemma {:induction false} FirstWaiting(l: seq<Entry>) returns (j: nat)
    requires With(l, Waiting) != []
    ensures j < |l| && l[j].fate == Waiting && l[j].event == With(l, Waiting)[0]
    ensures forall i :: 0 <= i < j ==> l[i].fate != Waiting
  {
    if l[0].fate == Waiting {
      j := 0;
    } else {
      var k := FirstWaiting(l[1..]);
      j := k + 1;
    }
  }

  lemma {:induction false} MarkReaches(l: seq<Entry>, k: nat, fate: Fate, j: nat)
    requires j < |l| && l[j].fate == Waiting && k > 0
    requires forall i :: 0 <= i < j ==> l[i].fate != Waiting
    ensures Mark(l, k, fate)[j].fate == fate
  {
    if j > 0 {
      MarkReaches(l[1..], k, fate, j - 1);
    }
  }

  lemma {:induction false} MarkedAreFirst(l: seq<Entry>, k: nat, fate: Fate, i: nat) returns (q: nat)
    requires i < |l| && k <= |With(l, Waiting)| && Mark(l, k, fate)[i] != l[i]
    ensures q < k && With(l, Waiting)[q] == l[i].event
  {
    if i == 0 {
      q := 0;
    } else {
      var waits := l[0].fate == Waiting;
      var r := MarkedAreFirst(l[1..], if waits then k - 1 else k, fate, i - 1);
      q := if waits then r + 1 else r;
    }
  }

  // ----- reasons stay -----

  lemma JustifiedLonger(
      policy: SequencePolicy, inputs: seq<Input>, input: Input, actions: seq<Action>, more: seq<Action>, l: seq<Entry>)
    requires Justified(policy, inputs, actions, l)
    ensures Justified(policy, inputs + [input], actions + more, l)
  {
    forall i | 0 <= i < |l|
      ensures DropJustified(policy, inputs + [input], l[i]) && SkipJustified(policy, inputs + [input], actions + more, l, i)
    {
      assert DropJustified(policy, inputs, l[i]) && SkipJustified(policy, inputs, actions, l, i);
    }
  }

  lemma BridgedBehindKept(policy: SequencePolicy, l: seq<Entry>, l': seq<Entry>, i: nat, snap: SnapshotMessage)
    requires BridgedBehind(policy, l, i, snap) && |l| <= |l'|
    requires forall j :: 0 <= j < |l| && l[j].fate == Applied ==> l'[j] == l[j]
    ensures BridgedBehind(policy, l', i, snap)
  {
    var j :| i < j < |l| && l[j].fate == Applied && policy.bridgesSnapshot(l[j].event, snap);
    assert l'[j] == l[j];
  }

  lemma JustifiedSnoc(policy: SequencePolicy, inputs: seq<Input>, actions: seq<Action>, l: seq<Entry>, e: Entry)
    requires Justified(policy, inputs, actions, l) && (e.fate == Waiting || e.fate == Applied)
    ensures Justified(policy, inputs, actions, l + [e])
  {
    var l' := l + [e];
    forall i | 0 <= i < |l'|
      ensures DropJustified(policy, inputs, l'[i]) && SkipJustified(policy, inputs, actions, l', i)
    {
      if i < |l| {
        assert DropJustified(policy, inputs, l[i]) && SkipJustified(policy, inputs, actions, l, i);
        if l[i].fate.Skipped? { BridgedBehindKept(policy, l, l', i, l[i].fate.snap); }
      }
    }
  }

  lemma JustifiedDropped(
      policy: SequencePolicy, inputs: seq<Input>, actions: seq<Action>, l: seq<Entry>, snap: SnapshotMessage)
    requires Justified(policy, inputs, actions, l) && Snapshot(snap) in inputs
    ensures Justified(policy, inputs, actions, DropCovered(policy, l, snap))
  {
    var l' := DropCovered(policy, l, snap);
    forall i | 0 <= i < |l'|
      ensures DropJustified(policy, inputs, l'[i]) && SkipJustified(policy, inputs, actions, l', i)
    {
      assert DropJustified(policy, inputs, l[i]) && SkipJustified(policy, inputs, actions, l, i);
      if l'[i] == l[i] && l[i].fate.Skipped? { BridgedBehindKept(policy, l, l', i, l[i].fate.snap); }
    }
  }

  /** The waiting entries in front of the bridge are passed over, the run from it on is applied. */
  function Replayed(l: seq<Entry>, b: nat, n: nat, snap: SnapshotMessage): seq<Entry> {
    Mark(Mark(l, b, Skipped(snap)), n, Applied)
  }

  /** The bridge stands behind everything passed over for it. */
  lemma BridgeBehindSkipped(policy: SequencePolicy, l: seq<Entry>, b: nat, n: nat, snap: SnapshotMessage, i: nat)
    requires b < |With(l, Waiting)| && n > 0 && policy.bridgesSnapshot(With(l, Waiting)[b], snap)
    requires i < |l| && Mark(l, b, Skipped(snap))[i] != l[i]
    ensures BridgedBehind(policy, Replayed(l, b, n, snap), i, snap)
  {
    var l1 := Mark(l, b, Skipped(snap));
    MarkTakes(l, b, Skipped(snap));
    MarkNothing(l, Skipped(snap));
    var j := FirstWaiting(l1);
    MarkedInFront(l, b, Skipped(snap), i, j);
    MarkReaches(l1, n, Applied, j);
    assert Replayed(l, b, n, snap)[j].fate == Applied;
  }

  lemma JustifiedReplayed(
      policy: SequencePolicy, inputs: seq<Input>, actions: seq<Action>, l: seq<Entry>, b: nat, n: nat, snap: SnapshotMessage)
    requires Justified(policy, inputs, actions, l) && Snapshot(snap) in inputs && ApplySnapshot(snap) in actions
    requires b < |With(l, Waiting)| && n > 0 && policy.bridgesSnapshot(With(l, Waiting)[b], snap)
    requires forall q :: 0 <= q < b ==> !policy.bridgesSnapshot(With(l, Waiting)[q], snap)
    ensures Justified(policy, inputs, actions, Replayed(l, b, n, snap))
  {
    var l1, l' := Mark(l, b, Skipped(snap)), Replayed(l, b, n, snap);
    forall i | 0 <= i < |l'|
      ensures DropJustified(policy, inputs, l'[i]) && SkipJustified(policy, inputs, actions, l', i)
    {
      assert DropJustified(policy, inputs, l[i]) && SkipJustified(policy, inputs, actions, l, i);
      if l1[i] != l[i] {
        var q := MarkedAreFirst(l, b, Skipped(snap), i);
        BridgeBehindSkipped(policy, l, b, n, snap, i);
      } else if l'[i] == l[i] && l[i].fate.Skipped? {
        BridgedBehindKept(policy, l, l', i, l[i].fate.snap);
      }
    }
  }

  // ----- one call at a time -----

  lemma {:induction false} AppliedOfConcat(a: seq<Action>, b: seq<Action>)
    ensures AppliedOf(a + b) == AppliedOf(a) + AppliedOf(b)
  {
    if a == [] {
      ConcatNothing(b);
      ConcatNothing(AppliedOf(b));
    } else {
      ConcatTail(a, b);
      AppliedOfConcat(a[1..], b);
      ConcatAssoc(if a[0].ApplyDelta? then [a[0].update] else [], AppliedOf(a[1..]), AppliedOf(b));
    }
  }

  lemma {:induction false} AppliedOfDeltas(events: seq<DepthUpdate>)
    ensures AppliedOf(Deltas(events)) == events
  {
    if events != [] {
      assert Deltas(events)[1..] == Deltas(events[1..]);
      AppliedOfDeltas(events[1..]);
    }
  }

  lemma AppliedOfOne(a: Action)
    ensures AppliedOf([a]) == if a.ApplyDelta? then [a.update] else []
  {
    assert [a][1..] == [];
  }

  lemma RunSnoc(policy: SequencePolicy, inputs: seq<Input>, input: Input)
    ensures
      var before := Run(policy, inputs);
      var out := Step(policy, before.sync, input);
      Run(policy, inputs + [input]) == Outcome(out.sync, before.actions + out.actions)
    ensures Fed(inputs + [input]) == Fed(inputs) + (if input.Depth? then [input.update] else [])
  {
    assert (inputs + [input])[..|inputs|] == inputs;
  }

  lemma {:induction false} NoneWaiting(l: seq<Entry>)
    requires With(l, Waiting) == []
    ensures forall i :: 0 <= i < |l| ==> l[i].fate != Waiting
  {
    if l != [] {
      NoneWaiting(l[1..]);
      assert forall i :: 0 < i < |l| ==> l[i] == l[1..][i - 1];
    }
  }

  lemma SettledEvents(l: seq<Entry>, l': seq<Entry>)
    requires |l| == |l'| && forall i :: 0 <= i < |l| ==> l'[i].event == l[i].event
    ensures EventsOf(l') == EventsOf(l)
  {
  }

  lemma MarkAppliedFirst(l: seq<Entry>, k: nat, fate: Fate)
    requires AppliedFirst(l) && fate != Waiting
    ensures AppliedFirst(Mark(l, k, fate))
  {
    var l' := Mark(l, k, fate);
    forall i, j | 0 <= i < j < |l'| && l'[i].fate == Waiting
      ensures l'[j].fate != Applied
    {
      MarkNothing(l, fate);
      if l'[j] != l[j] { MarkedInFront(l, k, fate, j, i); }
    }
  }

  /** Putting one call's ledger together with the run before it. */
  lemma AccountsSnoc(policy: SequencePolicy, inputs: seq<Input>, input: Input, l: seq<Entry>, l': seq<Entry>)
    requires EventsOf(l') == Fed(inputs) + (if input.Depth? then [input.update] else [])
    requires With(l, Applied) == AppliedOf(Run(policy, inputs).actions)
    requires
      var before := Run(policy, inputs);
      var out := Step(policy, before.sync, input);
      && With(l', Waiting) == out.sync.buffer && With(l', Applied) == With(l, Applied) + AppliedOf(out.actions)
      && Justified(policy, inputs + [input], before.actions + out.actions, l')
    ensures Accounts(policy, inputs + [input], l')
  {
    var before := Run(policy, inputs);
    RunSnoc(policy, inputs, input);
    AppliedOfConcat(before.actions, Step(policy, before.sync, input).actions);
  }

  function FateOf(policy: SequencePolicy, s: Sync, e: DepthUpdate): Fate {
    if s.live && policy.isContiguous(e, s.lastFinalId) then Applied else Waiting
  }

  lemma DepthOutcome(policy: SequencePolicy, s: Sync, e: DepthUpdate)
    requires s.live ==> s.buffer == []
    ensures
      var out := Step(policy, s, Depth(e));
      && out.sync.buffer == s.buffer + (if FateOf(policy, s, e) == Waiting then [e] else [])
      && AppliedOf(out.actions) == (if FateOf(policy, s, e) == Applied then [e] else [])
  {
    AppliedOfOne(ApplyDelta(e));
    AppliedOfOne(InvalidateVenue);
    assert [] + [e] == [e];
  }

  lemma EventsSnoc(l: seq<Entry>, e: Entry)
    ensures EventsOf(l + [e]) == EventsOf(l) + [e.event]
  {
  }

  /** The new entry at the end of the ledger. */
  lemma DepthLedger(policy: SequencePolicy, s: Sync, e: DepthUpdate, l: seq<Entry>)
    requires (s.live ==> s.buffer == []) && With(l, Waiting) == s.buffer && AppliedFirst(l)
    ensures
      var l', out := l + [Entry(e, FateOf(policy, s, e))], Step(policy, s, Depth(e));
      && EventsOf(l') == EventsOf(l) + [e] && AppliedFirst(l')
      && With(l', Waiting) == out.sync.buffer && With(l', Applied) == With(l, Applied) + AppliedOf(out.actions)
  {
    DepthOutcome(policy, s, e);
    EventsSnoc(l, Entry(e, FateOf(policy, s, e)));
    LedgerSnoc(l, Entry(e, FateOf(policy, s, e)));
    if s.live { NoneWaiting(l); }
  }

  /** A depth event: applied if it continues a Live book, else it waits. */
  lemma DepthAccounts(policy: SequencePolicy, inputs: seq<Input>, e: DepthUpdate, l: seq<Entry>) returns (l': seq<Entry>)
    requires Accounts(policy, inputs, l) && AppliedFirst(l)
    ensures Accounts(policy, inputs + [Depth(e)], l') && AppliedFirst(l')
  {
    var before := Run(policy, inputs);
    var out := Step(policy, before.sync, Depth(e));
    var entry := Entry(e, FateOf(policy, before.sync, e));
    l' := l + [entry];
    Traces.RunAccepted(policy, inputs);
    DepthLedger(policy, before.sync, e, l);
    JustifiedLonger(policy, inputs, Depth(e), before.actions, out.actions, l);
    JustifiedSnoc(policy, inputs + [Depth(e)], before.actions + out.actions, l, entry);
    AccountsSnoc(policy, inputs, Depth(e), l, l');
  }

  lemma LedgerSnoc(l: seq<Entry>, e: Entry)
    ensures With(l + [e], Waiting) == With(l, Waiting) + (if e.fate == Waiting then [e.event] else [])
    ensures With(l + [e], Applied) == With(l, Applied) + (if e.fate == Applied then [e.event] else [])
  {
    WithConcat(l, [e], Waiting);
    WithConcat(l, [e], Applied);
    assert [e][1..] == [];
  }

  /** What a snapshot does to the ledger, before it is written as a run. */
  ghost predicate SnapshotLedger(
      policy: SequencePolicy, s: Sync, snap: SnapshotMessage, l: seq<Entry>, l': seq<Entry>)
  {
    var out := Step(policy, s, Snapshot(snap));
    && EventsOf(l') == EventsOf(l) && AppliedFirst(l')
    && With(l', Waiting) == out.sync.buffer
    && With(l', Applied) == With(l, Applied) + AppliedOf(out.actions)
  }

  lemma BridgedLedger(policy: SequencePolicy, s: Sync, snap: SnapshotMessage, l: seq<Entry>, b: nat)
    requires With(l, Waiting) == Survivors(policy, s.buffer, snap) && AppliedFirst(l)
    requires b == BridgeIndex(policy, With(l, Waiting), snap) < |With(l, Waiting)|
    ensures
      var n := RunLength(policy, With(l, Waiting)[b..]);
      SnapshotLedger(policy, s, snap, l, Replayed(l, b, n, snap))
  {
    var kept := With(l, Waiting);
    var tail := kept[b..];
    var n := RunLength(policy, tail);
    var l1 := Mark(l, b, Skipped(snap));
    MarkTakes(l, b, Skipped(snap));
    MarkAppliedFirst(l, b, Skipped(snap));
    MarkTakes(l1, n, Applied);
    MarkApplies(l1, n);
    MarkAppliedFirst(l1, n, Applied);
    SettledEvents(l, Replayed(l, b, n, snap));
    ReplayApplies(policy, s, snap, tail);
  }

  lemma ReplayApplies(policy: SequencePolicy, s: Sync, snap: SnapshotMessage, tail: seq<DepthUpdate>)
    requires tail != []
    ensures AppliedOf(Replay(policy, s, snap, tail).actions) == tail[..RunLength(policy, tail)]
    ensures Replay(policy, s, snap, tail).sync.buffer == tail[RunLength(policy, tail)..]
  {
    var run := tail[..RunLength(policy, tail)];
    AppliedOfOne(ApplySnapshot(snap));
    AppliedOfDeltas(run);
    AppliedOfConcat([ApplySnapshot(snap)], Deltas(run));
    AppliedOfOne(InvalidateVenue);
    AppliedOfConcat([ApplySnapshot(snap)] + Deltas(run), [InvalidateVenue]);
  }

  lemma UnbridgedLedger(policy: SequencePolicy, s: Sync, snap: SnapshotMessage, l: seq<Entry>)
    requires With(l, Waiting) == Survivors(policy, s.buffer, snap) && AppliedFirst(l)
    requires BridgeIndex(policy, With(l, Waiting), snap) == |With(l, Waiting)|
    ensures SnapshotLedger(policy, s, snap, l, l)
  {
    AppliedOfOne(RequestSnapshot);
    AppliedOfOne(ApplySnapshot(snap));
    AppliedOfOne(InvalidateVenue);
  }

  /** A snapshot: its filter drops, its bridge passes over what stands in front, its run is applied. */
  lemma SnapshotAccounts(policy: SequencePolicy, inputs: seq<Input>, snap: SnapshotMessage, l: seq<Entry>)
    returns (l': seq<Entry>)
    requires Accounts(policy, inputs, l) && AppliedFirst(l)
    ensures Accounts(policy, inputs + [Snapshot(snap)], l') && AppliedFirst(l')
  {
    var before, all := Run(policy, inputs), inputs + [Snapshot(snap)];
    var out := Step(policy, before.sync, Snapshot(snap));
    var actions := before.actions + out.actions;
    var l1 := DropCovered(policy, l, snap);
    assert Snapshot(snap) in all;
    SettledEvents(l, l1);
    DropCoveredFilters(policy, l, snap);
    JustifiedLonger(policy, inputs, Snapshot(snap), before.actions, out.actions, l);
    JustifiedDropped(policy, all, actions, l, snap);
    l' := ReplayLedger(policy, before.sync, snap, l1, all, before.actions);
    AccountsSnoc(policy, inputs, Snapshot(snap), l, l');
  }

  /** Bridged or not, what the snapshot does to what its filter kept. */
  lemma ReplayLedger(
      policy: SequencePolicy, s: Sync, snap: SnapshotMessage, l: seq<Entry>, all: seq<Input>, earlier: seq<Action>)
    returns (l': seq<Entry>)
    requires With(l, Waiting) == Survivors(policy, s.buffer, snap) && AppliedFirst(l) && Snapshot(snap) in all
    requires Justified(policy, all, earlier + Step(policy, s, Snapshot(snap)).actions, l)
    ensures SnapshotLedger(policy, s, snap, l, l')
    ensures Justified(policy, all, earlier + Step(policy, s, Snapshot(snap)).actions, l')
  {
    var out := Step(policy, s, Snapshot(snap));
    var kept := With(l, Waiting);
    var b := BridgeIndex(policy, kept, snap);
    if b < |kept| {
      var n := RunLength(policy, kept[b..]);
      l' := Replayed(l, b, n, snap);
      BridgedLedger(policy, s, snap, l, b);
      assert out.actions[0] == ApplySnapshot(snap) && out.actions[0] in earlier + out.actions;
      JustifiedReplayed(policy, all, earlier + out.actions, l, b, n, snap);
    } else {
      l' := l;
      UnbridgedLedger(policy, s, snap, l);
    }
  }

  // ----- runs -----

  /** Conservation: over every run of every policy since the last reset, every event fed in was
      applied, dropped by a snapshot's filter, passed over in front of a bridge that was taken, or is
      still in the buffer; the applied ones and the buffered ones in their order of arrival. */
  lemma {:induction false} EventsConserved(policy: SequencePolicy, inputs: seq<Input>) returns (l: seq<Entry>)
    requires Disconnected !in inputs
    ensures Accounts(policy, inputs, l) && AppliedFirst(l)
    decreases |inputs|
  {
    if inputs == [] {
      l := [];
    } else {
      var init, last := inputs[..|inputs| - 1], inputs[|inputs| - 1];
      assert inputs == init + [last];
      var l0 := EventsConserved(policy, init);
      match last
      case Depth(e) => l := DepthAccounts(policy, init, e, l0);
      case Snapshot(snap) => l := SnapshotAccounts(policy, init, snap, l0);
      case Connected =>
        l := l0;
        ConnectedAccounts(policy, init, l0);
    }
  }

  lemma ConnectedAccounts(policy: SequencePolicy, inputs: seq<Input>, l: seq<Entry>)
    requires Accounts(policy, inputs, l)
    ensures Accounts(policy, inputs + [Connected], l)
  {
    var before := Run(policy, inputs);
    var out := Step(policy, before.sync, Connected);
    RunSnoc(policy, inputs, Connected);
    AppliedOfConcat(before.actions, out.actions);
    AppliedOfOne(RequestSnapshot);
    JustifiedLonger(policy, inputs, Connected, before.actions, out.actions, l);
  }

  /** A disconnect forgets everything before it, so the law holds from each reset on. */
  lemma {:induction false} ResetForgets(policy: SequencePolicy, before: seq<Input>, inputs: seq<Input>)
    ensures
      var reset := Run(policy, before + [Disconnected]);
      Run(policy, before + [Disconnected] + inputs)
        == Outcome(Run(policy, inputs).sync, reset.actions + Run(policy, inputs).actions)
    decreases |inputs|
  {
    var reset := before + [Disconnected];
    RunSnoc(policy, before, Disconnected);
    if inputs == [] {
      assert reset + inputs == reset;
    } else {
      var init, last := inputs[..|inputs| - 1], inputs[|inputs| - 1];
      SplitLast(reset, inputs);
      ResetForgets(policy, before, init);
      RunSnoc(policy, reset + init, last);
      RunSnoc(policy, init, last);
      ConcatAssoc(Run(policy, reset).actions, Run(policy, init).actions,
                  Step(policy, Run(policy, init).sync, last).actions);
    }
  }
}
