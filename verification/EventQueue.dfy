/** The buffer of batch events when one caller runs at a time: full batches go to a serial queue of tasks, and events are
    uploaded in the order they arrived. */
module EventQueue {
  import opened Common
  import EventBuffers

  /** Events uploaded, events of the queued tasks in their order, events in the buffer, and the batches dropped for lack
      of tasks or of a queue. */
  datatype Line<Event> = Line(uploaded: seq<Event>, queue: seq<seq<Event>>, buffer: seq<Event>,
                              discarded: seq<seq<Event>>)

  function Flat<Event>(queue: seq<seq<Event>>): seq<Event> {
    if queue == [] then [] else Flat(queue[..|queue| - 1]) + queue[|queue| - 1]
  }

  /** Everything that is not discarded, in the order in which it is or will be uploaded. */
  function InLine<Event>(l: Line<Event>): seq<Event> {
    l.uploaded + Flat(l.queue) + l.buffer
  }

  function Given<Event>(l: Line<Event>, event: Event, open: bool, maxTasks: nat): Line<Event> {
    var more := l.buffer + [event];
    if |more| < EventBuffers.MAX_CACHE_NOTIFY_EVENT_SIZE then l.(buffer := more)
    else if |l.queue| > maxTasks || !open then l.(buffer := [], discarded := l.discarded + [more])
    else l.(buffer := [], queue := l.queue + [more])
  }

  function Ran<Event>(l: Line<Event>): Line<Event>
    requires l.queue != []
  {
    l.(uploaded := l.uploaded + l.queue[0], queue := l.queue[1..])
  }

  function Flushed<Event>(l: Line<Event>): Line<Event> {
    l.(uploaded := l.uploaded + l.buffer, buffer := [])
  }

  class NotifyBuffer<Event> {
    var notifyEvents: seq<Event>
    var queue: seq<seq<Event>>
    var taskCount: nat
    var uploaded: seq<Event>
    ghost var discarded: seq<seq<Event>>

    ghost predicate Valid()
      reads this
    {
      |notifyEvents| < EventBuffers.MAX_CACHE_NOTIFY_EVENT_SIZE && taskCount == |queue|
    }

    ghost function State(): Line<Event>
      reads this
    {
      Line(uploaded, queue, notifyEvents, discarded)
    }

    constructor ()
      ensures Valid() && State() == Line([], [], [], [])
    {
      notifyEvents, queue, taskCount, uploaded, discarded := [], [], 0, [], [];
    }

    method BatchUploadEvent(event: Event, open: bool, maxTasks: nat)
      requires Valid()
      modifies this
      ensures Valid() && State() == Given(old(State()), event, open, maxTasks)
    {
      var tmp := [];
      notifyEvents := notifyEvents + [event];
      if |notifyEvents| < EventBuffers.MAX_CACHE_NOTIFY_EVENT_SIZE {
        return;
      }
      tmp, notifyEvents := notifyEvents, tmp;
      if taskCount > maxTasks || !open {
        discarded := discarded + [tmp];
        return;
      }
      queue := queue + [tmp];
      taskCount := taskCount + 1;
    }

    /** The serial queue runs its first task: one upload after the other, then the counter. */
    method RunTask()
      requires Valid() && queue != []
      modifies this
      ensures Valid() && State() == Ran(old(State()))
    {
      var tmp := queue[0];
      for i := 0 to |tmp|
        invariant uploaded == old(uploaded) + tmp[..i]
        invariant queue == old(queue) && notifyEvents == old(notifyEvents) && discarded == old(discarded)
        invariant taskCount == old(taskCount)
      {
        OneMore(tmp, i);
        Regrouped(old(uploaded), tmp[..i], [tmp[i]]);
        uploaded := uploaded + [tmp[i]];
      }
      Whole(tmp);
      queue := queue[1..];
      taskCount := taskCount - 1;
    }

    method ClearEventCache()
      requires Valid()
      modifies this
      ensures Valid() && State() == Flushed(old(State()))
    {
      var notifyTmp := [];
      notifyTmp, notifyEvents := notifyEvents, notifyTmp;
      for i := 0 to |notifyTmp|
        invariant uploaded == old(uploaded) + notifyTmp[..i]
        invariant queue == old(queue) && notifyEvents == [] && discarded == old(discarded)
        invariant taskCount == old(taskCount)
      {
        OneMore(notifyTmp, i);
        Regrouped(old(uploaded), notifyTmp[..i], [notifyTmp[i]]);
        uploaded := uploaded + [notifyTmp[i]];
      }
      Whole(notifyTmp);
    }
  }

  // ---------------------------------------------------------------- runs

  datatype Operation = Give(open: bool) | RunTask | Flush

  /** Events are numbered by arrival. */
  datatype State = State(given: nat, line: Line<nat>)

  const START := State(0, Line([], [], [], []))

  function Next(s: State, op: Operation, maxTasks: nat): State {
    match op
    case Give(open) => State(s.given + 1, Given(s.line, s.given, open, maxTasks))
    case RunTask => if s.line.queue == [] then s else s.(line := Ran(s.line))
    case Flush => s.(line := Flushed(s.line))
  }

  function After(ops: seq<Operation>, maxTasks: nat): State {
    if ops == [] then START else Next(After(ops[..|ops| - 1], maxTasks), ops[|ops| - 1], maxTasks)
  }

  /** The arrivals from 0 below `n`, in order, without those in `dropped`. */
  function Kept(n: nat, dropped: set<nat>): seq<nat> {
    if n == 0 then [] else Kept(n - 1, dropped) + if n - 1 in dropped then [] else [n - 1]
  }

  function Dropped(batches: seq<seq<nat>>): set<nat> {
    Elements(Flat(batches))
  }

  /** A batch of ten consecutive arrivals. */
  predicate WholeBatch(batch: seq<nat>) {
    batch != [] && batch == From(batch[0], EventBuffers.MAX_CACHE_NOTIFY_EVENT_SIZE)
  }

  /** The line is all arrivals in order but for whole discarded batches, and the buffer the latest of them. */
  ghost predicate Orderly(s: State) {
    && InLine(s.line) == Kept(s.given, Dropped(s.line.discarded))
    && |s.line.buffer| < EventBuffers.MAX_CACHE_NOTIFY_EVENT_SIZE && |s.line.buffer| <= s.given
    && s.line.buffer == From(s.given - |s.line.buffer|, |s.line.buffer|)
    && (forall x :: x in Dropped(s.line.discarded) ==> x < s.given - |s.line.buffer|)
    && (forall i :: 0 <= i < |s.line.discarded| ==> WholeBatch(s.line.discarded[i]))
  }

  lemma {:induction false} FlatSnoc<Event>(queue: seq<seq<Event>>, batch: seq<Event>)
    ensures Flat(queue + [batch]) == Flat(queue) + batch
  {
    assert (queue + [batch])[..|queue|] == queue;
  }

  lemma {:induction false} FlatCons<Event>(queue: seq<seq<Event>>)
    requires queue != []
    ensures Flat(queue) == queue[0] + Flat(queue[1..])
  {
    var n := |queue| - 1;
    if n == 0 {
      assert queue[..0] == [] && queue[1..] == [];
      assert Flat(queue[..0]) == [];
    } else {
      var middle := Middle(queue);
      FlatCons(queue[..n]);
      Regrouped(queue[0], Flat(middle), queue[n]);
    }
  }

  lemma {:induction false} KeptBelow(n: nat, dropped: set<nat>, more: set<nat>)
    requires forall x :: x in more ==> n <= x
    ensures Kept(n, dropped + more) == Kept(n, dropped)
  {
    if n > 0 {
      KeptBelow(n - 1, dropped, more);
    }
  }

  /** The last `k` arrivals, none of them dropped, are the end of what is kept. */
  lemma {:induction false} KeptEnds(n: nat, k: nat, dropped: set<nat>)
    requires k <= n && forall x :: x in dropped ==> x < n - k
    ensures Kept(n, dropped) == Kept(n - k, dropped) + From(n - k, k)
  {
    if k > 0 {
      KeptEnds(n - 1, k - 1, dropped);
      assert From(n - k, k) == From(n - k, k - 1) + [n - 1];
    }
  }

  lemma {:induction false} KeptWithoutEnd(n: nat, k: nat, dropped: set<nat>, gone: set<nat>)
    requires k <= n && gone == Elements(From(n - k, k))
    ensures Kept(n, dropped + gone) == Kept(n - k, dropped)
  {
    forall x | n - k <= x < n
      ensures x in gone
    {
      assert From(n - k, k)[x - (n - k)] == x;
    }
    KeptBelow(n - k, dropped, gone);
    AllGone(n, k, dropped + gone);
  }

  lemma {:induction false} AllGone(n: nat, k: nat, dropped: set<nat>)
    requires k <= n && forall x :: n - k <= x < n ==> x in dropped
    ensures Kept(n, dropped) == Kept(n - k, dropped)
  {
    if k > 0 {
      AllGone(n - 1, k - 1, dropped);
    }
  }

  /** What stands before the buffer is all that is kept of the arrivals before it. */
  lemma BeforeTheBuffer(s: State)
    requires Orderly(s)
    ensures s.line.uploaded + Flat(s.line.queue) == Kept(s.given - |s.line.buffer|, Dropped(s.line.discarded))
  {
    var l, k := s.line, |s.line.buffer|;
    var kept := Kept(s.given, Dropped(l.discarded));
    KeptEnds(s.given, k, Dropped(l.discarded));
    assert kept[..|kept| - k] == Kept(s.given - k, Dropped(l.discarded));
    assert InLine(l)[..|InLine(l)| - k] == l.uploaded + Flat(l.queue);
  }

  lemma GiveOrderly(s: State, open: bool, maxTasks: nat)
    requires Orderly(s)
    ensures Orderly(Next(s, Give(open), maxTasks))
  {
    var l, k := s.line, |s.line.buffer|;
    var more := l.buffer + [s.given];
    assert more == From(s.given - k, k + 1);
    BeforeTheBuffer(s);
    KeptEnds(s.given + 1, k + 1, Dropped(l.discarded));
    Regrouped(l.uploaded, Flat(l.queue), more);
    if |more| == EventBuffers.MAX_CACHE_NOTIFY_EVENT_SIZE {
      if |l.queue| > maxTasks || !open {
        DiscardOrderly(s, more, open, maxTasks);
      } else {
        FlatSnoc(l.queue, more);
      }
    }
  }

  lemma DroppedSnoc(batches: seq<seq<nat>>, batch: seq<nat>)
    ensures Dropped(batches + [batch]) == Dropped(batches) + Elements(batch)
  {
    FlatSnoc(batches, batch);
  }

  lemma DiscardOrderly(s: State, more: seq<nat>, open: bool, maxTasks: nat)
    requires Orderly(s) && more == s.line.buffer + [s.given] && |more| == EventBuffers.MAX_CACHE_NOTIFY_EVENT_SIZE
    requires more == From(s.given - |s.line.buffer|, |more|) && (|s.line.queue| > maxTasks || !open)
    requires s.line.uploaded + Flat(s.line.queue) == Kept(s.given - |s.line.buffer|, Dropped(s.line.discarded))
    ensures Orderly(Next(s, Give(open), maxTasks))
  {
    var l := s.line;
    var discarded := l.discarded + [more];
    assert WholeBatch(more);
    DroppedSnoc(l.discarded, more);
    KeptWithoutEnd(s.given + 1, |more|, Dropped(l.discarded), Elements(more));
    forall x | x in Dropped(discarded)
      ensures x <= s.given
    {
      assert x in Dropped(l.discarded) || x in more;
    }
    EmptiedOrderly(s.given + 1, l.(buffer := [], discarded := discarded));
  }

  lemma EmptiedOrderly(n: nat, l: Line<nat>)
    requires l.buffer == [] && l.uploaded + Flat(l.queue) == Kept(n, Dropped(l.discarded))
    requires forall x :: x in Dropped(l.discarded) ==> x < n
    requires forall i :: 0 <= i < |l.discarded| ==> WholeBatch(l.discarded[i])
    ensures Orderly(State(n, l))
  {
    assert InLine(l) == l.uploaded + Flat(l.queue);
  }

  lemma RunTaskOrderly(s: State, maxTasks: nat)
    requires Orderly(s)
    ensures Orderly(Next(s, RunTask, maxTasks))
  {
    if s.line.queue != [] {
      FlatCons(s.line.queue);
      Regrouped(s.line.uploaded, s.line.queue[0], Flat(s.line.queue[1..]));
    }
  }

  /** The flush does not overtake: nothing is queued, or nothing is buffered. */
  predicate Drained(l: Line<nat>) {
    l.queue == [] || l.buffer == []
  }

  lemma FlushOrderly(s: State, maxTasks: nat)
    requires Orderly(s) && Drained(s.line)
    ensures Orderly(Next(s, Flush, maxTasks))
  {
    var l := s.line;
    if l.queue == [] {
      assert l.uploaded + Flat(l.queue) == l.uploaded;
      assert InLine(Flushed(l)) == l.uploaded + l.buffer;
    } else {
      assert Flushed(l) == l by {
        assert l.uploaded + [] == l.uploaded;
      }
    }
  }

  ghost predicate FlushesDrained(ops: seq<Operation>, maxTasks: nat) {
    ops == [] ||
    (FlushesDrained(ops[..|ops| - 1], maxTasks) &&
     (ops[|ops| - 1].Flush? ==> Drained(After(ops[..|ops| - 1], maxTasks).line)))
  }

  /** Over every sequential run whose flushes find no queued task (or nothing to flush): the uploaded, queued and buffered
      events together are the arrivals in order, but for whole discarded batches of ten consecutive arrivals. */
  lemma {:induction false} BatchesKeepArrivalOrder(ops: seq<Operation>, maxTasks: nat)
    requires FlushesDrained(ops, maxTasks)
    ensures Orderly(After(ops, maxTasks))
  {
    if ops == [] {
      assert Dropped([]) == {};
    } else {
      var s := After(ops[..|ops| - 1], maxTasks);
      BatchesKeepArrivalOrder(ops[..|ops| - 1], maxTasks);
      match ops[|ops| - 1]
      case Give(open) => GiveOrderly(s, open, maxTasks);
      case RunTask => RunTaskOrderly(s, maxTasks);
      case Flush => FlushOrderly(s, maxTasks);
    }
  }

  lemma {:induction false} KeptIncreases(n: nat, dropped: set<nat>, i: nat, j: nat)
    requires i < j < |Kept(n, dropped)|
    ensures Kept(n, dropped)[i] < Kept(n, dropped)[j] < n
  {
    KeptIsBelow(n, dropped);
    if j < |Kept(n - 1, dropped)| {
      KeptIncreases(n - 1, dropped, i, j);
    } else {
      KeptIsBelow(n - 1, dropped);
    }
  }

  lemma {:induction false} KeptIsBelow(n: nat, dropped: set<nat>)
    ensures forall i :: 0 <= i < |Kept(n, dropped)| ==> Kept(n, dropped)[i] < n
  {
    if n > 0 {
      KeptIsBelow(n - 1, dropped);
    }
  }

  /** A flush keeps the order exactly if it does not overtake queued events: the periodic flush uploads the buffer at
      once, past the tasks that wait. */
  lemma FlushKeepsOrderExactly(s: State, maxTasks: nat)
    requires Orderly(s)
    ensures InLine(Flushed(s.line)) == Kept(s.given, Dropped(s.line.discarded)) <==>
            Flat(s.line.queue) == [] || s.line.buffer == []
  {
    var l := s.line;
    var now, later := InLine(l), InLine(Flushed(l));
    if Flat(l.queue) == [] || l.buffer == [] {
      assert later == now;
    } else {
      var k := |l.uploaded|;
      assert later[k] == l.buffer[0] && now[k] == Flat(l.queue)[0];
      var m := k + |Flat(l.queue)|;
      assert now[m] == l.buffer[0];
      KeptIncreases(s.given, Dropped(l.discarded), k, m);
    }
  }

  /** A batch is dropped exactly if it is full and too many tasks wait or there is no queue, and nothing else is touched;
      otherwise nothing is dropped and no task is lost. */
  lemma DroppedExactly(s: State, open: bool, maxTasks: nat)
    requires |s.line.buffer| < EventBuffers.MAX_CACHE_NOTIFY_EVENT_SIZE
    ensures var l, l1 := s.line, Next(s, Give(open), maxTasks).line;
            && l1.uploaded == l.uploaded
            && (l1.discarded != l.discarded <==> |l.buffer| == 9 && (|l.queue| > maxTasks || !open))
            && (l1.discarded != l.discarded ==>
                  l1.discarded == l.discarded + [l.buffer + [s.given]] && l1.queue == l.queue && l1.buffer == [])
            && (l1.discarded == l.discarded ==> l.queue <= l1.queue && Flat(l1.queue) + l1.buffer ==
                                                                       Flat(l.queue) + l.buffer + [s.given])
  {
    var l, more := s.line, s.line.buffer + [s.given];
    assert more[|l.buffer|] == s.given;
    if |more| == EventBuffers.MAX_CACHE_NOTIFY_EVENT_SIZE {
      FlatSnoc(l.queue, more);
      assert |l.discarded + [more]| == |l.discarded| + 1;
    }
  }

  /** The queue runs empty. */
  lemma {:induction false} TasksRun(ops: seq<Operation>, maxTasks: nat) returns (more: seq<Operation>)
    ensures var l, l1 := After(ops, maxTasks).line, After(more, maxTasks).line;
            && l1.queue == [] && l1.buffer == l.buffer && l1.discarded == l.discarded
            && l1.uploaded == l.uploaded + Flat(l.queue) && After(more, maxTasks).given == After(ops, maxTasks).given
    decreases |After(ops, maxTasks).line.queue|
  {
    var l := After(ops, maxTasks).line;
    if l.queue == [] {
      more := ops;
    } else {
      assert (ops + [RunTask])[..|ops|] == ops;
      FlatCons(l.queue);
      Regrouped(l.uploaded, l.queue[0], Flat(l.queue[1..]));
      more := TasksRun(ops + [RunTask], maxTasks);
    }
  }

  /** After any run, the tasks and then one flush upload everything that was not dropped, in the order of arrival if the
      flushes before have kept it. */
  lemma EverythingIsUploaded(ops: seq<Operation>, maxTasks: nat) returns (more: seq<Operation>)
    ensures var s, s1 := After(ops, maxTasks), After(more, maxTasks);
            && s1.line == Line(InLine(s.line), [], [], s.line.discarded) && s1.given == s.given
            && (FlushesDrained(ops, maxTasks) ==> s1.line.uploaded == Kept(s.given, Dropped(s.line.discarded)))
  {
    more := TasksRun(ops, maxTasks);
    assert (more + [Flush])[..|more|] == more;
    more := more + [Flush];
    if FlushesDrained(ops, maxTasks) {
      BatchesKeepArrivalOrder(ops, maxTasks);
    }
  }
}
