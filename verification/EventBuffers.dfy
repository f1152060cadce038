/** The two event buffers of the subscribe manager: what a caller that runs alone achieves, and that no interleaving of
    callers, the periodic flush and the queued tasks loses or doubles an event. */
module EventBuffers {
  import opened Common

  const MAX_CACHE_EVENT_SIZE := 64
  const MAX_CACHE_NOTIFY_EVENT_SIZE := 10

  // ---------------------------------------------------------------- one caller at a time

  /** The buffer on the way to the store, and what the store was given so far. */
  class StoreBuffer<Event> {
    var events: seq<Event>
    var stored: seq<Event>

    ghost predicate Valid()
      reads this
    {
      |events| < MAX_CACHE_EVENT_SIZE
    }

    constructor ()
      ensures Valid() && events == [] && stored == []
    {
      events, stored := [], [];
    }

    /** Arrival order is kept, nothing is lost, and a full buffer goes to the store as a whole. */
    method UploadEventToStore(event: Event)
      requires Valid()
      modifies this
      ensures Valid()
      ensures stored + events == old(stored + events) + [event]
      ensures events == [] || stored == old(stored)
    {
      var tmp := [];
      events := events + [event];
      if |events| < MAX_CACHE_EVENT_SIZE {
        return;
      }
      tmp, events := events, tmp;
      stored := stored + tmp;
      assert stored + events == old(stored) + (old(events) + [event]);
    }

    method ClearEventCache()
      requires Valid()
      modifies this
      ensures Valid() && events == [] && stored == old(stored + events)
    {
      var tmp := [];
      tmp, events := events, tmp;
      stored := stored + tmp;
    }
  }

  // ---------------------------------------------------------------- every interleaving

  type Holder = nat

  datatype Pipeline = Store | Notify

  function Limit(p: Pipeline): nat {
    if p == Store then MAX_CACHE_EVENT_SIZE else MAX_CACHE_NOTIFY_EVENT_SIZE
  }

  /** Where a batch is that was swapped out of the buffer: with a caller about to hand it to the store, about to read the
      task counter, about to submit it, or about to count it; with a queued task; or with the periodic flush. */
  datatype Stage = Storing | Checking | Submitting | Adding | Running | Flushing

  datatype Batch = Batch(stage: Stage, events: seq<nat>)

  /** Events are numbered by arrival. `finished` is what the store or the upload was given, `discarded` what was dropped
      for lack of tasks or of a queue. */
  datatype State = State(given: nat, buffer: seq<nat>, held: map<Holder, Batch>, finished: set<nat>,
                         discarded: set<nat>, taskCount: nat)

  const INIT := State(0, [], map[], {}, {}, 0)

  datatype Action =
    | Give(t: Holder)
    | Flush(t: Holder)
    | Hand(t: Holder)
    | Check(t: Holder)
    | Submit(t: Holder, task: Holder, open: bool)
    | CountUp(t: Holder)
    | Work(t: Holder)
    | End(t: Holder)

  predicate At(s: State, t: Holder, stage: Stage) {
    t in s.held && s.held[t].stage == stage
  }

  predicate Enabled(p: Pipeline, s: State, a: Action) {
    match a
    case Give(t) => t !in s.held
    case Flush(t) => t !in s.held
    case Hand(t) => At(s, t, Storing)
    case Check(t) => At(s, t, Checking)
    case Submit(t, task, _) => At(s, t, Submitting) && task !in s.held
    case CountUp(t) => At(s, t, Adding)
    case Work(t) => (At(s, t, Running) || At(s, t, Flushing)) && s.held[t].events != []
    case End(t) => (At(s, t, Running) || At(s, t, Flushing)) && s.held[t].events == []
  }

  function Released(s: State, t: Holder): State {
    s.(held := s.held - {t})
  }

  /** A caller looks at the counter and drops its batch if it shows more tasks than allowed. */
  predicate Crowded(s: State, maxTasks: nat) {
    s.taskCount > maxTasks
  }

  function Next(p: Pipeline, s: State, a: Action, maxTasks: nat): State
    requires Enabled(p, s, a)
  {
    match a
    case Give(t) =>
      var more := s.buffer + [s.given];
      if |more| < Limit(p) then s.(given := s.given + 1, buffer := more)
      else
        s.(given := s.given + 1, buffer := [],
           held := s.held[t := Batch(if p == Store then Storing else Checking, more)])
    case Flush(t) =>
      s.(buffer := [], held := s.held[t := Batch(if p == Store then Storing else Flushing, s.buffer)])
    case Hand(t) => Released(s, t).(finished := s.finished + Elements(s.held[t].events))
    case Check(t) =>
      if Crowded(s, maxTasks) then Released(s, t).(discarded := s.discarded + Elements(s.held[t].events))
      else s.(held := s.held[t := Batch(Submitting, s.held[t].events)])
    case Submit(t, task, open) =>
      if !open then Released(s, t).(discarded := s.discarded + Elements(s.held[t].events))
      else s.(held := s.held[t := Batch(Adding, [])][task := Batch(Running, s.held[t].events)])
    case CountUp(t) => Released(s, t).(taskCount := (s.taskCount + 1) % UINT32_MODULUS)
    case Work(t) =>
      var b := s.held[t];
      s.(held := s.held[t := Batch(b.stage, b.events[1..])], finished := s.finished + {b.events[0]})
    case End(t) =>
      if s.held[t].stage == Running then Released(s, t).(taskCount := (s.taskCount - 1) % UINT32_MODULUS) else Released(s, t)
  }

  function After(p: Pipeline, acts: seq<Action>, maxTasks: nat): State {
    if acts == [] then INIT
    else
      var s := After(p, acts[..|acts| - 1], maxTasks);
      if Enabled(p, s, acts[|acts| - 1]) then Next(p, s, acts[|acts| - 1], maxTasks) else s
  }

  // ---------------------------------------------------------------- conservation

  datatype Place = Buffered(k: nat) | Carried(t: Holder, k: nat) | Finished | Discarded

  /** An event is at a position of the buffer, at a position of a swapped batch, finished or discarded. */
  predicate Stands(s: State, x: nat, place: Place) {
    match place
    case Buffered(k) => k < |s.buffer| && s.buffer[k] == x
    case Carried(t, k) => t in s.held && k < |s.held[t].events| && s.held[t].events[k] == x
    case Finished => x in s.finished
    case Discarded => x in s.discarded
  }

  /** Every event that was given stands in exactly one place, and no other event stands anywhere. */
  ghost predicate Conserved(s: State) {
    && (forall x: nat, place :: Stands(s, x, place) ==> x < s.given)
    && (forall x: nat :: x < s.given ==> Somewhere(s, x))
    && (forall x: nat, place, other :: Stands(s, x, place) && Stands(s, x, other) ==> place == other)
    && (forall t :: At(s, t, Adding) ==> s.held[t].events == [])
  }

  ghost predicate Somewhere(s: State, x: nat) {
    exists place :: Stands(s, x, place)
  }

  /** Where an event that stands somewhere after a step stood before it, unless it is new or has just been finished or
      discarded. */
  function Before(a: Action, place: Place): Place {
    match a
    case Give(t) => if place.Carried? && place.t == t then Buffered(place.k) else place
    case Flush(t) => if place.Carried? && place.t == t then Buffered(place.k) else place
    case Submit(t, task, _) => if place.Carried? && place.t == task then Carried(t, place.k) else place
    case Work(t) => if place.Carried? && place.t == t then Carried(t, place.k + 1) else place
    case _ => place
  }

  lemma StepBack(p: Pipeline, s: State, a: Action, maxTasks: nat, x: nat, place: Place) returns (from: Place)
    requires Enabled(p, s, a) && Stands(Next(p, s, a, maxTasks), x, place)
    requires !(a.Give? && x == s.given)
    ensures Stands(s, x, from)
    ensures from == Before(a, place) ||
            ((place.Finished? || place.Discarded?) && from.Carried? && from.t == a.t && (a.Work? ==> from.k == 0) &&
             !Stands(s, x, place))
  {
    from := Before(a, place);
    if !Stands(s, x, from) {
      if a.Work? {
        from := Carried(a.t, 0);
      } else {
        var events := s.held[a.t].events;
        var k :| 0 <= k < |events| && events[k] == x;
        from := Carried(a.t, k);
      }
    }
  }

  lemma StepForth(p: Pipeline, s: State, a: Action, maxTasks: nat, x: nat, from: Place) returns (place: Place)
    requires Enabled(p, s, a) && Conserved(s) && Stands(s, x, from)
    ensures Stands(Next(p, s, a, maxTasks), x, place)
  {
    var s1 := Next(p, s, a, maxTasks);
    place := from;
    if !Stands(s1, x, from) {
      match a
      case Give(t) => place := Carried(t, from.k);
      case Flush(t) => place := Carried(t, from.k);
      case Hand(t) => place := Finished;
      case Check(t) => place := Discarded;
      case Submit(t, task, open) => place := if open then Carried(task, from.k) else Discarded;
      case Work(t) => place := if from.k == 0 then Finished else Carried(t, from.k - 1);
      case _ => assert false;
    }
  }

  /** A new event stands at the end of the buffer, or of the batch that it completed. */
  lemma NewStands(p: Pipeline, s: State, t: Holder, maxTasks: nat, place: Place)
    requires Enabled(p, s, Give(t)) && Conserved(s)
    ensures Stands(Next(p, s, Give(t), maxTasks), s.given, place) <==>
            place == if |s.buffer| + 1 < Limit(p) then Buffered(|s.buffer|) else Carried(t, |s.buffer|)
  {
    assert !Stands(s, s.given, place);
    assert place.Carried? && place.t == t ==> !Stands(s, s.given, Buffered(place.k));
  }

  lemma NextUnique(p: Pipeline, s: State, a: Action, maxTasks: nat, x: nat, place: Place, other: Place)
    requires Enabled(p, s, a) && Conserved(s)
    requires Stands(Next(p, s, a, maxTasks), x, place) && Stands(Next(p, s, a, maxTasks), x, other)
    ensures place == other
  {
    if a.Give? && x == s.given {
      NewStands(p, s, a.t, maxTasks, place);
      NewStands(p, s, a.t, maxTasks, other);
    } else {
      var from := StepBack(p, s, a, maxTasks, x, place);
      var also := StepBack(p, s, a, maxTasks, x, other);
      assert from == also;
    }
  }

  lemma NextConserved(p: Pipeline, s: State, a: Action, maxTasks: nat)
    requires Enabled(p, s, a) && Conserved(s)
    ensures Conserved(Next(p, s, a, maxTasks))
  {
    var s1 := Next(p, s, a, maxTasks);
    forall x: nat, place | Stands(s1, x, place)
      ensures x < s1.given
    {
      if !(a.Give? && x == s.given) {
        var from := StepBack(p, s, a, maxTasks, x, place);
      }
    }
    forall x: nat | x < s1.given
      ensures Somewhere(s1, x)
    {
      if x < s.given {
        assert Somewhere(s, x);
        var from :| Stands(s, x, from);
        var place := StepForth(p, s, a, maxTasks, x, from);
      } else {
        NewStands(p, s, a.t, maxTasks,
                  if |s.buffer| + 1 < Limit(p) then Buffered(|s.buffer|) else Carried(a.t, |s.buffer|));
      }
    }
    forall x: nat, place, other | Stands(s1, x, place) && Stands(s1, x, other)
      ensures place == other
    {
      NextUnique(p, s, a, maxTasks, x, place, other);
    }
  }

  /** In every interleaving each event that was given is in exactly one place, and the buffer stays below its limit. */
  lemma {:induction false} EventsAreConserved(p: Pipeline, acts: seq<Action>, maxTasks: nat)
    ensures Conserved(After(p, acts, maxTasks)) && |After(p, acts, maxTasks).buffer| < Limit(p)
  {
    if acts != [] {
      var s, a := After(p, acts[..|acts| - 1], maxTasks), acts[|acts| - 1];
      EventsAreConserved(p, acts[..|acts| - 1], maxTasks);
      if Enabled(p, s, a) {
        NextConserved(p, s, a, maxTasks);
      }
    }
  }

  /** At rest every event is buffered, finished or discarded; the store discards nothing. */
  lemma AtRest(p: Pipeline, acts: seq<Action>, maxTasks: nat, x: nat)
    requires After(p, acts, maxTasks).held == map[] && x < After(p, acts, maxTasks).given
    ensures var s := After(p, acts, maxTasks); x in s.buffer || x in s.finished || x in s.discarded
  {
    EventsAreConserved(p, acts, maxTasks);
    assert Somewhere(After(p, acts, maxTasks), x);
  }

  ghost predicate StoreStages(s: State) {
    s.discarded == {} && forall t :: t in s.held ==> s.held[t].stage == Storing
  }

  lemma {:induction false} StoreDiscardsNothing(acts: seq<Action>, maxTasks: nat)
    ensures StoreStages(After(Store, acts, maxTasks))
  {
    if acts != [] {
      StoreDiscardsNothing(acts[..|acts| - 1], maxTasks);
    }
  }

  // ---------------------------------------------------------------- the task counter

  function Holders(s: State, stage: Stage): set<Holder> {
    set t | t in s.held && s.held[t].stage == stage
  }

  /** Tasks that run or wait, less the callers that have submitted one and not counted it yet. */
  function Backlog(s: State): int {
    |Holders(s, Running)| - |Holders(s, Adding)|
  }

  ghost predicate Counted(s: State) {
    s.taskCount == Backlog(s) % UINT32_MODULUS
  }

  lemma CountShift(x: int, y: int)
    ensures (x % UINT32_MODULUS + y) % UINT32_MODULUS == (x + y) % UINT32_MODULUS
  {
  }

  lemma HoldersAfter(p: Pipeline, s: State, a: Action, maxTasks: nat, stage: Stage)
    requires Enabled(p, s, a) && (stage == Running || stage == Adding)
    ensures Holders(Next(p, s, a, maxTasks), stage) ==
            match a
            case Submit(t, task, open) =>
              if !open then Holders(s, stage)
              else if stage == Running then Holders(s, stage) + {task} else Holders(s, stage) + {t}
            case CountUp(t) => Holders(s, stage) - {t}
            case End(t) => Holders(s, stage) - {t}
            case _ => Holders(s, stage)
  {
  }

  /** How much a step adds to the backlog, and to the counter. */
  function Delta(s: State, a: Action): int {
    if a.CountUp? then 1 else if a.End? && At(s, a.t, Running) then -1 else 0
  }

  lemma NextBacklog(p: Pipeline, s: State, a: Action, maxTasks: nat)
    requires Enabled(p, s, a)
    ensures Backlog(Next(p, s, a, maxTasks)) == Backlog(s) + Delta(s, a)
  {
    HoldersAfter(p, s, a, maxTasks, Running);
    HoldersAfter(p, s, a, maxTasks, Adding);
    if a.Submit? {
      assert a.task !in Holders(s, Running) && a.t !in Holders(s, Adding);
    } else if a.CountUp? {
      OneLess(s, Adding, Running, a.t);
    } else if a.End? {
      if s.held[a.t].stage == Running {
        OneLess(s, Running, Adding, a.t);
      } else {
        NoneLess(s, Running, a.t);
        NoneLess(s, Adding, a.t);
      }
    }
  }

  lemma NoneLess(s: State, stage: Stage, t: Holder)
    requires !At(s, t, stage)
    ensures Holders(s, stage) - {t} == Holders(s, stage)
  {
  }

  lemma NextCounted(p: Pipeline, s: State, a: Action, maxTasks: nat)
    requires Enabled(p, s, a) && Counted(s)
    ensures Counted(Next(p, s, a, maxTasks))
  {
    NextBacklog(p, s, a, maxTasks);
    CountShift(Backlog(s), Delta(s, a));
  }

  lemma OneLess(s: State, stage: Stage, other: Stage, t: Holder)
    requires At(s, t, stage) && stage != other
    ensures |Holders(s, stage) - {t}| == |Holders(s, stage)| - 1
    ensures Holders(s, other) - {t} == Holders(s, other)
  {
    assert t in Holders(s, stage) && t !in Holders(s, other);
  }

  /** The counter is the backlog modulo 2^32, in every interleaving. */
  lemma {:induction false} CounterIsBacklog(p: Pipeline, acts: seq<Action>, maxTasks: nat)
    ensures Counted(After(p, acts, maxTasks))
  {
    if acts == [] {
      assert Holders(INIT, Running) == {} && Holders(INIT, Adding) == {};
    } else {
      var s, a := After(p, acts[..|acts| - 1], maxTasks), acts[|acts| - 1];
      CounterIsBacklog(p, acts[..|acts| - 1], maxTasks);
      if Enabled(p, s, a) {
        NextCounted(p, s, a, maxTasks);
      }
    }
  }

  /** The counter shows too many tasks for one of two reasons: more are pending than allowed, or a task has finished
      before the caller that submitted it has counted it, so that the unsigned counter stands below zero. */
  lemma CrowdedExactly(p: Pipeline, acts: seq<Action>, maxTasks: nat)
    requires var s := After(p, acts, maxTasks);
             |Holders(s, Running)| + |Holders(s, Adding)| + maxTasks < UINT32_MODULUS
    ensures var s := After(p, acts, maxTasks);
            Crowded(s, maxTasks) <==> Backlog(s) > maxTasks || Backlog(s) < 0
  {
    CounterIsBacklog(p, acts, maxTasks);
    var b := Backlog(After(p, acts, maxTasks));
    if b < 0 {
      assert b % UINT32_MODULUS == b + UINT32_MODULUS;
    } else {
      assert b % UINT32_MODULUS == b;
    }
  }

  ghost predicate FullBatches(p: Pipeline, s: State) {
    forall t :: At(s, t, Checking) || At(s, t, Submitting) ==> |s.held[t].events| == Limit(p)
  }

  lemma {:induction false} BatchesAreFull(p: Pipeline, acts: seq<Action>, maxTasks: nat)
    ensures FullBatches(p, After(p, acts, maxTasks))
  {
    if acts != [] {
      BatchesAreFull(p, acts[..|acts| - 1], maxTasks);
      EventsAreConserved(p, acts[..|acts| - 1], maxTasks);
    }
  }

  /** The batch of holder `t` has events, none of which is discarded yet. */
  lemma BatchIsFresh(p: Pipeline, s: State, t: Holder)
    requires Conserved(s) && FullBatches(p, s) && (At(s, t, Checking) || At(s, t, Submitting))
    ensures s.discarded + Elements(s.held[t].events) != s.discarded
  {
    var x := s.held[t].events[0];
    assert Stands(s, x, Carried(t, 0));
    assert !Stands(s, x, Discarded);
    assert x in Elements(s.held[t].events);
  }

  /** In every interleaving a step discards events exactly if a caller finds more tasks pending than allowed, finds the
      counter below zero, or finds no queue; and then it discards a full batch. */
  lemma DiscardedExactly(p: Pipeline, acts: seq<Action>, maxTasks: nat, a: Action)
    requires Enabled(p, After(p, acts, maxTasks), a)
    requires var s := After(p, acts, maxTasks);
             |Holders(s, Running)| + |Holders(s, Adding)| + maxTasks < UINT32_MODULUS
    ensures var s := After(p, acts, maxTasks);
            var s1 := Next(p, s, a, maxTasks);
            && (s1.discarded != s.discarded <==>
                  (a.Check? && (Backlog(s) > maxTasks || Backlog(s) < 0)) || (a.Submit? && !a.open))
            && (s1.discarded != s.discarded ==>
                  s1.discarded == s.discarded + Elements(s.held[a.t].events) && |s.held[a.t].events| == Limit(p))
  {
    var s := After(p, acts, maxTasks);
    CrowdedExactly(p, acts, maxTasks);
    EventsAreConserved(p, acts, maxTasks);
    BatchesAreFull(p, acts, maxTasks);
    if a.Check? || a.Submit? {
      BatchIsFresh(p, s, a.t);
    }
  }
}
