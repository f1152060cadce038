/** The callback stub of the event client: after `ClearCallBack` has returned, no thread runs or holds a callback that
    was registered before. */
module CallbackDrain {
  import opened Common

  type Callback = nat
  type Event = nat

  // ---------------------------------------------------------------- one caller at a time

  function Calls(cb: Callback, events: seq<Event>): seq<(Callback, Event)> {
    seq(|events|, i requires 0 <= i < |events| => (cb, events[i]))
  }

  class AcquireDataManagerCallbackService {
    var callback: Option<Callback>
    /** The invocations of user code so far. */
    var invoked: seq<(Callback, Event)>

    constructor ()
      ensures callback == None && invoked == []
    {
      callback, invoked := None, [];
    }

    method RegistCallBack(cb: Option<Callback>)
      modifies this`callback
      ensures callback == if cb.None? then old(callback) else cb
    {
      if cb.None? {
        return;
      }
      callback := cb;
    }

    method ClearCallBack()
      modifies this`callback
      ensures callback == None
    {
      callback := None;
    }

    method OnNotify(events: seq<Event>) returns (ret: int)
      modifies this`invoked
      ensures ret == if callback.None? then FAILED else SUCCESS
      ensures callback.None? ==> invoked == old(invoked)
      ensures callback.Some? ==>
                invoked == old(invoked) + Calls(callback.value, events)
    {
      var copied := callback;
      if copied.None? {
        return FAILED;
      }
      for i := 0 to |events|
        invariant invoked == old(invoked) + Calls(copied.value, events[..i])
      {
        invoked := invoked + [(copied.value, events[i])];
      }
      assert events[..|events|] == events;
      return SUCCESS;
    }
  }

  // ---------------------------------------------------------------- every interleaving

  /** Where a thread stands: waiting for a lock, holding locks, or running a copied callback under `notifyMutex_` with so
      many events to go. */
  datatype Place =
    | NotifyWaits(events: nat)
    | NotifyEntered(events: nat)
    | NotifyCopies(events: nat)
    | NotifyRuns(cb: Callback, events: nat)
    | NotifyLeaves
    | RegistWaits(offer: Option<Callback>)
    | RegistSets(offer: Option<Callback>)
    | ClearWaits
    | ClearEntered
    | ClearSets

  datatype Holder = Free | HeldBy(t: ThreadId)

  datatype State = State(slot: Option<Callback>, notifyLock: Holder, slotLock: Holder, threads: map<ThreadId, Place>)

  const INIT := State(None, Free, Free, map[])

  datatype Action =
    | Notify(t: ThreadId, events: nat)
    | Regist(t: ThreadId, cb: Option<Callback>)
    | Clear(t: ThreadId)
    | Continue(t: ThreadId)

  predicate WantsNotify(p: Place) {
    p.NotifyWaits? || p.ClearWaits?
  }

  predicate WantsSlot(p: Place) {
    p.NotifyEntered? || p.RegistWaits? || p.ClearEntered?
  }

  predicate HoldsNotify(p: Place) {
    p.NotifyEntered? || p.NotifyCopies? || p.NotifyRuns? || p.NotifyLeaves? || p.ClearEntered? || p.ClearSets?
  }

  predicate HoldsSlot(p: Place) {
    p.NotifyCopies? || p.RegistSets? || p.ClearSets?
  }

  predicate Enabled(s: State, a: Action) {
    match a
    case Continue(t) =>
      t in s.threads && (WantsNotify(s.threads[t]) ==> s.notifyLock.Free?) &&
      (WantsSlot(s.threads[t]) ==> s.slotLock.Free?)
    case _ => a.t !in s.threads
  }

  function Goes(s: State, t: ThreadId, p: Place): State {
    s.(threads := s.threads[t := p])
  }

  function Ends(s: State, t: ThreadId): State {
    s.(threads := s.threads - {t})
  }

  function Resume(s: State, t: ThreadId, p: Place): State {
    match p
    case NotifyWaits(n) => Goes(s, t, NotifyEntered(n)).(notifyLock := HeldBy(t))
    case NotifyEntered(n) => Goes(s, t, NotifyCopies(n)).(slotLock := HeldBy(t))
    case NotifyCopies(n) =>
      Goes(s, t, if s.slot.None? then NotifyLeaves else NotifyRuns(s.slot.value, n)).(slotLock := Free)
    case NotifyRuns(cb, n) => Goes(s, t, if n == 0 then NotifyLeaves else NotifyRuns(cb, n - 1))
    case NotifyLeaves => Ends(s, t).(notifyLock := Free)
    case RegistWaits(cb) => Goes(s, t, RegistSets(cb)).(slotLock := HeldBy(t))
    case RegistSets(cb) => Ends(s, t).(slotLock := Free, slot := if cb.None? then s.slot else cb)
    case ClearWaits => Goes(s, t, ClearEntered).(notifyLock := HeldBy(t))
    case ClearEntered => Goes(s, t, ClearSets).(slotLock := HeldBy(t))
    case ClearSets => Ends(s, t).(slotLock := Free, notifyLock := Free, slot := None)
  }

  function Next(s: State, a: Action): State
    requires Enabled(s, a)
  {
    match a
    case Notify(t, n) => Goes(s, t, NotifyWaits(n))
    case Regist(t, cb) => Goes(s, t, RegistWaits(cb))
    case Clear(t) => Goes(s, t, ClearWaits)
    case Continue(t) => Resume(s, t, s.threads[t])
  }

  function After(acts: seq<Action>): State {
    if acts == [] then INIT
    else
      var s := After(acts[..|acts| - 1]);
      if Enabled(s, acts[|acts| - 1]) then Next(s, acts[|acts| - 1]) else s
  }

  /** The step with which a `ClearCallBack` returns. */
  predicate Returns(s: State, a: Action) {
    Enabled(s, a) && a.Continue? && s.threads[a.t].ClearSets?
  }

  /** The step with which a `RegistCallBack` puts its callback into the slot. */
  predicate Registers(s: State, a: Action, cb: Callback) {
    Enabled(s, a) && a.Continue? && s.threads[a.t] == RegistSets(Some(cb))
  }

  /** The step in which user code is called. */
  predicate Invokes(s: State, a: Action, cb: Callback) {
    Enabled(s, a) && a.Continue? && s.threads[a.t].NotifyRuns? && s.threads[a.t].cb == cb && s.threads[a.t].events > 0
  }

  /** `cb` was registered and no `ClearCallBack` has returned since. */
  ghost predicate RegisteredSince(acts: seq<Action>, cb: Callback) {
    acts != [] &&
    var s, a := After(acts[..|acts| - 1]), acts[|acts| - 1];
    Registers(s, a, cb) || (RegisteredSince(acts[..|acts| - 1], cb) && !Returns(s, a))
  }

  ghost predicate NotifyLocked(s: State) {
    forall t :: t in s.threads && HoldsNotify(s.threads[t]) <==> s.notifyLock == HeldBy(t)
  }

  ghost predicate SlotLocked(s: State) {
    forall t :: t in s.threads && HoldsSlot(s.threads[t]) <==> s.slotLock == HeldBy(t)
  }

  /** Each lock is held by exactly the thread that stands in its section. */
  ghost predicate Locked(s: State) {
    NotifyLocked(s) && SlotLocked(s)
  }

  lemma NextNotifyLocked(s: State, a: Action)
    requires NotifyLocked(s) && Enabled(s, a)
    ensures NotifyLocked(Next(s, a))
  {
  }

  lemma NextSlotLocked(s: State, a: Action)
    requires SlotLocked(s) && Enabled(s, a)
    ensures SlotLocked(Next(s, a))
  {
  }

  lemma NextLocked(s: State, a: Action)
    requires Locked(s) && Enabled(s, a)
    ensures Locked(Next(s, a))
  {
    NextNotifyLocked(s, a);
    NextSlotLocked(s, a);
  }

  lemma {:induction false} AlwaysLocked(acts: seq<Action>)
    ensures Locked(After(acts))
  {
    if acts != [] {
      AlwaysLocked(acts[..|acts| - 1]);
      if Enabled(After(acts[..|acts| - 1]), acts[|acts| - 1]) {
        NextLocked(After(acts[..|acts| - 1]), acts[|acts| - 1]);
      }
    }
  }

  ghost predicate Drained(s: State) {
    s.slot == None && forall t :: t in s.threads ==> !s.threads[t].NotifyRuns?
  }

  /** When `ClearCallBack` returns, the slot is empty and no thread runs or holds a callback. */
  lemma ClearDrains(acts: seq<Action>, a: Action)
    requires Returns(After(acts), a)
    ensures Drained(Next(After(acts), a))
  {
    AlwaysLocked(acts);
    var s := After(acts);
    forall t | t in s.threads && t != a.t
      ensures !s.threads[t].NotifyRuns?
    {
      assert s.notifyLock == HeldBy(a.t);
    }
  }

  predicate Holds(s: State, t: ThreadId, cb: Callback) {
    t in s.threads && s.threads[t].NotifyRuns? && s.threads[t].cb == cb
  }

  /** Whatever a thread holds or the slot contains has been registered since the last return of a `ClearCallBack`. */
  lemma {:induction false} HeldWasRegistered(acts: seq<Action>, cb: Callback)
    ensures After(acts).slot == Some(cb) ==> RegisteredSince(acts, cb)
    ensures forall t :: Holds(After(acts), t, cb) ==> RegisteredSince(acts, cb)
  {
    if acts != [] {
      var before, a := acts[..|acts| - 1], acts[|acts| - 1];
      var s := After(before);
      HeldWasRegistered(before, cb);
      assert RegisteredSince(acts, cb) <==> Registers(s, a, cb) || (RegisteredSince(before, cb) && !Returns(s, a));
      if Returns(s, a) {
        ClearDrains(before, a);
      }
      forall t | Holds(After(acts), t, cb)
        ensures RegisteredSince(acts, cb)
      {
        assert Holds(s, t, cb) || s.slot == Some(cb);
      }
    }
  }

  /** In every interleaving user code is called only through callbacks registered after every `ClearCallBack` that has
      returned: once it returns, the old callback is never invoked again unless it is registered anew. */
  lemma InvokedOnlyIfRegisteredSince(acts: seq<Action>, a: Action, cb: Callback)
    requires Invokes(After(acts), a, cb)
    ensures RegisteredSince(acts, cb)
  {
    HeldWasRegistered(acts, cb);
    assert Holds(After(acts), a.t, cb);
  }

  /** Two threads never run callbacks of one stub at the same time. */
  lemma OneCallbackAtATime(acts: seq<Action>, t: ThreadId, u: ThreadId)
    requires var ts := After(acts).threads; t in ts && u in ts && ts[t].NotifyRuns? && ts[u].NotifyRuns?
    ensures t == u
  {
    AlwaysLocked(acts);
    assert After(acts).notifyLock == HeldBy(t);
  }

  /** The locks are taken in one order, so no interleaving gets stuck: while any thread is under way, one can go on. */
  lemma NeverStuck(acts: seq<Action>)
    requires After(acts).threads != map[]
    ensures exists t :: Enabled(After(acts), Continue(t))
  {
    AlwaysLocked(acts);
    var s := After(acts);
    if s.slotLock.HeldBy? {
      assert Enabled(s, Continue(s.slotLock.t));
    } else if s.notifyLock.HeldBy? {
      assert Enabled(s, Continue(s.notifyLock.t));
    } else {
      var t :| t in s.threads;
      assert Enabled(s, Continue(t));
    }
  }

  // ---------------------------------------------------------------- what the slot holds and what is called

  /** `cb` was put into the slot last: registered, with no other registration and no `ClearCallBack` since. */
  ghost predicate PutLast(acts: seq<Action>, cb: Callback) {
    acts != [] &&
    var s, a := After(acts[..|acts| - 1]), acts[|acts| - 1];
    Registers(s, a, cb) ||
    (PutLast(acts[..|acts| - 1], cb) && !Returns(s, a) && !exists other :: Registers(s, a, other))
  }

  /** In every interleaving the slot holds exactly the callback that was put there last. */
  lemma {:induction false} SlotHoldsTheLast(acts: seq<Action>, cb: Callback)
    ensures After(acts).slot == Some(cb) <==> PutLast(acts, cb)
  {
    if acts != [] {
      var s, a := After(acts[..|acts| - 1]), acts[|acts| - 1];
      SlotHoldsTheLast(acts[..|acts| - 1], cb);
      if Enabled(s, a) && a.Continue? && s.threads[a.t].RegistSets? && s.threads[a.t].offer.Some? {
        assert Registers(s, a, s.threads[a.t].offer.value);
      }
    }
  }

  /** The call that thread `t` has begun last. */
  function CallOf(acts: seq<Action>, t: ThreadId): Option<Action> {
    if acts == [] then None
    else
      var s, a := After(acts[..|acts| - 1]), acts[|acts| - 1];
      if !a.Continue? && a.t == t && t !in s.threads then Some(a) else CallOf(acts[..|acts| - 1], t)
  }

  /** The invocations of user code in that call. */
  function CallsMade(acts: seq<Action>, t: ThreadId): nat {
    if acts == [] then 0
    else
      var s, a := After(acts[..|acts| - 1]), acts[|acts| - 1];
      if !a.Continue? && a.t == t && t !in s.threads then 0
      else CallsMade(acts[..|acts| - 1], t) + if a == Continue(t) && Runs(s, t) then 1 else 0
  }

  predicate Runs(s: State, t: ThreadId) {
    t in s.threads && s.threads[t].NotifyRuns? && s.threads[t].events > 0
  }

  /** Where the thread stands is a place of its call, with the events that are still to go. */
  predicate Fits(p: Place, call: Action, made: nat) {
    match p
    case NotifyWaits(n) => call == Notify(call.t, n) && made == 0
    case NotifyEntered(n) => call == Notify(call.t, n) && made == 0
    case NotifyCopies(n) => call == Notify(call.t, n) && made == 0
    case NotifyRuns(_, n) => call == Notify(call.t, made + n)
    case NotifyLeaves => call.Notify? && (made == 0 || made == call.events)
    case RegistWaits(cb) => call == Regist(call.t, cb)
    case RegistSets(cb) => call == Regist(call.t, cb)
    case _ => call.Clear?
  }

  /** In every interleaving a thread registers what its call has offered, and calls its callback once for each event of
      its call. */
  lemma {:induction false} ThreadsDoTheirCalls(acts: seq<Action>, t: ThreadId)
    requires t in After(acts).threads
    ensures CallOf(acts, t).Some? && CallOf(acts, t).value.t == t
    ensures Fits(After(acts).threads[t], CallOf(acts, t).value, CallsMade(acts, t))
  {
    var s, a := After(acts[..|acts| - 1]), acts[|acts| - 1];
    if t in s.threads {
      ThreadsDoTheirCalls(acts[..|acts| - 1], t);
    }
  }

  // ---------------------------------------------------------------- calls that meet nobody

  function Stepped(s: State, a: Action): State {
    if Enabled(s, a) then Next(s, a) else s
  }

  /** The state after the call `a` of thread `t` and `k` steps of it. */
  function Along(s: State, a: Action, t: ThreadId, k: nat): State {
    if k == 0 then Stepped(s, a) else Stepped(Along(s, a, t, k - 1), Continue(t))
  }

  /** How often `cb` is called on the way. */
  ghost function Invocations(s: State, a: Action, t: ThreadId, k: nat, cb: Callback): nat {
    if k == 0 then 0
    else Invocations(s, a, t, k - 1, cb) + if Invokes(Along(s, a, t, k - 1), Continue(t), cb) then 1 else 0
  }

  predicate AtRest(s: State) {
    s.threads == map[] && s.notifyLock.Free? && s.slotLock.Free?
  }

  lemma OneStep(s: State, a: Action, t: ThreadId, k: nat, cb: Callback)
    ensures Along(s, a, t, k + 1) == Stepped(Along(s, a, t, k), Continue(t))
    ensures Invocations(s, a, t, k + 1, cb) ==
            Invocations(s, a, t, k, cb) + if Invokes(Along(s, a, t, k), Continue(t), cb) then 1 else 0
  {
  }

  /** A registration puts its callback into the slot, a null one changes nothing. */
  lemma RegistAlone(s: State, t: ThreadId, cb: Option<Callback>)
    requires AtRest(s)
    ensures Along(s, Regist(t, cb), t, 2) == if cb.Some? then s.(slot := cb) else s
  {
    assert Along(s, Regist(t, cb), t, 0) == s.(threads := map[t := RegistWaits(cb)]);
    OneStep(s, Regist(t, cb), t, 0, 0);
    assert Along(s, Regist(t, cb), t, 1) == s.(slotLock := HeldBy(t), threads := map[t := RegistSets(cb)]);
    OneStep(s, Regist(t, cb), t, 1, 0);
  }

  lemma ClearSteps(s: State, t: ThreadId)
    requires AtRest(s)
    ensures Along(s, Clear(t), t, 2) == Only(s, t, ClearSets).(slotLock := HeldBy(t))
  {
    assert Along(s, Clear(t), t, 0) == s.(threads := map[t := ClearWaits]);
    OneStep(s, Clear(t), t, 0, 0);
    assert Along(s, Clear(t), t, 1) == Only(s, t, ClearEntered);
    OneStep(s, Clear(t), t, 1, 0);
  }

  lemma ClearAlone(s: State, t: ThreadId)
    requires AtRest(s)
    ensures Along(s, Clear(t), t, 3) == s.(slot := None)
  {
    ClearSteps(s, t);
    OneStep(s, Clear(t), t, 2, 0);
  }

  /** The only thread is `t`, which has the notify lock. */
  function Only(s: State, t: ThreadId, p: Place): State {
    s.(notifyLock := HeldBy(t), threads := map[t := p])
  }

  lemma NotifyEnters(s: State, t: ThreadId, n: nat, cb: Callback)
    requires AtRest(s)
    ensures Along(s, Notify(t, n), t, 2) == Only(s, t, NotifyCopies(n)).(slotLock := HeldBy(t))
    ensures Invocations(s, Notify(t, n), t, 2, cb) == 0
  {
    assert Along(s, Notify(t, n), t, 0) == s.(threads := map[t := NotifyWaits(n)]);
    OneStep(s, Notify(t, n), t, 0, cb);
    assert Along(s, Notify(t, n), t, 1) == Only(s, t, NotifyEntered(n));
    OneStep(s, Notify(t, n), t, 1, cb);
  }

  lemma NotifyBegins(s: State, t: ThreadId, n: nat, cb: Callback)
    requires AtRest(s)
    ensures Along(s, Notify(t, n), t, 3) ==
            Only(s, t, if s.slot.None? then NotifyLeaves else NotifyRuns(s.slot.value, n))
    ensures Invocations(s, Notify(t, n), t, 3, cb) == 0
  {
    NotifyEnters(s, t, n, cb);
    OneStep(s, Notify(t, n), t, 2, cb);
  }

  lemma OneMoreEvent(s: State, t: ThreadId, c: Callback, k: nat, cb: Callback)
    requires AtRest(s)
    ensures var s1, step := Only(s, t, NotifyRuns(c, k)), Continue(t);
            && Enabled(s1, step) && (Invokes(s1, step, cb) <==> c == cb && k > 0)
            && Next(s1, step) == Only(s, t, if k == 0 then NotifyLeaves else NotifyRuns(c, k - 1))
  {
  }

  lemma OneMoreCall(s: State, t: ThreadId, n: nat, m: nat, c: Callback, left: nat, cb: Callback)
    requires AtRest(s) && Along(s, Notify(t, n), t, m) == Only(s, t, NotifyRuns(c, left)) && left > 0
    ensures Along(s, Notify(t, n), t, m + 1) == Only(s, t, NotifyRuns(c, left - 1))
    ensures Invocations(s, Notify(t, n), t, m + 1, cb) ==
            Invocations(s, Notify(t, n), t, m, cb) + if c == cb then 1 else 0
  {
    OneStep(s, Notify(t, n), t, m, cb);
    OneMoreEvent(s, t, c, left, cb);
  }

  lemma {:induction false} NotifyGoesOn(s: State, t: ThreadId, n: nat, k: nat, cb: Callback)
    requires AtRest(s) && s.slot.Some? && k <= n
    ensures Along(s, Notify(t, n), t, k + 3) == Only(s, t, NotifyRuns(s.slot.value, n - k))
    ensures Invocations(s, Notify(t, n), t, k + 3, cb) == if s.slot == Some(cb) then k else 0
  {
    if k == 0 {
      NotifyBegins(s, t, n, cb);
    } else {
      NotifyGoesOn(s, t, n, k - 1, cb);
      OneMoreCall(s, t, n, (k - 1) + 3, s.slot.value, n - (k - 1), cb);
      assert (k - 1) + 3 + 1 == k + 3;
    }
  }

  lemma NotifyEnds(s: State, t: ThreadId, n: nat, m: nat, cb: Callback)
    requires AtRest(s) && Along(s, Notify(t, n), t, m) == Only(s, t, NotifyLeaves)
    ensures Along(s, Notify(t, n), t, m + 1) == s
    ensures Invocations(s, Notify(t, n), t, m + 1, cb) == Invocations(s, Notify(t, n), t, m, cb)
  {
    OneStep(s, Notify(t, n), t, m, cb);
  }

  /** A notification of `n` events calls the callback in the slot `n` times and no other one, and changes nothing. */
  lemma NotifyAlone(s: State, t: ThreadId, n: nat, cb: Callback)
    requires AtRest(s)
    ensures var steps := if s.slot.None? then 4 else n + 5;
            && Along(s, Notify(t, n), t, steps) == s
            && Invocations(s, Notify(t, n), t, steps, cb) == if s.slot == Some(cb) then n else 0
  {
    if s.slot.None? {
      NotifyBegins(s, t, n, cb);
      NotifyEnds(s, t, n, 3, cb);
    } else {
      NotifyGoesOn(s, t, n, n, cb);
      OneStep(s, Notify(t, n), t, n + 3, cb);
      OneMoreEvent(s, t, s.slot.value, 0, cb);
      assert n + 3 + 1 == n + 4 && n + 4 + 1 == n + 5;
      NotifyEnds(s, t, n, n + 4, cb);
    }
  }
}
