/** The provider set and the client-session set: quotas and distinct callbacks through create, rollback, destroy and
    death. Both tables run the same critical sections with their own limits and codes. */
module SessionRegistries {
  import opened Common

  type Pid = int
  type Callback = nat

  /** A session object: `id` is its address. */
  datatype Session = Session(id: nat, pid: Pid, callback: Callback)

  datatype Limits = Limits(whole: nat, perProcess: nat)

  const PROVIDER_LIMITS := Limits(16, 1)
  const CLIENT_LIMITS := Limits(16, 2)

  datatype Code = SUCCESS | EXCEED_GLOBAL | EXCEED_PROCESS | BAD_PARAM

  function OfProcess(ss: set<Session>, pid: Pid): set<Session> {
    set s | s in ss && s.pid == pid
  }

  ghost predicate WithinQuota(ss: set<Session>, l: Limits) {
    && |ss| <= l.whole
    && (forall pid :: |OfProcess(ss, pid)| <= l.perProcess)
    && (forall s, t :: s in ss && t in ss && s.callback == t.callback ==> s == t)
  }

  function Verdict(ss: set<Session>, l: Limits, pid: Pid, callback: Callback): Code {
    if |ss| >= l.whole then EXCEED_GLOBAL
    else if |OfProcess(ss, pid)| >= l.perProcess then EXCEED_PROCESS
    else if exists s :: s in ss && s.callback == callback then BAD_PARAM
    else SUCCESS
  }

  class Registry {
    const limits: Limits
    var sessions: set<Session>

    constructor (limits: Limits)
      ensures sessions == {} && this.limits == limits
    {
      this.limits := limits;
      sessions := {};
    }

    /** `CheckQuotaLocked`. */
    method CheckQuotaLocked(pid: Pid) returns (code: Code)
      ensures code == if |sessions| >= limits.whole then EXCEED_GLOBAL
                      else if |OfProcess(sessions, pid)| >= limits.perProcess then EXCEED_PROCESS
                      else SUCCESS
    {
      if |sessions| >= limits.whole {
        return EXCEED_GLOBAL;
      }
      var count, rest := 0, sessions;
      assert OfProcess(sessions - rest, pid) == {};
      while rest != {}
        invariant rest <= sessions && count == |OfProcess(sessions - rest, pid)|
      {
        var s :| s in rest;
        ghost var seen := OfProcess(sessions - rest, pid);
        rest := rest - {s};
        assert OfProcess(sessions - rest, pid) == if s.pid == pid then seen + {s} else seen;
        if s.pid == pid {
          count := count + 1;
        }
      }
      assert sessions - rest == sessions;
      if count >= limits.perProcess {
        return EXCEED_PROCESS;
      }
      code := SUCCESS;
    }

    /** The locked part of `CreateAuthProvider` and of `CreatAuthEventClient`. */
    method Create(newcomer: Session) returns (code: Code)
      requires forall s :: s in sessions ==> s.id != newcomer.id
      modifies this
      ensures code == Verdict(old(sessions), limits, newcomer.pid, newcomer.callback)
      ensures sessions == if code == SUCCESS then old(sessions) + {newcomer} else old(sessions)
    {
      code := CheckQuotaLocked(newcomer.pid);
      if code != SUCCESS {
        return;
      }
      var rest := sessions;
      while rest != {}
        invariant rest <= sessions
        invariant forall s :: s in sessions - rest ==> s.callback != newcomer.callback
      {
        var s :| s in rest;
        rest := rest - {s};
        if s.callback == newcomer.callback {
          return BAD_PARAM;
        }
      }
      sessions := sessions + {newcomer};
    }

    /** Rollback of a failed creation, destruction and death all end here, and may do so twice. */
    method Remove(id: nat)
      modifies this
      ensures sessions == set s | s in old(sessions) && s.id != id
    {
      sessions := set s | s in sessions && s.id != id;
    }
  }

  // ---------------------------------------------------------------- every interleaving

  datatype Event = Created(session: Session) | Removed(id: nat)

  function Apply(ss: set<Session>, l: Limits, e: Event): set<Session> {
    match e
    case Created(s) => if Verdict(ss, l, s.pid, s.callback) == SUCCESS then ss + {s} else ss
    case Removed(id) => set s | s in ss && s.id != id
  }

  function Run(l: Limits, es: seq<Event>): set<Session> {
    if es == [] then {} else Apply(Run(l, es[..|es| - 1]), l, es[|es| - 1])
  }

  /** The checks refuse a session exactly when admitting it would break a limit or share a callback. */
  lemma AdmittedExactlyWhenQuotaHolds(ss: set<Session>, l: Limits, s: Session)
    requires WithinQuota(ss, l) && s !in ss
    ensures Verdict(ss, l, s.pid, s.callback) == SUCCESS <==> WithinQuota(ss + {s}, l)
  {
    var tt := ss + {s};
    assert OfProcess(tt, s.pid) == OfProcess(ss, s.pid) + {s};
    forall pid | pid != s.pid
      ensures OfProcess(tt, pid) == OfProcess(ss, pid)
    {
    }
    if t :| t in ss && t.callback == s.callback {
      assert t in tt && s in tt;
    }
  }

  lemma RemovalKeepsQuota(ss: set<Session>, l: Limits, tt: set<Session>)
    requires WithinQuota(ss, l) && tt <= ss
    ensures WithinQuota(tt, l)
  {
    SubsetSize(tt, ss);
    forall pid
      ensures |OfProcess(tt, pid)| <= l.perProcess
    {
      SubsetSize(OfProcess(tt, pid), OfProcess(ss, pid));
    }
  }

  lemma {:induction false} QuotaHoldsInEveryRun(l: Limits, es: seq<Event>)
    ensures WithinQuota(Run(l, es), l)
  {
    if es == [] {
      assert forall pid :: OfProcess({}, pid) == {};
    } else {
      var ss, e := Run(l, es[..|es| - 1]), es[|es| - 1];
      QuotaHoldsInEveryRun(l, es[..|es| - 1]);
      if e.Removed? {
        RemovalKeepsQuota(ss, l, Apply(ss, l, e));
      } else if e.session in ss {
        assert ss + {e.session} == ss;
      } else {
        AdmittedExactlyWhenQuotaHolds(ss, l, e.session);
      }
    }
  }

  /** The session was admitted, which left the quota intact, and has not been removed since. */
  ghost predicate AdmittedSince(l: Limits, es: seq<Event>, s: Session) {
    es != [] &&
    var front, e := es[..|es| - 1], es[|es| - 1];
    (e == Created(s) && WithinQuota(Run(l, front) + {s}, l)) || (AdmittedSince(l, front, s) && e != Removed(s.id))
  }

  /** Over every run the members are exactly the sessions admitted and not removed since. */
  lemma {:induction false} MembersExactly(l: Limits, es: seq<Event>, s: Session)
    ensures s in Run(l, es) <==> AdmittedSince(l, es, s)
  {
    if es != [] {
      var front, e := es[..|es| - 1], es[|es| - 1];
      var ss := Run(l, front);
      MembersExactly(l, front, s);
      QuotaHoldsInEveryRun(l, front);
      if e == Created(s) {
        if s in ss {
          assert ss + {s} == ss;
        } else {
          AdmittedExactlyWhenQuotaHolds(ss, l, s);
        }
      }
    }
  }

  /** Why a session is refused: the global limit comes first, then that of the process, then the callback. */
  lemma RefusalsTell(ss: set<Session>, l: Limits, s: Session)
    requires WithinQuota(ss, l) && s !in ss
    ensures Verdict(ss, l, s.pid, s.callback) == EXCEED_GLOBAL <==> |ss + {s}| > l.whole
    ensures Verdict(ss, l, s.pid, s.callback) == EXCEED_PROCESS <==>
            |ss + {s}| <= l.whole && |OfProcess(ss + {s}, s.pid)| > l.perProcess
    ensures Verdict(ss, l, s.pid, s.callback) == BAD_PARAM <==>
            |ss + {s}| <= l.whole && |OfProcess(ss + {s}, s.pid)| <= l.perProcess &&
            exists t :: t in ss && t.callback == s.callback
  {
    assert OfProcess(ss + {s}, s.pid) == OfProcess(ss, s.pid) + {s};
  }

  /** At most 16 providers, one for each process, and at most 16 client sessions, two for each process. */
  lemma ConfiguredLimitsHold(es: seq<Event>, pid: Pid)
    ensures |Run(PROVIDER_LIMITS, es)| <= 16 && |OfProcess(Run(PROVIDER_LIMITS, es), pid)| <= 1
    ensures |Run(CLIENT_LIMITS, es)| <= 16 && |OfProcess(Run(CLIENT_LIMITS, es), pid)| <= 2
  {
    QuotaHoldsInEveryRun(PROVIDER_LIMITS, es);
    QuotaHoldsInEveryRun(CLIENT_LIMITS, es);
  }
}
