/** All origins at once: the refresh locks, the shared stores, and any number of refresh callers. */
module RefreshSystem {
  import opened Common
  import opened Freshness
  import opened LocalMirror
  import opened Edge
  import opened Templates
  import opened OriginRuntime
  import opened RefreshProtocol
  import opened RefreshInvariant

  /** Proof of a held lock; dropping it releases the origin. */
  datatype OriginRefreshGuard = OriginRefreshGuard(originId: string)

  class OriginRefreshLocks {
    var active: set<string>

    constructor ()
      ensures active == {}
    {
      active := {};
    }

    method TryAcquire(originId: string) returns (guard: Option<OriginRefreshGuard>)
      modifies this
      ensures guard == if originId in old(active) then None else Some(OriginRefreshGuard(originId))
      ensures active == old(active) + {originId}
    {
      if originId in active {
        return None;
      }
      active := active + {originId};
      return Some(OriginRefreshGuard(originId));
    }

    method Drop(guard: OriginRefreshGuard)
      modifies this
      ensures active == old(active) - {guard.originId}
    {
      active := active - {guard.originId};
    }
  }

  /** The disk and the four published stores, keyed by origin. */
  datatype Shared = Shared(
    live: map<string, Mirror>,
    edge: map<string, EdgeConfig>,
    templates: map<string, Registry>,
    index: map<string, OriginFreshnessIndex>,
    runtime: map<string, OriginSnapshot>)

  datatype Local = Local(hist: seq<Bucket>, backup: Option<Mirror>, task: Task, gens: seq<Generation>, tags: Tags)

  /** `guards` are the live guards by the caller that holds them. */
  datatype System = System(shared: Shared, locals: map<string, Local>, active: set<string>, guards: map<nat, string>)

  datatype SystemEvent =
    | Acquire(caller: nat, originId: string)
    | Step(caller: nat, event: Event)
    | DropGuard(caller: nat)
    | Remote(originId: string, bucket: Bucket)

  function Lookup<V>(m: map<string, V>, key: string): Option<V> {
    if key in m then Some(m[key]) else None
  }

  function Store<V>(m: map<string, V>, key: string, v: Option<V>): map<string, V> {
    if v.Some? then m[key := v.value] else m - {key}
  }

  function View(sys: System, o: string): OriginState
    requires o in sys.locals
  {
    var l, sh := sys.locals[o], sys.shared;
    OriginState(l.hist, Lookup(sh.live, o), l.backup, Lookup(sh.edge, o), Lookup(sh.templates, o), Lookup(sh.index, o),
                Lookup(sh.runtime, o), l.task, l.gens, l.tags)
  }

  function Put(sys: System, o: string, s: OriginState): System {
    var sh := sys.shared;
    sys.(shared := Shared(Store(sh.live, o, s.live), Store(sh.edge, o, s.edge), Store(sh.templates, o, s.templates),
                          Store(sh.index, o, s.index), Store(sh.runtime, o, s.runtime)),
         locals := Store(sys.locals, o, Some(Local(s.hist, s.backup, s.task, s.gens, s.tags))))
  }

  type Sites = map<string, Site>

  ghost predicate WellFormed(sites: Sites, sys: System) {
    && sys.locals.Keys == sites.Keys
    && forall o :: o in sys.locals ==> sys.locals[o].hist != []
  }

  /** A caller acquires the lock of its origin or is refused without effect, steps only while it
      holds a guard, and drops the guard when its refresh has returned. */
  ghost function SystemApply(sites: Sites, sys: System, e: SystemEvent): Option<System>
    requires WellFormed(sites, sys)
  {
    match e
    case Acquire(caller, o) =>
      if caller in sys.guards then None
      else if o !in sites || o in sys.active then Some(sys)
      else Some(sys.(active := sys.active + {o}, guards := sys.guards[caller := o]))
    case Step(caller, event) =>
      if caller !in sys.guards || sys.guards[caller] !in sites || event.RemoteWrite? then None
      else
        var o := sys.guards[caller];
        (match Apply(sites[o], View(sys, o), event)
         case None => None
         case Some(s) => Some(Put(sys, o, s)))
    case DropGuard(caller) =>
      if caller !in sys.guards || sys.guards[caller] !in sites || !sys.locals[sys.guards[caller]].task.Idle? then None
      else Some(sys.(active := sys.active - {sys.guards[caller]}, guards := sys.guards - {caller}))
    case Remote(o, bucket) =>
      if o !in sites then None else Some(Put(sys, o, View(sys, o).(hist := View(sys, o).hist + [bucket])))
  }

  lemma StaysWellFormed(sites: Sites, sys: System, e: SystemEvent)
    requires WellFormed(sites, sys) && SystemApply(sites, sys, e).Some?
    ensures WellFormed(sites, SystemApply(sites, sys, e).value)
  {
    if e.Step? {
      var o := sys.guards[e.caller];
      HistoryStays(sites[o], View(sys, o), e.event);
    }
  }

  ghost function SystemExec(sites: Sites, sys: System, events: seq<SystemEvent>): (r: Option<System>)
    requires WellFormed(sites, sys)
    ensures r.Some? ==> WellFormed(sites, r.value)
  {
    if events == [] then Some(sys)
    else match SystemExec(sites, sys, events[..|events| - 1])
      case None => None
      case Some(mid) =>
        var e := events[|events| - 1];
        if SystemApply(sites, mid, e).None? then None else StaysWellFormed(sites, mid, e); SystemApply(sites, mid, e)
  }

  predicate SystemInitial(sites: Sites, sys: System) {
    && sys.locals.Keys == sites.Keys && sys.active == {} && sys.guards == map[]
    && forall o :: o in sys.locals ==> Initial(View(sys, o))
  }

  // ----- the stores keep origins apart

  lemma PutThenView(sys: System, o: string, s: OriginState, other: string)
    requires other in sys.locals
    ensures View(Put(sys, o, s), other) == if other == o then s else View(sys, other)
  {
  }

  /** Steps of refreshes of distinct origins commute on all shared stores. */
  lemma DistinctOriginsCommute(sys: System, a: string, s: OriginState, b: string, t: OriginState)
    requires a != b
    ensures Put(Put(sys, a, s), b, t) == Put(Put(sys, b, t), a, s)
  {
    StoresCommute(sys.shared.live, a, s.live, b, t.live);
    StoresCommute(sys.shared.edge, a, s.edge, b, t.edge);
    StoresCommute(sys.shared.templates, a, s.templates, b, t.templates);
    StoresCommute(sys.shared.index, a, s.index, b, t.index);
    StoresCommute(sys.shared.runtime, a, s.runtime, b, t.runtime);
    StoresCommute(sys.locals, a, Some(Local(s.hist, s.backup, s.task, s.gens, s.tags)),
                  b, Some(Local(t.hist, t.backup, t.task, t.gens, t.tags)));
  }

  lemma StoresCommute<V>(m: map<string, V>, a: string, v: Option<V>, b: string, w: Option<V>)
    requires a != b
    ensures Store(Store(m, a, v), b, w) == Store(Store(m, b, w), a, v)
  {
    assert Store(Store(m, a, v), b, w) == Store(Store(m, b, w), a, v);
  }

  lemma StepsCommute(sites: Sites, sys: System, p: nat, e: Event, q: nat, f: Event)
    requires WellFormed(sites, sys) && p in sys.guards && q in sys.guards && sys.guards[p] != sys.guards[q]
    requires SystemApply(sites, sys, Step(p, e)).Some? && SystemApply(sites, sys, Step(q, f)).Some?
    ensures var afterP, afterQ := SystemApply(sites, sys, Step(p, e)).value, SystemApply(sites, sys, Step(q, f)).value;
      && WellFormed(sites, afterP) && WellFormed(sites, afterQ)
      && SystemApply(sites, afterP, Step(q, f)).Some?
      && SystemApply(sites, afterP, Step(q, f)) == SystemApply(sites, afterQ, Step(p, e))
  {
    var a, b := sys.guards[p], sys.guards[q];
    var s, t := Apply(sites[a], View(sys, a), e).value, Apply(sites[b], View(sys, b), f).value;
    StaysWellFormed(sites, sys, Step(p, e));
    StaysWellFormed(sites, sys, Step(q, f));
    PutThenView(sys, a, s, b);
    PutThenView(sys, b, t, a);
    DistinctOriginsCommute(sys, a, s, b, t);
  }

  // ----- lock safety

  ghost predicate LockInv(sys: System) {
    && (forall p :: p in sys.guards ==> sys.guards[p] in sys.active)
    && (forall o :: o in sys.active ==> exists p :: p in sys.guards && sys.guards[p] == o)
    && (forall p, q :: p in sys.guards && q in sys.guards && sys.guards[p] == sys.guards[q] ==> p == q)
    && (forall o :: o in sys.locals && !sys.locals[o].task.Idle? ==> o in sys.active)
  }

  lemma LockStep(sites: Sites, sys: System, e: SystemEvent)
    requires WellFormed(sites, sys) && LockInv(sys) && SystemApply(sites, sys, e).Some?
    ensures LockInv(SystemApply(sites, sys, e).value)
  {
    var after := SystemApply(sites, sys, e).value;
    match e
    case Acquire(caller, o) => AcquireStep(sites, sys, caller, o);
    case Step(caller, event) => assert after.guards == sys.guards && after.active == sys.active;
    case DropGuard(caller) => DropStep(sites, sys, caller);
    case Remote(_, _) => assert after.guards == sys.guards && after.active == sys.active;
  }

  lemma AcquireStep(sites: Sites, sys: System, caller: nat, o: string)
    requires WellFormed(sites, sys) && LockInv(sys) && SystemApply(sites, sys, Acquire(caller, o)).Some?
    ensures LockInv(SystemApply(sites, sys, Acquire(caller, o)).value)
  {
    var after := SystemApply(sites, sys, Acquire(caller, o)).value;
    forall x | x in after.active ensures exists p :: p in after.guards && after.guards[p] == x {
      if x in sys.active {
        var p :| p in sys.guards && sys.guards[p] == x;
        assert p in after.guards && after.guards[p] == x;
      } else {
        assert caller in after.guards && after.guards[caller] == x;
      }
    }
  }

  lemma DropStep(sites: Sites, sys: System, caller: nat)
    requires WellFormed(sites, sys) && LockInv(sys) && SystemApply(sites, sys, DropGuard(caller)).Some?
    ensures LockInv(SystemApply(sites, sys, DropGuard(caller)).value)
  {
    var after := SystemApply(sites, sys, DropGuard(caller)).value;
    forall x | x in after.active ensures exists p :: p in after.guards && after.guards[p] == x {
      var p :| p in sys.guards && sys.guards[p] == x;
      assert p in after.guards && after.guards[p] == x;
    }
  }

  /** For any number of callers and any interleaving, the active set is exactly the origins of the
      live guards, no origin has two guards, and a refresh runs only under its guard. */
  lemma {:induction false} LocksAreSafe(sites: Sites, sys: System, events: seq<SystemEvent>)
    requires WellFormed(sites, sys) && SystemInitial(sites, sys) && SystemExec(sites, sys, events).Some?
    ensures LockInv(SystemExec(sites, sys, events).value)
  {
    if events == [] {
      assert forall o :: o in sys.locals ==> View(sys, o).task.Idle?;
    } else {
      var init := events[..|events| - 1];
      LocksAreSafe(sites, sys, init);
      LockStep(sites, SystemExec(sites, sys, init).value, events[|events| - 1]);
    }
  }

  /** In every reachable state a caller gets the guard of an origin exactly when no caller has one: no lock is left behind. */
  lemma AcquireExactly(sites: Sites, initial: System, events: seq<SystemEvent>, caller: nat, o: string)
    requires WellFormed(sites, initial) && SystemInitial(sites, initial) && SystemExec(sites, initial, events).Some?
    requires caller !in SystemExec(sites, initial, events).value.guards
    ensures var sys := SystemExec(sites, initial, events).value; var r := SystemApply(sites, sys, Acquire(caller, o));
      && r.Some? && (caller in r.value.guards <==> o in sites && forall other :: other in sys.guards ==> sys.guards[other] != o)
      && (caller in r.value.guards ==> r.value.guards == sys.guards[caller := o])
  {
    LocksAreSafe(sites, initial, events);
  }

  // ----- each origin runs the single-origin protocol

  /** The events of a system run that concern one origin. */
  ghost function Project(sites: Sites, sys: System, events: seq<SystemEvent>, o: string): seq<Event>
    requires WellFormed(sites, sys) && SystemExec(sites, sys, events).Some?
  {
    if events == [] then []
    else
      var init, e := events[..|events| - 1], events[|events| - 1];
      var mid := SystemExec(sites, sys, init).value;
      Project(sites, sys, init, o) + EventsOf(mid, e, o)
  }

  ghost function EventsOf(sys: System, e: SystemEvent, o: string): seq<Event>
    requires e.Step? ==> e.caller in sys.guards
  {
    if e.Step? && sys.guards[e.caller] == o then [e.event]
    else if e.Remote? && e.originId == o then [RemoteWrite(e.bucket)]
    else []
  }

  /** One event of the system is no event or one for an origin. */
  lemma StepAlone(sites: Sites, sys: System, e: SystemEvent, o: string)
    requires WellFormed(sites, sys) && SystemApply(sites, sys, e).Some? && o in sites
    ensures var events := EventsOf(sys, e, o);
      if events == [] then View(SystemApply(sites, sys, e).value, o) == View(sys, o)
      else |events| == 1 && Apply(sites[o], View(sys, o), events[0]) == Some(View(SystemApply(sites, sys, e).value, o))
  {
    if e.Step? {
      var p := sys.guards[e.caller];
      PutThenView(sys, p, Apply(sites[p], View(sys, p), e.event).value, o);
    } else if e.Remote? {
      PutThenView(sys, e.originId, View(sys, e.originId).(hist := View(sys, e.originId).hist + [e.bucket]), o);
    }
  }

  /** Whatever the other origins do, an origin's part of the shared stores is what the run of its
      own events alone would have made: every theorem about one origin holds for each of them. */
  lemma {:induction false} OriginsRunAlone(sites: Sites, sys: System, events: seq<SystemEvent>, o: string)
    requires WellFormed(sites, sys) && SystemExec(sites, sys, events).Some? && o in sites
    ensures Exec(sites[o], View(sys, o), Project(sites, sys, events, o)) == Some(View(SystemExec(sites, sys, events).value, o))
  {
    if events != [] {
      var init, e := events[..|events| - 1], events[|events| - 1];
      var mid := SystemExec(sites, sys, init).value;
      OriginsRunAlone(sites, sys, init, o);
      StepAlone(sites, mid, e, o);
      var before, all := Project(sites, sys, init, o), Project(sites, sys, events, o);
      assert all == before + EventsOf(mid, e, o);
      if EventsOf(mid, e, o) == [] {
        assert all == before;
      } else {
        assert all[..|all| - 1] == before;
      }
    }
  }
}
