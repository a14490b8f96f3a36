/** Ingest idempotency: concurrent requests that look up, insert, collide and commit against the two tables
    with their unique constraints. */
module Idempotency {
  import opened Basics
  import opened Tables

  /** A row carries the request whose open transaction inserted it; None once committed. Unique indexes
      cover uncommitted rows too. */
  datatype App = App(name: string, owner: Option<nat>)
  datatype Event = Event(app: nat, key: string, owner: Option<nat>)

  datatype Phase =
    | SelectApp
    | InsertApp
    | SelectEvent(app: nat)
    | InsertEvent(app: nat)
    | Uncommitted(app: nat, event: nat)
    | Committed(event: nat)
    | Returned(event: nat, duplicate: bool)
    | Failed
    | Died(event: nat)                      // after its commit, before its return

  datatype Request = Request(name: string, key: string, phase: Phase)

  datatype Db = Db(apps: map<nat, App>, events: map<nat, Event>, requests: seq<Request>, nextId: nat)

  const EMPTY := Db(map[], map[], [], 0)

  /** One statement of one request. `Select` carries what the query returned, `Conflict` the committed row a
      unique constraint reports, which the request reads again after its rollback. */
  datatype Step =
    | Arrive(name: string, key: string)
    | Select(r: nat, found: Option<nat>)
    | Insert(r: nat)
    | Conflict(r: nat, existing: nat)
    | Commit(r: nat)
    | Return(r: nat)
    | Abort(r: nat)

  predicate Sees(owner: Option<nat>, r: nat) {
    owner == None || owner == Some(r)
  }

  predicate IsAppOf(db: Db, id: nat, name: string) {
    id in db.apps && db.apps[id].name == name
  }

  predicate IsEventOf(db: Db, id: nat, app: nat, key: string) {
    id in db.events && db.events[id].app == app && db.events[id].key == key
  }

  predicate Enabled(db: Db, step: Step) {
    step.Arrive? ||
    (step.r < |db.requests| &&
     var q := db.requests[step.r];
     match step
     case Arrive(_, _) => true
     case Select(r, found) =>
       (match q.phase
        case SelectApp =>
          (match found
           case Some(id) => IsAppOf(db, id, q.name) && Sees(db.apps[id].owner, r)
           case None => forall id <- db.apps.Keys :: IsAppOf(db, id, q.name) ==> !Sees(db.apps[id].owner, r))
        case SelectEvent(app) =>
          (match found
           case Some(id) => IsEventOf(db, id, app, q.key) && Sees(db.events[id].owner, r)
           case None => forall id <- db.events.Keys :: IsEventOf(db, id, app, q.key) ==> !Sees(db.events[id].owner, r))
        case _ => false)
     case Insert(r) =>
       (match q.phase
        case InsertApp => forall id <- db.apps.Keys :: !IsAppOf(db, id, q.name)
        case InsertEvent(app) => forall id <- db.events.Keys :: !IsEventOf(db, id, app, q.key)
        case _ => false)
     case Conflict(r, id) =>
       (match q.phase
        case InsertApp => IsAppOf(db, id, q.name) && db.apps[id].owner == None
        case InsertEvent(app) => IsEventOf(db, id, app, q.key) && db.events[id].owner == None
        case _ => false)
     case Commit(r) => q.phase.Uncommitted?
     case Return(r) => q.phase.Committed?
     case Abort(r) => !q.phase.Returned? && !q.phase.Died?)
  }

  function SetPhase(db: Db, r: nat, phase: Phase): (db': Db)
    requires r < |db.requests|
  {
    db.(requests := db.requests[r := db.requests[r].(phase := phase)])
  }

  /** Rolls back the open transaction of request r. */
  function Rollback(db: Db, r: nat): (db': Db) {
    db.(apps := map id | id in db.apps && db.apps[id].owner != Some(r) :: db.apps[id],
        events := map id | id in db.events && db.events[id].owner != Some(r) :: db.events[id])
  }

  /** Commits the open transaction of request r. */
  function Release(db: Db, r: nat): (db': Db) {
    db.(apps := map id | id in db.apps ::
                  if db.apps[id].owner == Some(r) then db.apps[id].(owner := None) else db.apps[id],
        events := map id | id in db.events ::
                    if db.events[id].owner == Some(r) then db.events[id].(owner := None) else db.events[id])
  }

  function Next(db: Db, step: Step): (db': Db) {
    if !Enabled(db, step) then db else
      match step
      case Arrive(name, key) => db.(requests := db.requests + [Request(name, key, SelectApp)])
      case Select(r, found) =>
        var q := db.requests[r];
        (match found
         case Some(id) => SetPhase(db, r, if q.phase.SelectApp? then SelectEvent(id) else Returned(id, true))
         case None => SetPhase(db, r, if q.phase.SelectApp? then InsertApp else InsertEvent(q.phase.app)))
      case Insert(r) =>
        var q := db.requests[r];
        var id := db.nextId;
        if q.phase.InsertApp? then
          SetPhase(db.(apps := db.apps[id := App(q.name, Some(r))], nextId := id + 1), r, SelectEvent(id))
        else
          SetPhase(db.(events := db.events[id := Event(q.phase.app, q.key, Some(r))], nextId := id + 1), r,
                   Uncommitted(q.phase.app, id))
      case Conflict(r, id) =>
        SetPhase(Rollback(db, r), r, if db.requests[r].phase.InsertApp? then SelectEvent(id) else Returned(id, true))
      case Commit(r) => SetPhase(Release(db, r), r, Committed(db.requests[r].phase.event))
      case Return(r) => SetPhase(db, r, Returned(db.requests[r].phase.event, false))
      case Abort(r) =>
        SetPhase(Rollback(db, r), r,
                 if db.requests[r].phase.Committed? then Died(db.requests[r].phase.event) else Failed)
  }

  function Run(db: Db, steps: seq<Step>): (db': Db)
    decreases |steps|
  {
    if steps == [] then db else Run(Next(db, steps[0]), steps[1..])
  }

  // ---------------------------------------------------------------------------------------------

  ghost predicate Unique(db: Db) {
    && (forall i <- db.apps.Keys, j <- db.apps.Keys :: db.apps[i].name == db.apps[j].name ==> i == j)
    && (forall i <- db.events.Keys, j <- db.events.Keys ::
          db.events[i].app == db.events[j].app && db.events[i].key == db.events[j].key ==> i == j)
    && (forall i <- db.apps.Keys :: i < db.nextId)
    && (forall i <- db.events.Keys :: i < db.nextId)
  }

  predicate WorksWith(phase: Phase, app: nat) {
    (phase.SelectEvent? || phase.InsertEvent? || phase.Uncommitted?) && phase.app == app
  }

  /** An uncommitted row belongs to the request that is working with it. */
  ghost predicate AppOk(db: Db, id: nat)
    requires id in db.apps
  {
    db.apps[id].owner.Some? ==>
      var r := db.apps[id].owner.value;
      r < |db.requests| && db.requests[r].name == db.apps[id].name && WorksWith(db.requests[r].phase, id)
  }

  ghost predicate EventOk(db: Db, id: nat)
    requires id in db.events
  {
    var event := db.events[id];
    && event.app in db.apps
    && (event.owner.None? ==> db.apps[event.app].owner.None?)
    && (event.owner.Some? ==>
          var r := event.owner.value;
          r < |db.requests| && db.requests[r].phase == Uncommitted(event.app, id) && db.requests[r].key == event.key)
  }

  ghost predicate RequestOk(db: Db, r: nat)
    requires r < |db.requests|
  {
    var q := db.requests[r];
    match q.phase
    case SelectApp => true
    case InsertApp => true
    case SelectEvent(app) => IsAppOf(db, app, q.name) && Sees(db.apps[app].owner, r)
    case InsertEvent(app) => IsAppOf(db, app, q.name) && Sees(db.apps[app].owner, r)
    case Uncommitted(app, id) =>
      IsAppOf(db, app, q.name) && Sees(db.apps[app].owner, r) && id in db.events && db.events[id] == Event(app, q.key, Some(r))
    case Committed(id) => IsStored(db, id, q)
    case Returned(id, _) => IsStored(db, id, q)
    case Failed => true
    case Died(id) => IsStored(db, id, q)
  }

  /** The event of the request's application and key is committed. */
  ghost predicate IsStored(db: Db, id: nat, q: Request) {
    && id in db.events && db.events[id].owner == None && db.events[id].key == q.key
    && IsAppOf(db, db.events[id].app, q.name) && db.apps[db.events[id].app].owner == None
  }

  /** The request whose commit stored the event, whatever became of it afterwards. */
  predicate IsCreator(phase: Phase) {
    phase.Committed? || phase.Died? || (phase.Returned? && !phase.duplicate)
  }

  ghost predicate OneCreator(db: Db) {
    forall a, b ::
      0 <= a < b < |db.requests| && IsCreator(db.requests[a].phase) && IsCreator(db.requests[b].phase) ==>
        db.requests[a].phase.event != db.requests[b].phase.event
  }

  ghost predicate Inv(db: Db) {
    && Unique(db)
    && AppsOk(db) && EventsOk(db) && RequestsOk(db)
    && OneCreator(db)
  }

  ghost predicate AppsOk(db: Db) {
    forall id <- db.apps.Keys :: AppOk(db, id)
  }

  ghost predicate EventsOk(db: Db) {
    forall id <- db.events.Keys :: EventOk(db, id)
  }

  ghost predicate RequestsOk(db: Db) {
    forall r :: 0 <= r < |db.requests| ==> RequestOk(db, r)
  }

  /** A step of one request that leaves both tables alone. */
  lemma PhaseKeepsInv(db: Db, r: nat, phase: Phase)
    requires Inv(db) && r < |db.requests| && RequestOk(SetPhase(db, r, phase), r)
    requires IsCreator(phase) ==> IsCreator(db.requests[r].phase) && phase.event == db.requests[r].phase.event
    requires forall id <- db.apps.Keys :: db.apps[id].owner == Some(r) ==> WorksWith(phase, id)
    requires forall id <- db.events.Keys :: db.events[id].owner != Some(r)
    ensures Inv(SetPhase(db, r, phase))
  {
    var db' := SetPhase(db, r, phase);
    forall id <- db'.apps.Keys ensures AppOk(db', id) {
      assert AppOk(db, id);
    }
    forall id <- db'.events.Keys ensures EventOk(db', id) {
      assert EventOk(db, id);
    }
    forall q | 0 <= q < |db'.requests| ensures RequestOk(db', q) {
      if q != r {
        assert RequestOk(db, q);
      }
    }
  }

  /** Only a request in its last phase has an uncommitted event, and only one that works with an
      application has an uncommitted application. */
  lemma OwnedRows(db: Db, r: nat)
    requires Inv(db) && r < |db.requests|
    ensures !db.requests[r].phase.Uncommitted? ==> forall id <- db.events.Keys :: db.events[id].owner != Some(r)
    ensures forall id <- db.apps.Keys :: db.apps[id].owner == Some(r) ==> WorksWith(db.requests[r].phase, id)
  {
    forall id <- db.events.Keys ensures !db.requests[r].phase.Uncommitted? ==> db.events[id].owner != Some(r) {
      assert EventOk(db, id);
    }
    forall id <- db.apps.Keys ensures db.apps[id].owner == Some(r) ==> WorksWith(db.requests[r].phase, id) {
      assert AppOk(db, id);
    }
  }

  lemma SelectKeepsInv(db: Db, r: nat, found: Option<nat>)
    requires Inv(db) && Enabled(db, Select(r, found))
    ensures Inv(Next(db, Select(r, found)))
  {
    assert RequestOk(db, r);
    OwnedRows(db, r);
    if found.Some? && db.requests[r].phase.SelectEvent? {
      assert EventOk(db, found.value);
    }
    PhaseKeepsInv(db, r, Next(db, Select(r, found)).requests[r].phase);
  }

  lemma InsertAppKeepsRows(db: Db, r: nat)
    requires Inv(db) && Enabled(db, Insert(r)) && db.requests[r].phase.InsertApp?
    ensures AppsOk(Next(db, Insert(r))) && EventsOk(Next(db, Insert(r)))
  {
    var db' := Next(db, Insert(r));
    OwnedRows(db, r);
    forall id <- db'.apps.Keys ensures AppOk(db', id) {
      assert id != db.nextId ==> AppOk(db, id);
    }
    forall id <- db'.events.Keys ensures EventOk(db', id) {
      assert EventOk(db, id);
    }
  }

  lemma InsertAppKeepsInv(db: Db, r: nat)
    requires Inv(db) && Enabled(db, Insert(r)) && db.requests[r].phase.InsertApp?
    ensures Inv(Next(db, Insert(r)))
  {
    var db' := Next(db, Insert(r));
    InsertAppKeepsRows(db, r);
    forall q | 0 <= q < |db'.requests| ensures RequestOk(db', q) {
      assert RequestOk(db, q);
    }
    assert forall id <- db.apps.Keys :: !IsAppOf(db, id, db.requests[r].name);
  }

  lemma InsertEventKeepsRows(db: Db, r: nat)
    requires Inv(db) && Enabled(db, Insert(r)) && db.requests[r].phase.InsertEvent?
    ensures AppsOk(Next(db, Insert(r))) && EventsOk(Next(db, Insert(r)))
  {
    var db' := Next(db, Insert(r));
    OwnedRows(db, r);
    forall id <- db'.apps.Keys ensures AppOk(db', id) {
      assert AppOk(db, id);
    }
    assert RequestOk(db, r);
    forall id <- db'.events.Keys ensures EventOk(db', id) {
      assert id != db.nextId ==> EventOk(db, id);
    }
  }

  lemma InsertEventKeepsInv(db: Db, r: nat)
    requires Inv(db) && Enabled(db, Insert(r)) && db.requests[r].phase.InsertEvent?
    ensures Inv(Next(db, Insert(r)))
  {
    var db' := Next(db, Insert(r));
    InsertEventKeepsRows(db, r);
    forall q | 0 <= q < |db'.requests| ensures RequestOk(db', q) {
      assert RequestOk(db, q);
    }
    assert forall id <- db.events.Keys :: !IsEventOf(db, id, db.requests[r].phase.app, db.requests[r].key);
  }

  lemma TransactionKeepsUnique(db: Db, r: nat)
    requires Unique(db)
    ensures Unique(Rollback(db, r)) && Unique(Release(db, r))
  {
  }

  lemma RollbackKeepsRows(db: Db, r: nat)
    requires Inv(db) && r < |db.requests|
    ensures var db' := SetPhase(Rollback(db, r), r, Failed);
            AppsOk(db') && EventsOk(db')
  {
    var db' := SetPhase(Rollback(db, r), r, Failed);
    forall id <- db'.apps.Keys ensures AppOk(db', id) {
      assert AppOk(db, id);
    }
    forall id <- db'.events.Keys ensures EventOk(db', id) {
      RollbackKeepsEvent(db, r, id);
    }
  }

  lemma RollbackKeepsEvent(db: Db, r: nat, id: nat)
    requires Inv(db) && r < |db.requests| && id in db.events && db.events[id].owner != Some(r)
    ensures EventOk(SetPhase(Rollback(db, r), r, Failed), id)
  {
    assert EventOk(db, id);
    if db.events[id].owner.Some? {
      assert RequestOk(db, db.events[id].owner.value);
    }
  }

  lemma RollbackKeepsInv(db: Db, r: nat)
    requires Inv(db) && r < |db.requests|
    ensures Inv(SetPhase(Rollback(db, r), r, Failed))
  {
    var db' := SetPhase(Rollback(db, r), r, Failed);
    TransactionKeepsUnique(db, r);
    RollbackKeepsRows(db, r);
    forall q | 0 <= q < |db'.requests| ensures RequestOk(db', q) {
      assert RequestOk(db, q);
    }
  }

  lemma ConflictKeepsInv(db: Db, r: nat, id: nat)
    requires Inv(db) && Enabled(db, Conflict(r, id))
    ensures Inv(Next(db, Conflict(r, id)))
  {
    var failed := SetPhase(Rollback(db, r), r, Failed);
    var phase := Next(db, Conflict(r, id)).requests[r].phase;
    RollbackKeepsInv(db, r);
    assert RequestOk(db, r);
    if db.requests[r].phase.InsertEvent? {
      assert EventOk(db, id);
    }
    assert SetPhase(failed, r, phase) == Next(db, Conflict(r, id));
    PhaseKeepsInv(failed, r, phase);
  }

  lemma CommitKeepsRows(db: Db, r: nat)
    requires Inv(db) && Enabled(db, Commit(r))
    ensures AppsOk(Next(db, Commit(r))) && EventsOk(Next(db, Commit(r)))
  {
    var db' := Next(db, Commit(r));
    forall id <- db'.apps.Keys ensures AppOk(db', id) {
      assert AppOk(db, id);
    }
    forall id <- db'.events.Keys ensures EventOk(db', id) {
      CommitKeepsEvent(db, r, id);
    }
  }

  lemma CommitKeepsEvent(db: Db, r: nat, id: nat)
    requires Inv(db) && Enabled(db, Commit(r)) && id in db.events
    ensures EventOk(Next(db, Commit(r)), id)
  {
    assert RequestOk(db, r) && EventOk(db, id) && AppOk(db, db.events[id].app);
  }

  lemma CommitKeepsRequests(db: Db, r: nat, q: nat)
    requires Inv(db) && Enabled(db, Commit(r)) && q < |db.requests|
    ensures RequestOk(Next(db, Commit(r)), q)
  {
    assert RequestOk(db, r) && RequestOk(db, q);
  }

  /** An uncommitted event has no creator yet. */
  lemma CommitIsFirst(db: Db, r: nat, q: nat)
    requires Inv(db) && Enabled(db, Commit(r)) && q < |db.requests| && IsCreator(db.requests[q].phase)
    ensures db.requests[q].phase.event != db.requests[r].phase.event
  {
    assert RequestOk(db, r) && RequestOk(db, q);
  }

  lemma CommitKeepsInv(db: Db, r: nat)
    requires Inv(db) && Enabled(db, Commit(r))
    ensures Inv(Next(db, Commit(r)))
  {
    var db' := Next(db, Commit(r));
    TransactionKeepsUnique(db, r);
    CommitKeepsRows(db, r);
    forall q | 0 <= q < |db'.requests|
      ensures RequestOk(db', q)
      ensures q != r && IsCreator(db.requests[q].phase) ==> db.requests[q].phase.event != db.requests[r].phase.event
    {
      CommitKeepsRequests(db, r, q);
      if IsCreator(db.requests[q].phase) {
        CommitIsFirst(db, r, q);
      }
    }
    assert forall q :: 0 <= q < |db'.requests| && q != r ==> db'.requests[q] == db.requests[q];
  }

  /** After its commit a request returns or dies; neither touches the tables. */
  lemma LeaveKeepsInv(db: Db, r: nat, phase: Phase)
    requires Inv(db) && r < |db.requests| && db.requests[r].phase.Committed?
    requires phase == Returned(db.requests[r].phase.event, false) || phase == Died(db.requests[r].phase.event)
    ensures Inv(SetPhase(db, r, phase))
  {
    assert RequestOk(db, r);
    OwnedRows(db, r);
    PhaseKeepsInv(db, r, phase);
  }

  lemma AbortKeepsInv(db: Db, r: nat)
    requires Inv(db) && Enabled(db, Abort(r))
    ensures Inv(Next(db, Abort(r)))
  {
    if db.requests[r].phase.Committed? {
      OwnedRows(db, r);
      assert Rollback(db, r) == db;
      LeaveKeepsInv(db, r, Died(db.requests[r].phase.event));
    } else {
      RollbackKeepsInv(db, r);
    }
  }

  lemma ArriveKeepsInv(db: Db, name: string, key: string)
    requires Inv(db)
    ensures Inv(Next(db, Arrive(name, key)))
  {
    var db' := Next(db, Arrive(name, key));
    forall id <- db'.apps.Keys ensures AppOk(db', id) {
      assert AppOk(db, id);
    }
    forall id <- db'.events.Keys ensures EventOk(db', id) {
      assert EventOk(db, id);
    }
    forall q | 0 <= q < |db'.requests| ensures RequestOk(db', q) {
      assert q < |db.requests| ==> RequestOk(db, q);
    }
  }

  lemma StepKeepsInv(db: Db, step: Step)
    requires Inv(db)
    ensures Inv(Next(db, step))
  {
    if Enabled(db, step) {
      match step
      case Arrive(name, key) => ArriveKeepsInv(db, name, key);
      case Select(r, found) => SelectKeepsInv(db, r, found);
      case Insert(r) =>
        if db.requests[r].phase.InsertApp? {
          InsertAppKeepsInv(db, r);
        } else {
          InsertEventKeepsInv(db, r);
        }
      case Conflict(r, id) => ConflictKeepsInv(db, r, id);
      case Commit(r) => CommitKeepsInv(db, r);
      case Return(r) => LeaveKeepsInv(db, r, Returned(db.requests[r].phase.event, false));
      case Abort(r) => AbortKeepsInv(db, r);
    }
  }

  predicate Creates(db: Db, r: nat, id: nat) {
    r < |db.requests| && IsCreator(db.requests[r].phase) && db.requests[r].phase.event == id
  }

  predicate IsCommitted(db: Db, id: nat) {
    id in db.events && db.events[id].owner == None
  }

  ghost predicate HasCreator(db: Db, id: nat) {
    exists r :: Creates(db, r, id)
  }

  /** Every committed event was committed by some request. */
  ghost predicate Created(db: Db) {
    forall id <- db.events.Keys :: IsCommitted(db, id) ==> HasCreator(db, id)
  }

  lemma CreatorStays(db: Db, step: Step, r: nat, id: nat)
    requires Creates(db, r, id)
    ensures Creates(Next(db, step), r, id)
  {
  }

  lemma NewlyCommitted(db: Db, step: Step, id: nat)
    requires Inv(db) && IsCommitted(Next(db, step), id) && !IsCommitted(db, id)
    ensures HasCreator(Next(db, step), id)
  {
    assert step.Commit? && EventOk(db, id);
    assert Creates(Next(db, step), step.r, id);
  }

  lemma StepKeepsCreated(db: Db, step: Step)
    requires Inv(db) && Created(db)
    ensures Created(Next(db, step))
  {
    var db' := Next(db, step);
    forall id <- db'.events.Keys | IsCommitted(db', id) ensures HasCreator(db', id) {
      if IsCommitted(db, id) {
        var r :| Creates(db, r, id);
        CreatorStays(db, step, r, id);
      } else {
        NewlyCommitted(db, step, id);
      }
    }
  }

  lemma {:induction false} RunKeepsCreated(db: Db, steps: seq<Step>)
    requires Inv(db) && Created(db)
    ensures Inv(Run(db, steps)) && Created(Run(db, steps))
    decreases |steps|
  {
    if steps != [] {
      StepKeepsInv(db, steps[0]);
      StepKeepsCreated(db, steps[0]);
      RunKeepsCreated(Next(db, steps[0]), steps[1..]);
    }
  }

  /** Over every interleaving there is at most one row per application and key, all requests that return for
      it return the same id, and at most one of them reports it as new. */
  lemma IngestIsIdempotent(steps: seq<Step>, a: nat, b: nat)
    requires var db := Run(EMPTY, steps);
             && a < b < |db.requests| && db.requests[a].phase.Returned? && db.requests[b].phase.Returned?
             && db.requests[a].name == db.requests[b].name && db.requests[a].key == db.requests[b].key
    ensures var db := Run(EMPTY, steps);
            && Unique(db)
            && db.requests[a].phase.event == db.requests[b].phase.event
            && (db.requests[a].phase.duplicate || db.requests[b].phase.duplicate)
  {
    var db := Run(EMPTY, steps);
    RunKeepsCreated(EMPTY, steps);
    assert RequestOk(db, a) && RequestOk(db, b);
  }

  ghost predicate IsReportedNew(db: Db, id: nat) {
    exists r :: 0 <= r < |db.requests| && db.requests[r].phase == Returned(id, false)
  }

  predicate HasDead(db: Db, r: nat, id: nat) {
    r < |db.requests| && db.requests[r].phase == Died(id)
  }

  lemma CreatorIsUnique(db: Db, r: nat, q: nat, id: nat)
    requires OneCreator(db) && Creates(db, r, id) && Creates(db, q, id)
    ensures q == r
  {
  }

  lemma {:induction false} DeadStays(db: Db, steps: seq<Step>, r: nat, id: nat)
    requires HasDead(db, r, id)
    ensures HasDead(Run(db, steps), r, id)
    decreases |steps|
  {
    if steps != [] {
      assert HasDead(Next(db, steps[0]), r, id);
      DeadStays(Next(db, steps[0]), steps[1..], r, id);
    }
  }

  lemma DeadMeansUnreported(db: Db, r: nat, id: nat)
    requires OneCreator(db) && HasDead(db, r, id)
    ensures !IsReportedNew(db, id)
  {
    if q :| 0 <= q < |db.requests| && db.requests[q].phase == Returned(id, false) {
      CreatorIsUnique(db, r, q, id);
    }
  }

  /** Exactly one request commits an event. It is reported as new by that request or by none; and it never
      will be if and only if that request died between its commit and its return. */
  lemma OneRequestCreates(steps: seq<Step>, id: nat)
    requires IsCommitted(Run(EMPTY, steps), id)
    ensures var db := Run(EMPTY, steps);
            && HasCreator(db, id)
            && (forall r, q :: Creates(db, r, id) && Creates(db, q, id) ==> r == q)
            && ((forall later :: !IsReportedNew(Run(db, later), id)) <==> exists r :: HasDead(db, r, id))
  {
    var db := Run(EMPTY, steps);
    RunKeepsCreated(EMPTY, steps);
    assert HasCreator(db, id);
    var r :| Creates(db, r, id);
    forall p, q | Creates(db, p, id) && Creates(db, q, id) ensures p == q {
      CreatorIsUnique(db, p, q, id);
    }
    if HasDead(db, r, id) {
      forall later ensures !IsReportedNew(Run(db, later), id) {
        DeadStays(db, later, r, id);
        RunKeepsCreated(db, later);
        DeadMeansUnreported(Run(db, later), r, id);
      }
    } else {
      assert forall q :: HasDead(db, q, id) ==> Creates(db, q, id);
      CreatorMayReport(db, r, id);
    }
  }

  lemma CreatorMayReport(db: Db, r: nat, id: nat)
    requires Creates(db, r, id) && !HasDead(db, r, id)
    ensures exists later :: IsReportedNew(Run(db, later), id)
  {
    if db.requests[r].phase.Returned? {
      assert IsReportedNew(Run(db, []), id);
    } else {
      var db' := Next(db, Return(r));
      assert db'.requests[r].phase == Returned(id, false);
      assert Run(db, [Return(r)]) == Run(db', []) by {
        assert [Return(r)][1..] == [];
      }
      assert IsReportedNew(Run(db, [Return(r)]), id);
    }
  }

  // ---------------------------------------------------------------------------------------------
  // What a request that nobody interferes with is told

  ghost predicate NothingOpen(db: Db) {
    && (forall id <- db.apps.Keys :: db.apps[id].owner == None)
    && (forall id <- db.events.Keys :: db.events[id].owner == None)
  }

  /** The steps of one request. */
  predicate IsRequestRun(steps: seq<Step>, r: nat) {
    forall k :: 0 <= k < |steps| ==> !steps[k].Arrive? && steps[k].r == r
  }

  /** The event of an application and key is in the tables. */
  ghost predicate IsKnown(db: Db, name: string, key: string) {
    exists app, id :: IsAppOf(db, app, name) && IsEventOf(db, id, app, key)
  }

  lemma ThreeSteps(db: Db, a: Step, b: Step, c: Step)
    ensures Run(db, [a] + [b] + [c]) == Next(Next(Next(db, a), b), c)
  {
    var db1 := Next(db, a);
    var db2 := Next(db1, b);
    assert ([a] + [b] + [c])[1..] == [b] + [c] && ([b] + [c])[1..] == [c] && [c][1..] == [];
    assert Run(db2, [c]) == Run(Next(db2, c), []);
    assert Run(db1, [b] + [c]) == Run(db2, [c]);
  }

  lemma {:induction false} RunAppend(db: Db, first: seq<Step>, second: seq<Step>)
    ensures Run(db, first + second) == Run(Run(db, first), second)
    decreases |first|
  {
    if first == [] {
      assert first + second == second;
    } else {
      assert (first + second)[1..] == first[1..] + second;
      RunAppend(Next(db, first[0]), first[1..], second);
    }
  }

  lemma OneStep(db: Db, step: Step)
    ensures Run(db, [step]) == Next(db, step)
  {
    assert [step][1..] == [];
    assert Run(db, [step]) == Run(Next(db, step), []);
  }

  /** From the event query on, with its application at hand. */
  lemma InsertsOrFinds(db: Db, r: nat, app: nat) returns (steps: seq<Step>, id: nat, duplicate: bool)
    requires r < |db.requests| && db.requests[r].phase == SelectEvent(app)
    requires forall i <- db.events.Keys :: db.events[i].owner == None
    ensures IsRequestRun(steps, r) && r < |Run(db, steps).requests|
    ensures Run(db, steps).requests[r] == db.requests[r].(phase := Returned(id, duplicate))
    ensures duplicate <==> exists i :: IsEventOf(db, i, app, db.requests[r].key)
    ensures duplicate ==> IsEventOf(db, id, app, db.requests[r].key)
  {
    if i :| IsEventOf(db, i, app, db.requests[r].key) {
      OneStep(db, Select(r, Some(i)));
      steps, id, duplicate := [Select(r, Some(i))], i, true;
    } else {
      var db1 := Next(db, Select(r, None));
      assert db1 == SetPhase(db, r, InsertEvent(app));
      var db2 := Next(db1, Insert(r));
      assert db2.requests[r].phase == Uncommitted(app, db.nextId);
      ThreeSteps(db, Select(r, None), Insert(r), Commit(r));
      var three := [Select(r, None)] + [Insert(r)] + [Commit(r)];
      RunAppend(db, three, [Return(r)]);
      OneStep(Run(db, three), Return(r));
      steps, id, duplicate := three + [Return(r)], db.nextId, false;
    }
  }

  /** The application query, and its insertion if there is none yet. */
  lemma FindsApplication(db: Db, r: nat) returns (steps: seq<Step>, app: nat)
    requires Inv(db) && NothingOpen(db) && r < |db.requests| && db.requests[r].phase == SelectApp
    ensures var end := Run(db, steps);
            && IsRequestRun(steps, r) && r < |end.requests| && end.requests[r] == db.requests[r].(phase := SelectEvent(app))
            && end.events == db.events
    ensures if exists i :: IsAppOf(db, i, db.requests[r].name) then IsAppOf(db, app, db.requests[r].name)
            else app !in db.apps
  {
    var name := db.requests[r].name;
    if i :| IsAppOf(db, i, name) {
      OneStep(db, Select(r, Some(i)));
      steps, app := [Select(r, Some(i))], i;
    } else {
      var db1 := Next(db, Select(r, None));
      assert db1 == SetPhase(db, r, InsertApp);
      OneStep(db, Select(r, None));
      OneStep(db1, Insert(r));
      RunAppend(db, [Select(r, None)], [Insert(r)]);
      steps, app := [Select(r, None)] + [Insert(r)], db.nextId;
    }
  }

  /** A request that runs alone on tables without open transactions returns the event of its application and
      key, and reports a duplicate exactly when that event was there before. */
  lemma UnhinderedRequestReturns(db: Db, r: nat) returns (steps: seq<Step>, id: nat, duplicate: bool)
    requires Inv(db) && NothingOpen(db) && r < |db.requests| && db.requests[r].phase == SelectApp
    ensures var end := Run(db, steps);
            && IsRequestRun(steps, r) && r < |end.requests| && end.requests[r].phase == Returned(id, duplicate)
            && (duplicate <==> IsKnown(db, db.requests[r].name, db.requests[r].key))
            && id in end.events && end.events[id].key == db.requests[r].key
            && IsAppOf(end, end.events[id].app, db.requests[r].name)
  {
    var first, app := FindsApplication(db, r);
    var middle := Run(db, first);
    var rest, i, d := InsertsOrFinds(middle, r, app);
    RunAppend(db, first, rest);
    steps, id, duplicate := first + rest, i, d;
    KnownIff(db, db.requests[r].name, db.requests[r].key, app);
    RunKeepsInv(db, steps);
    assert RequestOk(Run(db, steps), r);
    assert forall j :: IsEventOf(middle, j, app, db.requests[r].key) <==> IsEventOf(db, j, app, db.requests[r].key);
  }

  lemma KnownIff(db: Db, name: string, key: string, app: nat)
    requires Inv(db)
    requires if exists i :: IsAppOf(db, i, name) then IsAppOf(db, app, name) else app !in db.apps
    ensures IsKnown(db, name, key) <==> exists id :: IsEventOf(db, id, app, key)
  {
    if id :| IsEventOf(db, id, app, key) {
      assert EventOk(db, id);
    }
  }

  lemma {:induction false} RunKeepsInv(db: Db, steps: seq<Step>)
    requires Inv(db)
    ensures Inv(Run(db, steps))
    decreases |steps|
  {
    if steps != [] {
      StepKeepsInv(db, steps[0]);
      RunKeepsInv(Next(db, steps[0]), steps[1..]);
    }
  }

  // ---------------------------------------------------------------------------------------------
  // A request that lost a race

  /** Nobody else has an open transaction. */
  ghost predicate OthersClosed(db: Db, r: nat) {
    && (forall id <- db.apps.Keys :: Sees(db.apps[id].owner, r))
    && (forall id <- db.events.Keys :: Sees(db.events[id].owner, r))
  }

  predicate IsLive(phase: Phase) {
    !phase.Failed? && !phase.Died?
  }

  /** The steps are the request's own and end with its return. */
  ghost predicate ReturnsBy(db: Db, r: nat, steps: seq<Step>) {
    var end := Run(db, steps);
    IsRequestRun(steps, r) && r < |end.requests| && end.requests[r].phase.Returned?
  }

  lemma ReturnsLater(db: Db, r: nat, step: Step, rest: seq<Step>)
    requires !step.Arrive? && step.r == r && ReturnsBy(Next(db, step), r, rest)
    ensures ReturnsBy(db, r, [step] + rest)
  {
    assert ([step] + rest)[1..] == rest;
  }

  lemma CommitsAndReturns(db: Db, r: nat) returns (steps: seq<Step>)
    requires r < |db.requests| && (db.requests[r].phase.Uncommitted? || db.requests[r].phase.Committed?)
    ensures ReturnsBy(db, r, steps)
  {
    if db.requests[r].phase.Committed? {
      OneStep(db, Return(r));
      steps := [Return(r)];
    } else {
      var db' := Next(db, Commit(r));
      OneStep(db', Return(r));
      assert ReturnsBy(db', r, [Return(r)]);
      ReturnsLater(db, r, Commit(r), [Return(r)]);
      steps := [Commit(r)] + [Return(r)];
    }
  }

  /** The insertion of the event: it succeeds, or the constraint reports the row that another request stored. */
  lemma InsertsOrCollides(db: Db, r: nat) returns (steps: seq<Step>)
    requires Inv(db) && OthersClosed(db, r) && r < |db.requests| && db.requests[r].phase.InsertEvent?
    ensures ReturnsBy(db, r, steps)
  {
    var app, key := db.requests[r].phase.app, db.requests[r].key;
    OwnedRows(db, r);
    if i :| IsEventOf(db, i, app, key) {
      OneStep(db, Conflict(r, i));
      steps := [Conflict(r, i)];
    } else {
      var rest := CommitsAndReturns(Next(db, Insert(r)), r);
      ReturnsLater(db, r, Insert(r), rest);
      steps := [Insert(r)] + rest;
    }
  }

  lemma SelectsEvent(db: Db, r: nat) returns (steps: seq<Step>)
    requires Inv(db) && OthersClosed(db, r) && r < |db.requests| && db.requests[r].phase.SelectEvent?
    ensures ReturnsBy(db, r, steps)
  {
    OwnedRows(db, r);
    var own, id, duplicate := InsertsOrFinds(db, r, db.requests[r].phase.app);
    steps := own;
  }

  lemma StepKeepsClosed(db: Db, step: Step, r: nat)
    requires OthersClosed(db, r) && !step.Arrive? && step.r == r
    ensures OthersClosed(Next(db, step), r)
  {
  }

  /** The insertion of the application, which may lose a race as well. */
  lemma InsertsApplication(db: Db, r: nat) returns (steps: seq<Step>)
    requires Inv(db) && OthersClosed(db, r) && r < |db.requests| && db.requests[r].phase.InsertApp?
    ensures ReturnsBy(db, r, steps)
  {
    OwnedRows(db, r);
    var step := Insert(r);
    if i :| IsAppOf(db, i, db.requests[r].name) {
      step := Conflict(r, i);
    }
    StepKeepsInv(db, step);
    StepKeepsClosed(db, step, r);
    var rest := SelectsEvent(Next(db, step), r);
    ReturnsLater(db, r, step, rest);
    steps := [step] + rest;
  }

  lemma SelectsApplication(db: Db, r: nat) returns (steps: seq<Step>)
    requires Inv(db) && OthersClosed(db, r) && r < |db.requests| && db.requests[r].phase.SelectApp?
    ensures ReturnsBy(db, r, steps)
  {
    OwnedRows(db, r);
    var found: Option<nat> := None;
    if i :| IsAppOf(db, i, db.requests[r].name) {
      found := Some(i);
    }
    var step := Select(r, found);
    StepKeepsInv(db, step);
    StepKeepsClosed(db, step, r);
    var rest;
    if found.Some? {
      rest := SelectsEvent(Next(db, step), r);
    } else {
      rest := InsertsApplication(Next(db, step), r);
    }
    ReturnsLater(db, r, step, rest);
    steps := [step] + rest;
  }

  /** Wherever a request stands, and whichever races it lost, once the others have closed their transactions it
      can finish by its own steps: it returns the stored event of its application and key. */
  lemma LiveRequestCanReturn(db: Db, r: nat) returns (steps: seq<Step>)
    requires Inv(db) && OthersClosed(db, r) && r < |db.requests| && IsLive(db.requests[r].phase)
    ensures ReturnsBy(db, r, steps)
    ensures var end := Run(db, steps);
            IsStored(end, end.requests[r].phase.event, end.requests[r])
  {
    match db.requests[r].phase {
      case SelectApp => steps := SelectsApplication(db, r);
      case InsertApp => steps := InsertsApplication(db, r);
      case SelectEvent(_) => steps := SelectsEvent(db, r);
      case InsertEvent(_) => steps := InsertsOrCollides(db, r);
      case Uncommitted(_, _) => steps := CommitsAndReturns(db, r);
      case Committed(_) => steps := CommitsAndReturns(db, r);
      case Returned(_, _) => steps := [];
    }
    RunKeepsInv(db, steps);
    assert RequestOk(Run(db, steps), r);
  }
}
