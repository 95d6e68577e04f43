/** The bootstrap protocol of a Kubernetes operator charm: N units run `configure_charm` hooks,
    stage by stage and interleaved, while leadership moves and pods are replaced.
    Databag writes and local stored state are committed when a hook ends. */
module Bootstrap {
  import opened Text

  /** What a charm fixes: whether it declares a `peers` relation, and its `db_sync_cmds`. */
  datatype Config = Config(hasPeers: bool, commands: seq<string>)

  type UnitId = nat

  const SYNC_LABEL := "db-sync"

  /** The calls `configure_charm` makes inside its guard, in order. */
  datatype Stage =
    | UpdateRelations | CheckLeaderReady | CheckRelations | OpenPorts | ConfigureContainers
    | DbSync | InitServices | CheckPebble | MarkBootstrapped | ConfigureApp | PostConfig
  {
    function Rank(): nat {
      match this
      case UpdateRelations => 0
      case CheckLeaderReady => 1
      case CheckRelations => 2
      case OpenPorts => 3
      case ConfigureContainers => 4
      case DbSync => 5
      case InitServices => 6
      case CheckPebble => 7
      case MarkBootstrapped => 8
      case ConfigureApp => 9
      case PostConfig => 10
    }
  }

  function Successor(stage: Stage): (next: Stage)
    requires stage != PostConfig
    ensures next.Rank() == stage.Rank() + 1
  {
    match stage
    case UpdateRelations => CheckLeaderReady
    case CheckLeaderReady => CheckRelations
    case CheckRelations => OpenPorts
    case OpenPorts => ConfigureContainers
    case ConfigureContainers => DbSync
    case DbSync => InitServices
    case InitServices => CheckPebble
    case CheckPebble => MarkBootstrapped
    case MarkBootstrapped => ConfigureApp
    case ConfigureApp => PostConfig
  }

  /** The stages before the one of rank `rank`, in order. */
  function Earlier(rank: nat): (r: seq<Stage>)
    requires rank <= 10
    ensures |r| == rank
    ensures rank > 0 ==> r[rank - 1].Rank() == rank - 1
  {
    if rank == 0 then [] else
    var before := Earlier(rank - 1);
    before + [if rank == 1 then UpdateRelations else Successor(Last(before))]
  }

  lemma EarlierEndsBefore(stage: Stage)
    requires stage != PostConfig
    ensures Earlier(stage.Rank() + 1) == Earlier(stage.Rank()) + [stage]
  {
    RankIsInjective(Earlier(stage.Rank() + 1)[stage.Rank()], stage);
  }

  lemma RankIsInjective(a: Stage, b: Stage)
    requires a.Rank() == b.Rank()
    ensures a == b
  {
  }

  datatype Status = Unknown | Active | Waiting | Blocked | Maintenance

  datatype Failure = EarlyExit | BlockedError | WaitingError | MaintenanceError | OtherError

  /** How `guard` turns what was raised into the workload status. */
  function GuardStatus(e: Failure, before: Status): Status {
    match e
    case EarlyExit => before
    case BlockedError => Blocked
    case WaitingError => Waiting
    case MaintenanceError => Maintenance
    case OtherError => Blocked
  }

  /** Stored state on the pod: the `run_once` labels and `unit_bootstrapped`. */
  datatype Local = Local(labels: set<string>, bootstrapped: bool)

  /** How a stored flag came to be set: by the leader, or after passing the published gate. */
  datatype Origin = Led | SawReady | Neither

  /** History of one pod, committed with its stored state: who set the label and the flag. */
  datatype Past = Past(sync: Option<Origin>, bootstrap: Option<Origin>)

  const NO_PAST := Past(None, None)

  /** History of one hook: the stages that returned, whether it passed the gate as a non-leader. */
  datatype Trail = Trail(passed: seq<Stage>, gate: bool, past: Past)

  const NO_TRAIL := Trail([], false, NO_PAST)

  /** A hook in progress: next stage, sync commands done, uncommitted stored state, uncommitted
      `leader_ready` write, and its history. */
  datatype Hook =
    | Idle
    | Running(stage: Stage, done: nat, work: Local, publish: bool, trail: Trail)

  /** What one stage does: raises, stays (one more sync command ran), or returns. */
  datatype StageResult = Raises(e: Failure) | Stays(h: Hook, command: string) | Returns(h: Hook)

  /** `is_leader_ready`: true without a peers relation, false before the relation exists. */
  predicate SeesLeaderReady(c: Config, peersCreated: bool, flag: bool) {
    !c.hasPeers || (peersCreated && flag)
  }

  function StageBody(c: Config, leader: bool, peersCreated: bool, ready: bool, h: Hook): (r: StageResult)
    requires h.Running?
    ensures r.Returns? ==> r.h.Running? && r.h.stage == h.stage && r.h.trail == h.trail
    ensures r.Stays? ==> h.stage == DbSync && r.h == h.(done := h.done + 1)
  {
    var seen := SeesLeaderReady(c, peersCreated, ready || h.publish);
    match h.stage
    case CheckLeaderReady =>
      if c.hasPeers && !(leader || seen) then Raises(WaitingError) else Returns(h)
    case DbSync =>
      if SYNC_LABEL in h.work.labels then Returns(h)
      else if leader && h.done < |c.commands| then Stays(h.(done := h.done + 1), c.commands[h.done])
      else Returns(h.(work := h.work.(labels := h.work.labels + {SYNC_LABEL})))
    case MarkBootstrapped =>
      Returns(h.(work := h.work.(bootstrapped := true)))
    case ConfigureApp =>
      if leader then Returns(h.(publish := h.publish || (c.hasPeers && peersCreated)))
      else if h.work.bootstrapped && seen then Returns(h)
      else Raises(WaitingError)
    case _ => Returns(h)
  }

  /** What is noted when a stage returns. */
  function Noted(c: Config, leads: bool, h: Hook): Trail
    requires h.Running?
  {
    var origin := if leads then Led else if h.trail.gate then SawReady else Neither;
    var t := h.trail.(passed := h.trail.passed + [h.stage]);
    match h.stage
    case CheckLeaderReady => t.(gate := c.hasPeers && !leads)
    case DbSync => if SYNC_LABEL in h.work.labels then t else t.(past := t.past.(sync := Some(origin)))
    case MarkBootstrapped => if h.work.bootstrapped then t else t.(past := t.past.(bootstrap := Some(origin)))
    case _ => t
  }

  datatype UnitState = UnitState(local: Local, hook: Hook, status: Status, past: Past)

  const FRESH_UNIT := UnitState(Local({}, false), Idle, Unknown, NO_PAST)

  /** `database` logs the sync commands that succeeded; `syncedBy` is history: the units that completed
      all commands as leader in one hook. */
  datatype State = State(
    units: map<UnitId, UnitState>, leader: Option<UnitId>, peersCreated: bool, ready: bool,
    database: seq<string>, syncedBy: set<UnitId>)

  const INIT := State(map[], None, false, false, [], {})

  datatype Event =
    | AddUnit(u: UnitId) | RemoveUnit(u: UnitId) | ReplacePod(u: UnitId)
    | CreatePeers | MoveLeader(to: Option<UnitId>)
    | StartHook(u: UnitId) | Advance(u: UnitId)
    | Raise(u: UnitId, e: Failure)   // the stage under way raises
    | Crash(u: UnitId)               // the hook dies without committing

  predicate Running(s: State, u: UnitId) {
    u in s.units && s.units[u].hook.Running?
  }

  /** The guarded section is over: stored state and databag writes are committed. */
  function EndHook(s: State, u: UnitId, status: Status): State
    requires Running(s, u)
  {
    var h := s.units[u].hook;
    s.(units := s.units[u := UnitState(h.work, Idle, status, h.trail.past)], ready := s.ready || h.publish)
  }

  function AdvanceHook(c: Config, s: State, u: UnitId): State
    requires Running(s, u)
  {
    var unit := s.units[u];
    var h := unit.hook;
    var leads := s.leader == Some(u);
    match StageBody(c, leads, s.peersCreated, s.ready, h)
    case Raises(e) => EndHook(s, u, GuardStatus(e, unit.status))
    case Stays(h', command) =>
      s.(units := s.units[u := unit.(hook := h')], database := s.database + [command])
    case Returns(h') =>
      var s' := s.(syncedBy := if h.stage == DbSync && leads && SYNC_LABEL !in h.work.labels
                               then s.syncedBy + {u} else s.syncedBy);
      var noted := h'.(trail := Noted(c, leads, h));
      if h.stage == PostConfig then EndHook(s'.(units := s.units[u := unit.(hook := noted)]), u, Active)
      else s'.(units := s.units[u := unit.(hook := noted.(stage := Successor(h.stage)))])
  }

  /** One step; an event that cannot happen changes nothing. */
  function Next(c: Config, s: State, e: Event): State {
    match e
    case AddUnit(u) =>
      if u in s.units then s else s.(units := s.units[u := FRESH_UNIT])
    case RemoveUnit(u) =>
      s.(units := s.units - {u}, leader := if s.leader == Some(u) then None else s.leader)
    case ReplacePod(u) =>
      if u in s.units then s.(units := s.units[u := FRESH_UNIT]) else s
    case CreatePeers => if c.hasPeers then s.(peersCreated := true) else s
    case MoveLeader(to) =>
      if to.None? || to.value in s.units then s.(leader := to) else s
    case StartHook(u) =>
      if u in s.units && s.units[u].hook.Idle? then
        var hook := Hook.Running(UpdateRelations, 0, s.units[u].local, false, NO_TRAIL.(past := s.units[u].past));
        s.(units := s.units[u := s.units[u].(hook := hook)])
      else s
    case Advance(u) => if Running(s, u) then AdvanceHook(c, s, u) else s
    case Raise(u, f) =>
      if Running(s, u) then EndHook(s, u, GuardStatus(f, s.units[u].status)) else s
    case Crash(u) =>
      if u in s.units then s.(units := s.units[u := s.units[u].(hook := Idle)]) else s
  }

  function Exec(c: Config, s: State, es: seq<Event>): State
    decreases |es|
  {
    if es == [] then s else Next(c, Exec(c, s, Front(es)), Last(es))
  }

  /** The assumption on Juju: leadership is neither taken from nor given to a unit inside a hook. */
  predicate Stable(s: State, e: Event) {
    e.MoveLeader? ==>
      (s.leader.Some? ==> !Running(s, s.leader.value)) && (e.to.Some? ==> !Running(s, e.to.value))
  }

  predicate StableRun(c: Config, es: seq<Event>)
    decreases |es|
  {
    es == [] || (StableRun(c, Front(es)) && Stable(Exec(c, INIT, Front(es)), Last(es)))
  }

  /** All sync commands ran, in order and back to back. */
  ghost predicate Synced(commands: seq<string>, database: seq<string>) {
    exists k: nat :: SyncedAt(commands, database, k)
  }

  predicate SyncedAt(commands: seq<string>, database: seq<string>, k: nat) {
    k + |commands| <= |database| && database[k..k + |commands|] == commands
  }

  // ---------------------------------------------------------------- the inductive invariant

  /** The flag was set by a leader once someone had synced, or by a unit that saw `leader_ready`. */
  predicate Justified(s: State, origin: Option<Origin>) {
    (origin == Some(Led) && s.syncedBy != {}) || (origin == Some(SawReady) && s.ready)
  }

  predicate LocalJustified(s: State, l: Local, past: Past) {
    && (SYNC_LABEL in l.labels ==> Justified(s, past.sync))
    && (l.bootstrapped ==> Justified(s, past.bootstrap))
  }

  /** What a hook has established at its stage. */
  predicate StageReached(c: Config, s: State, u: UnitId, h: Hook)
    requires h.Running?
  {
    var rank := h.stage.Rank();
    && h.trail.passed == Earlier(rank)
    && (h.trail.gate ==> s.ready)
    && (rank > CheckLeaderReady.Rank() && s.leader != Some(u) ==> h.trail.gate)
    && (rank > DbSync.Rank() ==> SYNC_LABEL in h.work.labels)
    && (rank < DbSync.Rank() ==> h.done == 0)
    && (h.publish ==> h.stage == PostConfig && s.syncedBy != {})
  }

  /** The commands a leader has run in this hook are the last ones in the database. */
  predicate SyncUnderWay(c: Config, s: State, u: UnitId, h: Hook)
    requires h.Running?
  {
    h.stage == DbSync && s.leader == Some(u) && SYNC_LABEL !in h.work.labels ==>
      h.done <= |c.commands| && h.done <= |s.database| && s.database[|s.database| - h.done..] == c.commands[..h.done]
  }

  predicate HookJustified(c: Config, s: State, u: UnitId, h: Hook) {
    h.Running? ==> LocalJustified(s, h.work, h.trail.past) && StageReached(c, s, u, h) && SyncUnderWay(c, s, u, h)
  }

  predicate UnitJustified(c: Config, s: State, u: UnitId)
    requires u in s.units
  {
    && LocalJustified(s, s.units[u].local, s.units[u].past)
    && HookJustified(c, s, u, s.units[u].hook)
    && (s.units[u].status == Active ==> s.syncedBy != {})
  }

  ghost predicate Inv(c: Config, s: State) {
    && (s.ready ==> s.syncedBy != {})
    && (s.syncedBy != {} ==> Synced(c.commands, s.database))
    && forall u :: u in s.units ==> UnitJustified(c, s, u)
  }

  lemma SyncedGrows(commands: seq<string>, database: seq<string>, command: string)
    requires Synced(commands, database)
    ensures Synced(commands, database + [command])
  {
    var k: nat :| SyncedAt(commands, database, k);
    assert (database + [command])[k..k + |commands|] == database[k..k + |commands|];
    assert SyncedAt(commands, database + [command], k);
  }

  /** Steps that leave the shared state and every other unit alone keep the invariant. */
  lemma OneUnitChanges(c: Config, s: State, s': State, u: UnitId)
    requires Inv(c, s)
    requires u in s'.units && s'.units - {u} == s.units - {u}
    requires s'.leader == s.leader && s'.database == s.database
    requires s.syncedBy <= s'.syncedBy && (s.ready ==> s'.ready) && (s'.ready ==> s'.syncedBy != {})
    requires s'.syncedBy != {} ==> Synced(c.commands, s'.database)
    requires UnitJustified(c, s', u)
    ensures Inv(c, s')
  {
    forall v | v in s'.units && v != u ensures UnitJustified(c, s', v) {
      assert v in s'.units - {u} && (s'.units - {u})[v] == s'.units[v];
      assert v in s.units - {u} && (s.units - {u})[v] == s.units[v];
      assert UnitJustified(c, s, v);
    }
  }

  lemma SyncCommandRuns(c: Config, s: State, u: UnitId)
    requires c.hasPeers && Inv(c, s) && Running(s, u)
    requires StageBody(c, s.leader == Some(u), s.peersCreated, s.ready, s.units[u].hook).Stays?
    ensures Inv(c, AdvanceHook(c, s, u))
  {
    var s' := AdvanceHook(c, s, u);
    var h := s.units[u].hook;
    var n, d := |s.database|, h.done;
    assert UnitJustified(c, s, u);
    assert s'.database[|s'.database| - (d + 1)..] == s.database[n - d..] + [c.commands[d]];
    if s.syncedBy != {} {
      SyncedGrows(c.commands, s.database, c.commands[d]);
    }
    forall v | v in s'.units ensures UnitJustified(c, s', v) {
      assert UnitJustified(c, s, v);
    }
  }

  lemma SyncStageReturns(c: Config, s: State, u: UnitId)
    requires Inv(c, s) && Running(s, u)
    requires StageBody(c, s.leader == Some(u), s.peersCreated, s.ready, s.units[u].hook).Returns?
    ensures AdvanceHook(c, s, u).syncedBy != {} ==> Synced(c.commands, s.database)
  {
    var h := s.units[u].hook;
    assert UnitJustified(c, s, u);
    if h.stage == DbSync && s.leader == Some(u) && SYNC_LABEL !in h.work.labels {
      var k := |s.database| - h.done;
      assert h.done == |c.commands| && c.commands[..h.done] == c.commands;
      assert s.database[k..k + |c.commands|] == s.database[k..];
      assert SyncedAt(c.commands, s.database, k);
    }
  }

  /** The hook `u` goes on with after a stage returned. */
  function NextHook(c: Config, s: State, u: UnitId): Hook
    requires Running(s, u) && s.units[u].hook.stage != PostConfig
    requires StageBody(c, s.leader == Some(u), s.peersCreated, s.ready, s.units[u].hook).Returns?
  {
    var h := s.units[u].hook;
    var h' := StageBody(c, s.leader == Some(u), s.peersCreated, s.ready, h).h;
    h'.(trail := Noted(c, s.leader == Some(u), h), stage := Successor(h.stage))
  }

  lemma NextHookIs(c: Config, s: State, u: UnitId)
    requires Running(s, u) && s.units[u].hook.stage != PostConfig
    requires StageBody(c, s.leader == Some(u), s.peersCreated, s.ready, s.units[u].hook).Returns?
    ensures var s' := AdvanceHook(c, s, u);
            && s'.units[u] == s.units[u].(hook := NextHook(c, s, u)) && s'.ready == s.ready && s'.leader == s.leader
            && s'.database == s.database && s.syncedBy <= s'.syncedBy
            && (s.units[u].hook.stage == DbSync && s.leader == Some(u) && SYNC_LABEL !in s.units[u].hook.work.labels ==>
                  s'.syncedBy != {})
  {
  }

  /** The stored state a stage leaves is justified by the history it leaves. */
  lemma ReturnedWorkJustified(c: Config, s: State, s': State, u: UnitId)
    requires c.hasPeers && Running(s, u) && s.units[u].hook.stage != PostConfig
    requires HookJustified(c, s, u, s.units[u].hook)
    requires StageBody(c, s.leader == Some(u), s.peersCreated, s.ready, s.units[u].hook).Returns?
    requires s'.ready == s.ready && s.syncedBy <= s'.syncedBy && (s.ready ==> s.syncedBy != {})
    requires s.units[u].hook.stage == DbSync && s.leader == Some(u) && SYNC_LABEL !in s.units[u].hook.work.labels ==>
               s'.syncedBy != {}
    ensures LocalJustified(s', NextHook(c, s, u).work, NextHook(c, s, u).trail.past)
  {
  }

  lemma ReturnedStageReached(c: Config, s: State, s': State, u: UnitId)
    requires c.hasPeers && Running(s, u) && s.units[u].hook.stage != PostConfig
    requires HookJustified(c, s, u, s.units[u].hook)
    requires StageBody(c, s.leader == Some(u), s.peersCreated, s.ready, s.units[u].hook).Returns?
    requires s'.ready == s.ready && s.syncedBy <= s'.syncedBy && (s.ready ==> s.syncedBy != {}) && s'.leader == s.leader
    ensures StageReached(c, s', u, NextHook(c, s, u)) && SyncUnderWay(c, s', u, NextHook(c, s, u))
  {
    EarlierEndsBefore(s.units[u].hook.stage);
  }

  /** The unit that moved on to its next stage (or finished) is justified. */
  lemma ReturnedUnitJustified(c: Config, s: State, u: UnitId)
    requires c.hasPeers && Running(s, u) && UnitJustified(c, s, u) && (s.ready ==> s.syncedBy != {})
    requires StageBody(c, s.leader == Some(u), s.peersCreated, s.ready, s.units[u].hook).Returns?
    ensures UnitJustified(c, AdvanceHook(c, s, u), u)
  {
    var h := s.units[u].hook;
    var s' := AdvanceHook(c, s, u);
    if h.stage == PostConfig {
      assert s'.units[u] == UnitState(h.work, Idle, Active, h.trail.past);
    } else {
      NextHookIs(c, s, u);
      ReturnedWorkJustified(c, s, s', u);
      ReturnedStageReached(c, s, s', u);
    }
  }

  lemma StageReturns(c: Config, s: State, u: UnitId)
    requires c.hasPeers && Inv(c, s) && Running(s, u)
    requires StageBody(c, s.leader == Some(u), s.peersCreated, s.ready, s.units[u].hook).Returns?
    ensures Inv(c, AdvanceHook(c, s, u))
  {
    assert UnitJustified(c, s, u);
    SyncStageReturns(c, s, u);
    ReturnedUnitJustified(c, s, u);
    OneUnitChanges(c, s, AdvanceHook(c, s, u), u);
  }

  lemma AdvanceKeepsInv(c: Config, s: State, u: UnitId)
    requires c.hasPeers && Inv(c, s) && Running(s, u)
    ensures Inv(c, AdvanceHook(c, s, u))
  {
    match StageBody(c, s.leader == Some(u), s.peersCreated, s.ready, s.units[u].hook)
    case Raises(f) => EndKeepsInv(c, s, u, GuardStatus(f, s.units[u].status));
    case Stays(_, _) => SyncCommandRuns(c, s, u);
    case Returns(_) => StageReturns(c, s, u);
  }

  /** Steps of Juju and of the operator of the model, outside hooks. */
  lemma SurroundingsKeepInv(c: Config, s: State, e: Event)
    requires c.hasPeers && Inv(c, s) && Stable(s, e)
    requires e.RemoveUnit? || e.CreatePeers? || e.MoveLeader?
    ensures Inv(c, Next(c, s, e))
  {
    var s' := Next(c, s, e);
    forall v | v in s'.units ensures UnitJustified(c, s', v) {
      assert UnitJustified(c, s, v);
    }
  }

  /** A new pod, or a new hook on an idle one. */
  lemma BeginningKeepsInv(c: Config, s: State, e: Event, u: UnitId)
    requires Inv(c, s) && e in {AddUnit(u), ReplacePod(u), StartHook(u)}
    ensures Inv(c, Next(c, s, e))
  {
    var s' := Next(c, s, e);
    if s' != s {
      if u in s.units { assert UnitJustified(c, s, u); }
      OneUnitChanges(c, s, s', u);
    }
  }

  lemma CrashKeepsInv(c: Config, s: State, u: UnitId)
    requires Inv(c, s)
    ensures Inv(c, Next(c, s, Crash(u)))
  {
    if u in s.units {
      assert UnitJustified(c, s, u);
      OneUnitChanges(c, s, Next(c, s, Crash(u)), u);
    }
  }

  lemma EndKeepsInv(c: Config, s: State, u: UnitId, status: Status)
    requires Inv(c, s) && Running(s, u) && (status == Active ==> s.units[u].status == Active)
    ensures Inv(c, EndHook(s, u, status))
  {
    assert UnitJustified(c, s, u);
    OneUnitChanges(c, s, EndHook(s, u, status), u);
  }

  /** Every stable step of every unit keeps the invariant. */
  lemma NextKeepsInv(c: Config, s: State, e: Event)
    requires c.hasPeers && Inv(c, s) && Stable(s, e)
    ensures Inv(c, Next(c, s, e))
  {
    if e.Advance? {
      if Running(s, e.u) { AdvanceKeepsInv(c, s, e.u); }
    } else if e.RemoveUnit? || e.CreatePeers? || e.MoveLeader? {
      SurroundingsKeepInv(c, s, e);
    } else if e.Raise? {
      if Running(s, e.u) { EndKeepsInv(c, s, e.u, GuardStatus(e.e, s.units[e.u].status)); }
    } else if e.Crash? {
      CrashKeepsInv(c, s, e.u);
    } else {
      BeginningKeepsInv(c, s, e, e.u);
    }
  }

  lemma {:induction false} RunKeepsInv(c: Config, es: seq<Event>)
    requires c.hasPeers && StableRun(c, es)
    ensures Inv(c, Exec(c, INIT, es))
    decreases |es|
  {
    if es != [] {
      RunKeepsInv(c, Front(es));
      NextKeepsInv(c, Exec(c, INIT, Front(es)), Last(es));
    }
  }

  // ---------------------------------------------------------------- main results

  /** Nothing downstream of `leader_ready` happens before a leader has synced. */
  ghost predicate Safe(c: Config, s: State) {
    && (s.ready ==> s.syncedBy != {} && Synced(c.commands, s.database))
    && forall u :: u in s.units && s.units[u].status == Active ==>
         s.syncedBy != {} && Synced(c.commands, s.database)
  }

  /** Safety over every stable run of any number of units. */
  lemma LeaderReadyOnlyAfterSync(c: Config, es: seq<Event>)
    requires c.hasPeers && StableRun(c, es)
    ensures Safe(c, Exec(c, INIT, es))
  {
    RunKeepsInv(c, es);
    var s := Exec(c, INIT, es);
    forall u | u in s.units && s.units[u].status == Active
      ensures s.syncedBy != {} && Synced(c.commands, s.database)
    {
      assert UnitJustified(c, s, u);
    }
  }

  /** A "db-sync" label or `unit_bootstrapped` flag on a pod was recorded by that pod, in a hook that it
      led when some leader had synced, or in which it passed the published gate. */
  lemma StoredStateIsJustified(c: Config, es: seq<Event>, u: UnitId)
    requires c.hasPeers && StableRun(c, es) && u in Exec(c, INIT, es).units
    ensures var s := Exec(c, INIT, es); var pod := s.units[u];
            && (SYNC_LABEL in pod.local.labels ==> Justified(s, pod.past.sync))
            && (pod.local.bootstrapped ==> Justified(s, pod.past.bootstrap))
  {
    RunKeepsInv(c, es);
    assert UnitJustified(c, Exec(c, INIT, es), u);
  }

  /** `leader_ready` is never withdrawn, whatever happens. */
  lemma {:induction false} LeaderReadyIsMonotone(c: Config, s: State, es: seq<Event>)
    requires s.ready
    ensures Exec(c, s, es).ready
    decreases |es|
  {
    if es != [] {
      LeaderReadyIsMonotone(c, s, Front(es));
    }
  }

  lemma ActivatedByTheLastStage(c: Config, s: State, e: Event, u: UnitId)
    requires var s' := Next(c, s, e); u in s'.units && s'.units[u].status == Active
    requires !(u in s.units && s.units[u].status == Active)
    ensures e == Advance(u) && Running(s, u) && s.units[u].hook.stage == PostConfig
  {
  }

  /** A hook has passed exactly the stages before the one it is at. */
  predicate InOrder(h: Hook) {
    h.Running? ==> h.trail.passed == Earlier(h.stage.Rank())
  }

  predicate AllInOrder(s: State) {
    forall u :: u in s.units ==> InOrder(s.units[u].hook)
  }

  lemma AdvanceKeepsOrder(c: Config, s: State, u: UnitId)
    requires Running(s, u) && InOrder(s.units[u].hook)
    ensures u in AdvanceHook(c, s, u).units && InOrder(AdvanceHook(c, s, u).units[u].hook)
  {
    var h := s.units[u].hook;
    if StageBody(c, s.leader == Some(u), s.peersCreated, s.ready, h).Returns? && h.stage != PostConfig {
      NextHookIs(c, s, u);
      EarlierEndsBefore(h.stage);
    }
  }

  lemma OthersUntouched(c: Config, s: State, u: UnitId, v: UnitId)
    requires Running(s, u) && v != u
    ensures v in AdvanceHook(c, s, u).units <==> v in s.units
    ensures v in s.units ==> AdvanceHook(c, s, u).units[v] == s.units[v]
  {
  }

  lemma NextKeepsOrder(c: Config, s: State, e: Event)
    requires AllInOrder(s)
    ensures AllInOrder(Next(c, s, e))
  {
    if e.Advance? && Running(s, e.u) {
      AdvanceKeepsOrder(c, s, e.u);
      forall v | v in AdvanceHook(c, s, e.u).units && v != e.u ensures InOrder(AdvanceHook(c, s, e.u).units[v].hook) {
        OthersUntouched(c, s, e.u, v);
      }
    }
  }

  lemma {:induction false} RunKeepsOrder(c: Config, es: seq<Event>)
    ensures AllInOrder(Exec(c, INIT, es))
    decreases |es|
  {
    if es != [] {
      RunKeepsOrder(c, Front(es));
      NextKeepsOrder(c, Exec(c, INIT, Front(es)), Last(es));
    }
  }

  /** The workload turns active only at the end of a hook whose earlier stages all returned: on every
      run, also without a peers relation and with leadership moving inside hooks. */
  lemma ActiveOnlyAfterAllStages(c: Config, es: seq<Event>, e: Event, u: UnitId)
    requires var s, s' := Exec(c, INIT, es), Next(c, Exec(c, INIT, es), e);
             u in s'.units && s'.units[u].status == Active
             && !(u in s.units && s.units[u].status == Active)
    ensures e == Advance(u)
    ensures var s := Exec(c, INIT, es);
            Running(s, u) && s.units[u].hook.stage == PostConfig
            && s.units[u].hook.trail.passed == Earlier(PostConfig.Rank())
  {
    RunKeepsOrder(c, es);
    ActivatedByTheLastStage(c, Exec(c, INIT, es), e, u);
  }

  // ---------------------------------------------------------------- the assumptions are needed

  /** Units may become active with no leader ever having synced exactly when the charm
      declares no peers relation. */
  lemma SafeOnEveryRunIffPeers(c: Config)
    ensures (forall es :: StableRun(c, es) ==> Safe(c, Exec(c, INIT, es))) <==> c.hasPeers
  {
    if c.hasPeers {
      forall es | StableRun(c, es) ensures Safe(c, Exec(c, INIT, es)) {
        LeaderReadyOnlyAfterSync(c, es);
      }
    } else {
      var start := [AddUnit(0), StartHook(0)];
      assert Front(start) == [AddUnit(0)] && Front([AddUnit(0)]) == [];
      var es := NonLeaderHook(c, start, 0);
      assert !Safe(c, Exec(c, INIT, es)) by {
        assert Exec(c, INIT, es).units[0].status == Active;
      }
    }
  }

  predicate UnsyncedNonLeader(s: State, u: UnitId) {
    && Running(s, u) && s.leader == None && s.syncedBy == {}
    && (s.units[u].hook.stage.Rank() > MarkBootstrapped.Rank() ==> s.units[u].hook.work.bootstrapped)
  }

  lemma NonLeaderPasses(c: Config, s: State, u: UnitId)
    requires !c.hasPeers && UnsyncedNonLeader(s, u)
    ensures var s', stage := Next(c, s, Advance(u)), s.units[u].hook.stage;
            if stage == PostConfig
            then u in s'.units && s'.units[u].status == Active && s'.syncedBy == {}
            else UnsyncedNonLeader(s', u) && s'.units[u].hook.stage == Successor(stage)
  {
  }

  /** Without a peers relation a non-leader's hook runs through and records the label unsynced. */
  lemma {:induction false} NonLeaderHook(c: Config, es: seq<Event>, u: UnitId) returns (run: seq<Event>)
    requires !c.hasPeers && StableRun(c, es)
    requires UnsyncedNonLeader(Exec(c, INIT, es), u)
    ensures StableRun(c, run)
    ensures var s := Exec(c, INIT, run);
            u in s.units && s.units[u].status == Active && s.syncedBy == {}
    decreases 11 - Exec(c, INIT, es).units[u].hook.stage.Rank()
  {
    var s := Exec(c, INIT, es);
    run := es + [Advance(u)];
    assert Front(run) == es;
    NonLeaderPasses(c, s, u);
    if s.units[u].hook.stage != PostConfig {
      run := NonLeaderHook(c, run, u);
    }
  }

  lemma Then(c: Config, es: seq<Event>, e: Event) returns (run: seq<Event>)
    ensures run == es + [e] && Exec(c, INIT, run) == Next(c, Exec(c, INIT, es), e)
  {
    run := es + [e];
    assert Front(run) == es;
  }

  /** Unit 0 is inside a hook, the peer relation exists, and nobody has synced. */
  predicate Unsynced(s: State, leader: Option<UnitId>, stage: Stage) {
    && Running(s, 0) && s.units[0].hook.stage == stage && s.leader == leader
    && s.peersCreated && s.syncedBy == {}
    && (stage.Rank() > DbSync.Rank() ==> SYNC_LABEL in s.units[0].hook.work.labels)
    && (stage == PostConfig ==> s.units[0].hook.publish)
  }

  lemma UnsyncedAdvance(c: Config, es: seq<Event>, leader: Option<UnitId>, stage: Stage) returns (run: seq<Event>)
    requires c.hasPeers && Unsynced(Exec(c, INIT, es), leader, stage) && stage != PostConfig
    requires leader == Some(0) || leader == None
    requires leader == None ==> stage in {CheckRelations, OpenPorts, ConfigureContainers, DbSync}
    requires leader == Some(0) ==> stage != DbSync
    ensures Unsynced(Exec(c, INIT, run), leader, Successor(stage))
  {
    run := Then(c, es, Advance(0));
  }

  lemma LeaderReachesTheGate(c: Config) returns (es: seq<Event>)
    requires c.hasPeers
    ensures Unsynced(Exec(c, INIT, es), Some(0), UpdateRelations)
  {
    es := Then(c, [], AddUnit(0));
    es := Then(c, es, CreatePeers);
    es := Then(c, es, MoveLeader(Some(0)));
    es := Then(c, es, StartHook(0));
  }

  lemma UnsyncedMove(c: Config, es: seq<Event>, leader: Option<UnitId>, stage: Stage, to: Option<UnitId>)
      returns (run: seq<Event>)
    requires Unsynced(Exec(c, INIT, es), leader, stage) && to in {None, Some(0)}
    ensures Unsynced(Exec(c, INIT, run), to, stage)
  {
    run := Then(c, es, MoveLeader(to));
  }

  lemma UnsyncedPublish(c: Config, es: seq<Event>) returns (run: seq<Event>)
    requires Unsynced(Exec(c, INIT, es), Some(0), PostConfig)
    ensures Exec(c, INIT, run).ready && Exec(c, INIT, run).syncedBy == {}
  {
    run := Then(c, es, Advance(0));
  }

  lemma SyncSkipped(c: Config) returns (es: seq<Event>)
    requires c.hasPeers
    ensures Unsynced(Exec(c, INIT, es), None, InitServices)
  {
    es := LeaderReachesTheGate(c);
    es := UnsyncedAdvance(c, es, Some(0), UpdateRelations);
    es := UnsyncedAdvance(c, es, Some(0), CheckLeaderReady);
    es := UnsyncedMove(c, es, Some(0), CheckRelations, None);
    es := UnsyncedAdvance(c, es, None, CheckRelations);
    es := UnsyncedAdvance(c, es, None, OpenPorts);
    es := UnsyncedAdvance(c, es, None, ConfigureContainers);
    es := UnsyncedAdvance(c, es, None, DbSync);
  }

  /** If leadership may move inside a hook, `leader_ready` can be published with no sync at all:
      the unit skips the sync as a non-leader and publishes as the leader. */
  lemma LeadershipMustBeStable(c: Config) returns (es: seq<Event>)
    requires c.hasPeers
    ensures !StableRun(c, es)
    ensures Exec(c, INIT, es).ready && Exec(c, INIT, es).syncedBy == {}
  {
    es := SyncSkipped(c);
    es := UnsyncedMove(c, es, None, InitServices, Some(0));
    es := UnsyncedAdvance(c, es, Some(0), InitServices);
    es := UnsyncedAdvance(c, es, Some(0), CheckPebble);
    es := UnsyncedAdvance(c, es, Some(0), MarkBootstrapped);
    es := UnsyncedAdvance(c, es, Some(0), ConfigureApp);
    es := UnsyncedPublish(c, es);
    if StableRun(c, es) {
      LeaderReadyOnlyAfterSync(c, es);
      assert false;
    }
  }

  /** Runs in which leadership moves only as Juju promises, or (unless `stable`) at any moment. */
  predicate AllowedRun(c: Config, stable: bool, es: seq<Event>) {
    stable ==> StableRun(c, es)
  }

  /** Safety on all runs is exactly a peers relation and stable leadership together. */
  lemma SafeOnEveryRunIffStableWithPeers(c: Config, stable: bool)
    ensures (forall es :: AllowedRun(c, stable, es) ==> Safe(c, Exec(c, INIT, es))) <==> c.hasPeers && stable
  {
    SafeOnEveryRunIffPeers(c);
    if c.hasPeers && stable {
      forall es | AllowedRun(c, stable, es) ensures Safe(c, Exec(c, INIT, es)) {
        LeaderReadyOnlyAfterSync(c, es);
      }
    } else if c.hasPeers {
      var es := LeadershipMustBeStable(c);
      assert AllowedRun(c, stable, es) && !Safe(c, Exec(c, INIT, es));
    } else {
      var es :| StableRun(c, es) && !Safe(c, Exec(c, INIT, es));
      assert AllowedRun(c, stable, es);
    }
  }

  // ---------------------------------------------------------------- one hook, as the code runs it

  /** What one hook sees, and where (stage, commands already run) something outside raises. */
  datatype Surroundings = Surroundings(
    leader: bool, peersCreated: bool, ready: bool, fault: Option<(Stage, nat, Failure)>)

  function FaultAt(env: Surroundings, stage: Stage, done: nat): Option<Failure> {
    if env.fault.Some? && env.fault.value.0 == stage && env.fault.value.1 == done
    then Some(env.fault.value.2) else None
  }

  datatype Outcome = Outcome(local: Local, status: Status, publish: bool, database: seq<string>)

  /** The stages of the machine, run by one unit from `stage` to the end of its hook. */
  function RunHook(c: Config, env: Surroundings, stage: Stage, done: nat, work: Local, publish: bool,
                   status: Status, database: seq<string>): Outcome
    decreases 10 - stage.Rank(), |c.commands| - done
  {
    if FaultAt(env, stage, done).Some? then
      Outcome(work, GuardStatus(FaultAt(env, stage, done).value, status), publish, database)
    else
      match StageBody(c, env.leader, env.peersCreated, env.ready, Hook.Running(stage, done, work, publish, NO_TRAIL))
      case Raises(e) => Outcome(work, GuardStatus(e, status), publish, database)
      case Stays(h, command) => RunHook(c, env, stage, done + 1, work, publish, status, database + [command])
      case Returns(h) =>
        if stage == PostConfig then Outcome(h.work, Active, h.publish, database)
        else RunHook(c, env, Successor(stage), done, h.work, h.publish, status, database)
  }

  // ---------------------------------------------------------------- what a hook does

  /** The unit may go on: it leads, there is nobody to wait for, or the leader has said it is ready. */
  predicate GateOpens(c: Config, env: Surroundings) {
    env.leader || !c.hasPeers || (env.peersCreated && env.ready)
  }

  /** The sync commands this hook has to run. */
  function CommandsDue(c: Config, env: Surroundings, labels: set<string>): seq<string> {
    if env.leader && "db-sync" !in labels then c.commands else []
  }

  predicate Publishes(c: Config, env: Surroundings) {
    env.leader && c.hasPeers && env.peersCreated
  }

  /** The hook gets to the point where something outside raises: before the gate, or behind it once the
      commands that were due so far have run. */
  predicate ReachesFault(c: Config, env: Surroundings, labels: set<string>) {
    env.fault.Some? &&
      var (stage, done, _) := env.fault.value;
      var due := |CommandsDue(c, env, labels)|;
      if stage.Rank() <= CheckLeaderReady.Rank() then done == 0
      else GateOpens(c, env) && if stage.Rank() < DbSync.Rank() then done == 0
                                else if stage == DbSync then done <= due else done == due
  }

  /** The outcome of a hook, said without its stages: an interrupted hook keeps what it had done, a hook
      that does not get through the gate waits, any other ends active. */
  function HookOutcome(c: Config, env: Surroundings, work: Local, status: Status, database: seq<string>): Outcome {
    var due := CommandsDue(c, env, work.labels);
    if ReachesFault(c, env, work.labels) then
      var (stage, done, e) := env.fault.value;
      var rank := stage.Rank();
      Outcome(Local(if rank > DbSync.Rank() then work.labels + {"db-sync"} else work.labels,
                    work.bootstrapped || rank > MarkBootstrapped.Rank()),
              GuardStatus(e, status),
              rank > ConfigureApp.Rank() && Publishes(c, env),
              database + if rank > DbSync.Rank() then due else if stage == DbSync then due[..done] else [])
    else if !GateOpens(c, env) then Outcome(work, Waiting, false, database)
    else Outcome(Local(work.labels + {"db-sync"}, true), Active, Publishes(c, env), database + due)
  }

  predicate FaultIn(env: Surroundings, from: nat, done: nat) {
    env.fault.Some? && env.fault.value.0.Rank() >= from && env.fault.value.1 == done
  }

  predicate IsPlain(stage: Stage) {
    stage in {UpdateRelations, CheckRelations, OpenPorts, ConfigureContainers, InitServices, CheckPebble}
  }

  /** A stage that does nothing the machine keeps: it is interrupted or the hook goes on. */
  lemma PlainStage(c: Config, env: Surroundings, stage: Stage, done: nat, work: Local, status: Status,
                   database: seq<string>)
    requires IsPlain(stage)
    ensures RunHook(c, env, stage, done, work, false, status, database) ==
            if FaultAt(env, stage, done).Some?
            then Outcome(work, GuardStatus(FaultAt(env, stage, done).value, status), false, database)
            else RunHook(c, env, Successor(stage), done, work, false, status, database)
  {
  }

  /** The last three stages. */
  lemma LastStages(c: Config, env: Surroundings, done: nat, work: Local, status: Status, database: seq<string>)
    requires GateOpens(c, env)
    ensures RunHook(c, env, MarkBootstrapped, done, work, false, status, database) ==
            if FaultIn(env, MarkBootstrapped.Rank(), done) then
              var (stage, _, e) := env.fault.value;
              Outcome(Local(work.labels, work.bootstrapped || stage.Rank() > MarkBootstrapped.Rank()),
                      GuardStatus(e, status), stage.Rank() > ConfigureApp.Rank() && Publishes(c, env), database)
            else Outcome(Local(work.labels, true), Active, Publishes(c, env), database)
  {
    var marked := work.(bootstrapped := true);
    if FaultAt(env, MarkBootstrapped, done).None? {
      assert RunHook(c, env, MarkBootstrapped, done, work, false, status, database)
          == RunHook(c, env, Stage.ConfigureApp, done, marked, false, status, database);
      if FaultAt(env, Stage.ConfigureApp, done).None? {
        assert RunHook(c, env, Stage.ConfigureApp, done, marked, false, status, database)
            == RunHook(c, env, PostConfig, done, marked, Publishes(c, env), status, database);
      }
    }
  }

  /** The stages after the sync. */
  lemma AfterSync(c: Config, env: Surroundings, done: nat, work: Local, status: Status, database: seq<string>)
    requires GateOpens(c, env)
    ensures RunHook(c, env, InitServices, done, work, false, status, database) ==
            if FaultIn(env, InitServices.Rank(), done) then
              var (stage, _, e) := env.fault.value;
              Outcome(Local(work.labels, work.bootstrapped || stage.Rank() > MarkBootstrapped.Rank()),
                      GuardStatus(e, status), stage.Rank() > ConfigureApp.Rank() && Publishes(c, env), database)
            else Outcome(Local(work.labels, true), Active, Publishes(c, env), database)
  {
    PlainStage(c, env, InitServices, done, work, status, database);
    PlainStage(c, env, CheckPebble, done, work, status, database);
    LastStages(c, env, done, work, status, database);
  }

  /** The sync commands of a leader that has not synced, from the `d`-th on. */
  lemma {:induction false} SyncRuns(c: Config, env: Surroundings, d: nat, work: Local, status: Status,
                                    database: seq<string>)
    requires env.leader && SYNC_LABEL !in work.labels && d <= |c.commands|
    ensures RunHook(c, env, DbSync, d, work, false, status, database + c.commands[..d]) ==
            if env.fault.Some? && env.fault.value.0 == DbSync && d <= env.fault.value.1 <= |c.commands| then
              Outcome(work, GuardStatus(env.fault.value.2, status), false, database + c.commands[..env.fault.value.1])
            else
              RunHook(c, env, InitServices, |c.commands|, work.(labels := work.labels + {SYNC_LABEL}), false, status,
                      database + c.commands)
    decreases |c.commands| - d
  {
    if FaultAt(env, DbSync, d).None? {
      if d < |c.commands| {
        SyncRuns(c, env, d + 1, work, status, database);
        assert database + c.commands[..d] + [c.commands[d]] == database + c.commands[..d + 1];
      } else {
        assert c.commands[..d] == c.commands;
      }
    }
  }

  /** The sync stage: the due commands, then the label. */
  lemma SyncStage(c: Config, env: Surroundings, work: Local, status: Status, database: seq<string>)
    ensures var due := CommandsDue(c, env, work.labels);
            RunHook(c, env, DbSync, 0, work, false, status, database) ==
            if env.fault.Some? && env.fault.value.0 == DbSync && env.fault.value.1 <= |due| then
              Outcome(work, GuardStatus(env.fault.value.2, status), false, database + due[..env.fault.value.1])
            else
              RunHook(c, env, InitServices, |due|, work.(labels := work.labels + {"db-sync"}), false, status,
                      database + due)
  {
    assert database + [] == database;
    if env.leader && "db-sync" !in work.labels {
      assert c.commands[..0] == [];
      SyncRuns(c, env, 0, work, status, database);
    } else if "db-sync" in work.labels {
      assert work.labels + {"db-sync"} == work.labels;
      assert work.(labels := work.labels + {"db-sync"}) == work;
    }
  }

  /** The gate: `check_leader_ready`. */
  lemma GateStage(c: Config, env: Surroundings, work: Local, status: Status, database: seq<string>)
    ensures RunHook(c, env, CheckLeaderReady, 0, work, false, status, database) ==
            if FaultAt(env, CheckLeaderReady, 0).Some?
            then Outcome(work, GuardStatus(FaultAt(env, CheckLeaderReady, 0).value, status), false, database)
            else if !GateOpens(c, env) then Outcome(work, Waiting, false, database)
            else RunHook(c, env, CheckRelations, 0, work, false, status, database)
  {
  }

  /** The stages before the sync, once the gate is open. */
  lemma BeforeSync(c: Config, env: Surroundings, work: Local, status: Status, database: seq<string>)
    requires GateOpens(c, env)
    ensures RunHook(c, env, UpdateRelations, 0, work, false, status, database) ==
            if env.fault.Some? && env.fault.value.0.Rank() < DbSync.Rank() && env.fault.value.1 == 0
            then Outcome(work, GuardStatus(env.fault.value.2, status), false, database)
            else RunHook(c, env, DbSync, 0, work, false, status, database)
  {
    PlainStage(c, env, UpdateRelations, 0, work, status, database);
    GateStage(c, env, work, status, database);
    PlainStage(c, env, CheckRelations, 0, work, status, database);
    PlainStage(c, env, OpenPorts, 0, work, status, database);
    PlainStage(c, env, ConfigureContainers, 0, work, status, database);
  }

  /** A hook that meets a closed gate. */
  lemma ClosedGate(c: Config, env: Surroundings, work: Local, status: Status, database: seq<string>)
    requires !GateOpens(c, env)
    ensures RunHook(c, env, UpdateRelations, 0, work, false, status, database) ==
            if env.fault.Some? && env.fault.value.0.Rank() <= CheckLeaderReady.Rank() && env.fault.value.1 == 0
            then Outcome(work, GuardStatus(env.fault.value.2, status), false, database)
            else Outcome(work, Waiting, false, database)
  {
    PlainStage(c, env, UpdateRelations, 0, work, status, database);
    GateStage(c, env, work, status, database);
  }

  /** The outcome behind an open gate, by where the fault is. */
  function OpenOutcome(c: Config, env: Surroundings, work: Local, status: Status, database: seq<string>): Outcome {
    var due := CommandsDue(c, env, work.labels);
    var labels := work.labels + {"db-sync"};
    if env.fault.Some? && env.fault.value.0.Rank() < DbSync.Rank() && env.fault.value.1 == 0 then
      Outcome(work, GuardStatus(env.fault.value.2, status), false, database)
    else if env.fault.Some? && env.fault.value.0 == DbSync && env.fault.value.1 <= |due| then
      Outcome(work, GuardStatus(env.fault.value.2, status), false, database + due[..env.fault.value.1])
    else if FaultIn(env, InitServices.Rank(), |due|) then
      var (stage, _, e) := env.fault.value;
      Outcome(Local(labels, work.bootstrapped || stage.Rank() > MarkBootstrapped.Rank()),
              GuardStatus(e, status), stage.Rank() > ConfigureApp.Rank() && Publishes(c, env), database + due)
    else Outcome(Local(labels, true), Active, Publishes(c, env), database + due)
  }

  lemma OpenGate(c: Config, env: Surroundings, work: Local, status: Status, database: seq<string>)
    requires GateOpens(c, env)
    ensures RunHook(c, env, UpdateRelations, 0, work, false, status, database)
            == OpenOutcome(c, env, work, status, database)
  {
    var due := CommandsDue(c, env, work.labels);
    BeforeSync(c, env, work, status, database);
    SyncStage(c, env, work, status, database);
    AfterSync(c, env, |due|, work.(labels := work.labels + {"db-sync"}), status, database + due);
  }

  lemma OpenOutcomeIs(c: Config, env: Surroundings, work: Local, status: Status, database: seq<string>)
    requires GateOpens(c, env)
    ensures OpenOutcome(c, env, work, status, database) == HookOutcome(c, env, work, status, database)
  {
    assert database + [] == database;
    if env.fault.Some? && env.fault.value.0 == DbSync {
      RankIsInjective(env.fault.value.0, DbSync);
    }
  }

  /** The stages of a hook, run one after the other, have exactly the outcome said without them. */
  lemma HookOutcomeIs(c: Config, env: Surroundings, work: Local, status: Status, database: seq<string>)
    ensures RunHook(c, env, UpdateRelations, 0, work, false, status, database)
            == HookOutcome(c, env, work, status, database)
  {
    if GateOpens(c, env) {
      OpenGate(c, env, work, status, database);
      OpenOutcomeIs(c, env, work, status, database);
    } else {
      ClosedGate(c, env, work, status, database);
      assert database + [] == database;
    }
  }

  class OperatorUnit {
    const config: Config
    var runOnce: set<string>       // _state.run_once
    var unitBootstrapped: bool     // _state.unit_bootstrapped
    var status: Status
    var published: bool            // leader_ready written by this hook
    var database: seq<string>      // sync commands that succeeded

    constructor (config: Config)
      ensures this.config == config && Result() == Outcome(Local({}, false), Unknown, false, [])
    {
      this.config := config;
      runOnce, unitBootstrapped, status, published, database := {}, false, Unknown, false, [];
    }

    ghost function Result(): Outcome
      reads this
    {
      Outcome(Local(runOnce, unitBootstrapped), status, published, database)
    }

    /** The hook under way is at `stage`: the rest of it leads to `result`. */
    ghost predicate At(result: Outcome, env: Surroundings, stage: Stage, done: nat)
      reads this
    {
      result == RunHook(config, env, stage, done, Local(runOnce, unitBootstrapped), published, status, database)
    }

    /** The hook ended in an exception: committing what it did leads to `result`. */
    ghost predicate Failed(result: Outcome, e: Failure)
      reads this
    {
      result == Outcome(Local(runOnce, unitBootstrapped), GuardStatus(e, status), published, database)
    }

    /** `run_db_sync` inside its `run_once_per_unit("db-sync")` wrapper. */
    method RunDbSync(env: Surroundings, ghost result: Outcome) returns (failure: Option<Failure>, done: nat)
      requires At(result, env, DbSync, 0)
      modifies this`runOnce, this`database
      ensures failure.None? ==> At(result, env, InitServices, done)
      ensures failure.Some? ==> Failed(result, failure.value)
    {
      done := 0;
      if SYNC_LABEL in runOnce {
        return FaultAt(env, DbSync, 0), 0;
      }
      if !env.leader {
        failure := FaultAt(env, DbSync, 0);
        if failure.Some? { return; }
      } else {
        var i := 0;
        while i < |config.commands|
          invariant 0 <= i <= |config.commands|
          invariant SYNC_LABEL !in runOnce
          invariant At(result, env, DbSync, i)
        {
          failure := FaultAt(env, DbSync, i);
          if failure.Some? { return; }
          database := database + [config.commands[i]];
          i := i + 1;
        }
        done := i;
        failure := FaultAt(env, DbSync, i);
        if failure.Some? { return; }
      }
      runOnce := runOnce + {SYNC_LABEL};
    }

    /** `configure_unit` of a Kubernetes charm. */
    method ConfigureUnit(env: Surroundings, ghost result: Outcome) returns (failure: Option<Failure>, done: nat)
      requires At(result, env, CheckLeaderReady, 0) && !published
      modifies this`runOnce, this`database, this`unitBootstrapped
      ensures failure.None? ==> At(result, env, Stage.ConfigureApp, done)
      ensures failure.Some? ==> Failed(result, failure.value)
    {
      done := 0;
      failure := FaultAt(env, CheckLeaderReady, 0);
      if failure.Some? { return; }
      if config.hasPeers && !(env.leader || SeesLeaderReady(config, env.peersCreated, env.ready)) {
        return Some(WaitingError), 0;
      }
      assert At(result, env, CheckRelations, 0);
      failure := FaultAt(env, CheckRelations, 0);
      if failure.Some? { return; }
      assert At(result, env, OpenPorts, 0);
      failure := FaultAt(env, OpenPorts, 0);
      if failure.Some? { return; }
      assert At(result, env, ConfigureContainers, 0);
      failure := FaultAt(env, ConfigureContainers, 0);
      if failure.Some? { return; }
      assert At(result, env, DbSync, 0);
      failure, done := RunDbSync(env, result);
      if failure.Some? { return; }
      failure := StartWorkload(env, done, result);
    }

    /** The rest of it: start the services, check them, mark the unit. */
    method StartWorkload(env: Surroundings, done: nat, ghost result: Outcome) returns (failure: Option<Failure>)
      requires At(result, env, InitServices, done)
      modifies this`unitBootstrapped
      ensures failure.None? ==> At(result, env, Stage.ConfigureApp, done)
      ensures failure.Some? ==> Failed(result, failure.value)
    {
      failure := FaultAt(env, InitServices, done);
      if failure.Some? { return; }
      assert At(result, env, CheckPebble, done);
      failure := FaultAt(env, CheckPebble, done);
      if failure.Some? { return; }
      assert At(result, env, MarkBootstrapped, done);
      failure := FaultAt(env, MarkBootstrapped, done);
      if failure.Some? { return; }
      unitBootstrapped := true;
    }

    /** `configure_app`: the leader publishes `leader_ready`, the others check that they may go on. */
    method ConfigureApp(env: Surroundings, done: nat, ghost result: Outcome) returns (failure: Option<Failure>)
      requires At(result, env, Stage.ConfigureApp, done) && !published
      requires FaultAt(env, Stage.ConfigureApp, done).None?
      modifies this`published
      ensures failure.None? ==> At(result, env, PostConfig, done)
      ensures failure.Some? ==> Failed(result, failure.value)
    {
      if env.leader {
        published := config.hasPeers && env.peersCreated;
        failure := None;
      } else if unitBootstrapped && SeesLeaderReady(config, env.peersCreated, env.ready) {
        failure := None;
      } else {
        failure := Some(WaitingError);
      }
    }

    /** Everything inside the guard of `configure_charm`. */
    method Guarded(env: Surroundings, ghost result: Outcome) returns (failure: Option<Failure>)
      requires At(result, env, UpdateRelations, 0) && !published
      modifies this`runOnce, this`database, this`unitBootstrapped, this`published
      ensures failure.None? ==> result == Result().(status := Active)
      ensures failure.Some? ==> Failed(result, failure.value)
    {
      failure := FaultAt(env, UpdateRelations, 0);
      if failure.Some? { return; }
      var done;
      failure, done := ConfigureUnit(env, result);
      if failure.Some? { return; }
      failure := FaultAt(env, Stage.ConfigureApp, done);
      if failure.Some? { return; }
      failure := ConfigureApp(env, done, result);
      if failure.Some? { return; }
      failure := FaultAt(env, PostConfig, done);
    }

    /** `configure_charm`: one hook from start to end is exactly a solo run of the stage machine. */
    method ConfigureCharm(env: Surroundings)
      modifies this
      ensures Result() == RunHook(config, env, UpdateRelations, 0, old(Local(runOnce, unitBootstrapped)), false,
                                  old(status), old(database))
      ensures Result() == HookOutcome(config, env, old(Local(runOnce, unitBootstrapped)), old(status), old(database))
      ensures env.fault.None? && (env.leader || !config.hasPeers || (env.peersCreated && env.ready)) ==>
                && status == Active && unitBootstrapped && runOnce == old(runOnce) + {"db-sync"}
                && (published <==> env.leader && config.hasPeers && env.peersCreated)
                && database == old(database) + if env.leader && "db-sync" !in old(runOnce) then config.commands else []
      ensures env.fault.None? && !env.leader && config.hasPeers && !(env.peersCreated && env.ready) ==>
                && status == Waiting && !published
                && unitBootstrapped == old(unitBootstrapped) && runOnce == old(runOnce) && database == old(database)
      ensures ReachesFault(config, env, old(runOnce)) ==>
                match env.fault.value.2
                case EarlyExit => status == old(status)
                case BlockedError => status == Blocked
                case WaitingError => status == Waiting
                case MaintenanceError => status == Maintenance
                case OtherError => status == Blocked
    {
      HookOutcomeIs(config, env, Local(runOnce, unitBootstrapped), status, database);
      published := false;
      ghost var result := RunHook(config, env, UpdateRelations, 0, Local(runOnce, unitBootstrapped), false, status,
                                  database);
      var failure := Guarded(env, result);
      status := if failure.Some? then GuardStatus(failure.value, status) else Active;
    }
  }

  predicate Sees(env: Surroundings, s: State, u: UnitId) {
    env.leader == (s.leader == Some(u)) && env.peersCreated == s.peersCreated && env.ready == s.ready
  }

  function RestOfHook(c: Config, env: Surroundings, s: State, u: UnitId): Outcome
    requires Running(s, u)
  {
    var h := s.units[u].hook;
    RunHook(c, env, h.stage, h.done, h.work, h.publish, s.units[u].status, s.database)
  }

  /** The state after unit `u` alone finished its hook with `out`. */
  predicate Finished(s: State, u: UnitId, out: Outcome, s': State) {
    && u in s'.units && s'.units == s.units[u := UnitState(out.local, Idle, out.status, s'.units[u].past)]
    && s'.ready == (s.ready || out.publish) && s'.database == out.database
    && s'.leader == s.leader && s'.peersCreated == s.peersCreated
  }

  function SoloEvent(env: Surroundings, s: State, u: UnitId): Event
    requires Running(s, u)
  {
    var fault := FaultAt(env, s.units[u].hook.stage, s.units[u].hook.done);
    if fault.Some? then Raise(u, fault.value) else Advance(u)
  }

  lemma TrailIsOnlyHistory(c: Config, leader: bool, peersCreated: bool, ready: bool, h: Hook)
    requires h.Running?
    ensures StageBody(c, leader, peersCreated, ready, h) ==
            match StageBody(c, leader, peersCreated, ready, h.(trail := NO_TRAIL))
            case Raises(e) => Raises(e)
            case Stays(b, command) => Stays(b.(trail := h.trail), command)
            case Returns(b) => Returns(b.(trail := h.trail))
  {
  }

  predicate SoloStepOk(c: Config, env: Surroundings, s: State, u: UnitId, s': State)
    requires Running(s, u)
  {
    if Running(s', u) then
      var h, h' := s.units[u].hook, s'.units[u].hook;
      && Sees(env, s', u) && RestOfHook(c, env, s', u) == RestOfHook(c, env, s, u)
      && s'.units == s.units[u := s'.units[u]] && s'.ready == s.ready
      && (h'.stage.Rank() > h.stage.Rank() || (h'.stage == h.stage && h.done < h'.done <= |c.commands|))
    else Finished(s, u, RestOfHook(c, env, s, u), s')
  }

  lemma SoloStays(c: Config, env: Surroundings, s: State, u: UnitId)
    requires Running(s, u) && Sees(env, s, u)
    requires FaultAt(env, s.units[u].hook.stage, s.units[u].hook.done).None?
    requires StageBody(c, env.leader, env.peersCreated, env.ready, s.units[u].hook).Stays?
    ensures SoloStepOk(c, env, s, u, AdvanceHook(c, s, u))
  {
    var h := s.units[u].hook;
    assert AdvanceHook(c, s, u).units[u].hook == h.(done := h.done + 1);
  }

  lemma SoloReturns(c: Config, env: Surroundings, s: State, u: UnitId)
    requires Running(s, u) && Sees(env, s, u)
    requires FaultAt(env, s.units[u].hook.stage, s.units[u].hook.done).None?
    requires StageBody(c, env.leader, env.peersCreated, env.ready, s.units[u].hook).Returns?
    ensures SoloStepOk(c, env, s, u, AdvanceHook(c, s, u))
  {
    var h := s.units[u].hook;
    var h' := StageBody(c, env.leader, env.peersCreated, env.ready, h).h;
    TrailIsOnlyHistory(c, env.leader, env.peersCreated, env.ready, h);
    var s' := AdvanceHook(c, s, u);
    if h.stage == PostConfig {
      assert s'.units[u].local == h'.work && s'.units[u].hook == Idle && s'.units[u].status == Active;
    } else {
      NextHookIs(c, s, u);
      assert h'.done == h.done;
    }
  }

  lemma SoloStep(c: Config, env: Surroundings, s: State, u: UnitId)
    requires Running(s, u) && Sees(env, s, u)
    ensures SoloStepOk(c, env, s, u, Next(c, s, SoloEvent(env, s, u)))
  {
    var h := s.units[u].hook;
    if FaultAt(env, h.stage, h.done).None? {
      match StageBody(c, env.leader, env.peersCreated, env.ready, h)
      case Raises(e) => TrailIsOnlyHistory(c, env.leader, env.peersCreated, env.ready, h);
      case Stays(_, _) => SoloStays(c, env, s, u);
      case Returns(_) => SoloReturns(c, env, s, u);
    }
  }

  /** A unit in a hook that nobody interrupts goes through the machine to the same outcome. */
  lemma {:induction false} HookIsARun(c: Config, env: Surroundings, s: State, u: UnitId) returns (es: seq<Event>)
    requires Running(s, u) && Sees(env, s, u)
    ensures forall e :: e in es ==> e == Advance(u) || (e.Raise? && e.u == u && env.fault.Some?)
    ensures Finished(s, u, RestOfHook(c, env, s, u), Exec(c, s, es))
    decreases 10 - s.units[u].hook.stage.Rank(), |c.commands| - s.units[u].hook.done
  {
    var e := SoloEvent(env, s, u);
    var s' := Next(c, s, e);
    SoloStep(c, env, s, u);
    es := [e];
    assert Front([e]) == [];
    assert Exec(c, s, es) == s';
    if Running(s', u) {
      var rest := HookIsARun(c, env, s', u);
      ExecAppend(c, s, es, rest);
      es := es + rest;
    }
  }

  lemma {:induction false} ExecAppend(c: Config, s: State, es: seq<Event>, more: seq<Event>)
    ensures Exec(c, s, es + more) == Exec(c, Exec(c, s, es), more)
    decreases |more|
  {
    if more == [] {
      assert es + more == es;
    } else {
      ExecAppend(c, s, es, Front(more));
      AppendEnds(es, more);
    }
  }

  lemma AppendEnds<T>(a: seq<T>, b: seq<T>)
    requires b != []
    ensures a + b != [] && Front(a + b) == a + Front(b) && Last(a + b) == Last(b)
  {
  }
}
