/** Progress of the bootstrap protocol: which units an undisturbed round of hooks brings up, what it runs
    on the database, and what a replaced pod repeats. */
module Rollout {
  import opened Text
  import opened Bootstrap

  /** Hooks of these units only, each started once it is idle, with nothing raising. */
  predicate Undisturbed(es: seq<Event>, units: seq<UnitId>) {
    forall e :: e in es ==> (e.StartHook? || e.Advance?) && e.u in units
  }

  /** The unit is up: active, with its flag and label stored. */
  predicate IsUp(s: State, u: UnitId) {
    && u in s.units && s.units[u].hook.Idle? && s.units[u].status == Active
    && s.units[u].local.bootstrapped && "db-sync" in s.units[u].local.labels
  }

  /** It may go on: it leads, there is nobody to wait for, or the leader has said it is ready. */
  predicate MayPass(c: Config, s: State, u: UnitId) {
    s.leader == Some(u) || !c.hasPeers || (s.peersCreated && s.ready)
  }

  /** What the hook of `u` adds to the database. */
  function Due(c: Config, s: State, u: UnitId): seq<string>
    requires u in s.units
  {
    if s.leader == Some(u) && "db-sync" !in s.units[u].local.labels then c.commands else []
  }

  /** Only the unit, the published flag and the database may differ. */
  predicate OnlyUnit(s: State, s': State, u: UnitId) {
    && u in s.units && u in s'.units && s'.units - {u} == s.units - {u}
    && s'.leader == s.leader && s'.peersCreated == s.peersCreated
  }

  /** What one hook of `u` leaves when nothing raises. */
  predicate AfterHook(c: Config, s: State, u: UnitId, s': State) {
    && OnlyUnit(s, s', u)
    && (MayPass(c, s, u) ==>
          IsUp(s', u) && s'.database == s.database + Due(c, s, u)
          && s'.ready == (s.ready || (s.leader == Some(u) && c.hasPeers && s.peersCreated)))
    && (!MayPass(c, s, u) ==>
          s'.units[u].status == Waiting && s'.units[u].local == s.units[u].local && s'.units[u].hook.Idle?
          && s'.database == s.database && s'.ready == s.ready)
  }

  predicate SameShared(s: State, s': State) {
    s'.ready == s.ready && s'.leader == s.leader && s'.peersCreated == s.peersCreated && s'.database == s.database
  }

  function Seen(s: State, u: UnitId): Surroundings {
    Surroundings(s.leader == Some(u), s.peersCreated, s.ready, None)
  }

  /** The start of a hook changes only the hook of its unit. */
  lemma Started(c: Config, s: State, u: UnitId)
    requires u in s.units && s.units[u].hook.Idle?
    ensures var s1 := Next(c, s, StartHook(u));
            && u in s1.units && s1.units[u].hook.Running? && s1.units - {u} == s.units - {u}
            && RestOfHook(c, Seen(s, u), s1, u)
               == HookOutcome(c, Seen(s, u), s.units[u].local, s.units[u].status, s.database)
            && SameShared(s, s1)
  {
    HookOutcomeIs(c, Seen(s, u), s.units[u].local, s.units[u].status, s.database);
  }

  lemma FinishedIs(c: Config, s: State, u: UnitId, s1: State, s2: State)
    requires u in s.units && u in s1.units && s1.units[u].hook.Running? && s1.units - {u} == s.units - {u}
    requires SameShared(s, s1)
    requires Finished(s1, u, HookOutcome(c, Seen(s, u), s.units[u].local, s.units[u].status, s.database), s2)
    ensures AfterHook(c, s, u, s2)
  {
    var out := HookOutcome(c, Seen(s, u), s.units[u].local, s.units[u].status, s.database);
    assert s2.units - {u} == s1.units - {u};
    assert s.database + [] == s.database;
  }

  /** One hook of an idle unit. */
  lemma OneHook(c: Config, s: State, u: UnitId) returns (es: seq<Event>)
    requires u in s.units && s.units[u].hook.Idle?
    ensures Undisturbed(es, [u]) && AfterHook(c, s, u, Exec(c, s, es))
  {
    var s1 := Next(c, s, StartHook(u));
    Started(c, s, u);
    var rest := HookIsARun(c, Seen(s, u), s1, u);
    assert Front([StartHook(u)]) == [];
    assert Exec(c, s, [StartHook(u)]) == s1;
    ExecAppend(c, s, [StartHook(u)], rest);
    es := [StartHook(u)] + rest;
    FinishedIs(c, s, u, s1, Exec(c, s, es));
  }

  predicate DistinctUnits(units: seq<UnitId>) {
    forall i, j :: 0 <= i < j < |units| ==> units[i] != units[j]
  }

  /** These units are up and everything else is as before. */
  predicate Joined(s: State, units: seq<UnitId>, s': State) {
    && (forall u :: u in units ==> IsUp(s', u))
    && s'.units.Keys == s.units.Keys && (forall u :: u in s.units && u !in units ==> s'.units[u] == s.units[u])
    && SameShared(s, s')
  }

  lemma OneMoreJoined(c: Config, s: State, units: seq<UnitId>, s1: State, u: UnitId, s2: State)
    requires Joined(s, units, s1) && u in s.units && u !in units && s.leader != Some(u)
    requires MayPass(c, s, u) && AfterHook(c, s1, u, s2)
    ensures Joined(s, units + [u], s2)
  {
    assert Due(c, s1, u) == [];
    assert s1.database + [] == s1.database;
    forall v | v in s.units && v != u ensures v in s2.units && s2.units[v] == s1.units[v] {
      assert v in s1.units - {u} && (s2.units - {u})[v] == (s1.units - {u})[v];
    }
    forall v | v in s2.units ensures v in s.units {
      assert v != u ==> v in s2.units - {u};
    }
  }

  lemma ExecJoins(c: Config, s: State, es: seq<Event>, more: seq<Event>, units: seq<UnitId>, u: UnitId)
    requires Undisturbed(es, units) && Undisturbed(more, [u])
    ensures Undisturbed(es + more, units + [u]) && Exec(c, s, es + more) == Exec(c, Exec(c, s, es), more)
  {
    ExecAppend(c, s, es, more);
  }

  /** Units that may pass, one hook each, in any order: all come up, and no command runs. */
  lemma {:induction false} HooksInTurn(c: Config, s: State, units: seq<UnitId>) returns (es: seq<Event>)
    requires DistinctUnits(units)
    requires forall u :: u in units ==>
               u in s.units && s.units[u].hook.Idle? && s.leader != Some(u) && MayPass(c, s, u)
    ensures Undisturbed(es, units) && Joined(s, units, Exec(c, s, es))
  {
    if units == [] {
      es := [];
    } else {
      var u := Last(units);
      assert u in units && u !in Front(units) && Front(units) + [u] == units;
      var before := HooksInTurn(c, s, Front(units));
      var s1 := Exec(c, s, before);
      var hook := OneHook(c, s1, u);
      ExecJoins(c, s, before, hook, Front(units), u);
      OneMoreJoined(c, s, Front(units), s1, u, Exec(c, s1, hook));
      es := before + hook;
    }
  }

  /** Every unit of the state is up. */
  predicate AllUp(s: State) {
    forall u :: u in s.units ==> IsUp(s, u)
  }

  /** One undisturbed round, the leader first and the others in any order, brings every unit up, publishes
      `leader_ready`, and runs the sync commands exactly if the leader had not recorded them. */
  lemma RolloutCompletes(c: Config, s: State, leader: UnitId, others: seq<UnitId>) returns (es: seq<Event>)
    requires s.leader == Some(leader) && (c.hasPeers ==> s.peersCreated)
    requires DistinctUnits(others) && leader !in others
    requires forall u :: u in s.units <==> u == leader || u in others
    requires forall u :: u in s.units ==> s.units[u].hook.Idle?
    ensures Undisturbed(es, [leader] + others)
    ensures var t := Exec(c, s, es);
            && t.units.Keys == s.units.Keys && AllUp(t) && (c.hasPeers ==> t.ready)
            && t.database == s.database + Due(c, s, leader)
  {
    var first := OneHook(c, s, leader);
    var s1 := Exec(c, s, first);
    LeaderFirst(c, s, leader, others, s1);
    var rest := HooksInTurn(c, s1, others);
    es := first + rest;
    ExecAppend(c, s, first, rest);
    forall u | u in s.units ensures u in Exec(c, s, es).units && IsUp(Exec(c, s, es), u) {}
  }

  lemma LeaderFirst(c: Config, s: State, leader: UnitId, others: seq<UnitId>, s1: State)
    requires s.leader == Some(leader) && (c.hasPeers ==> s.peersCreated) && leader !in others
    requires forall u :: u in s.units <==> u == leader || u in others
    requires forall u :: u in s.units ==> s.units[u].hook.Idle?
    requires AfterHook(c, s, leader, s1)
    ensures s1.units.Keys == s.units.Keys && IsUp(s1, leader)
    ensures forall u :: u in others ==>
              u in s1.units && s1.units[u].hook.Idle? && s1.leader != Some(u) && MayPass(c, s1, u)
  {
    forall u | u in s.units && u != leader ensures u in s1.units && s1.units[u] == s.units[u] {
      assert u in s.units - {leader} && (s1.units - {leader})[u] == (s.units - {leader})[u];
    }
    forall u | u in s1.units ensures u in s.units {
      assert u != leader ==> u in s1.units - {leader};
    }
  }

  /** A pod that is replaced, or whose hook dies, comes up again with one hook once it may pass: the leader
      repeats all sync commands unless its pod still has the label; another unit runs none. */
  lemma ComesBack(c: Config, s: State, u: UnitId, e: Event) returns (es: seq<Event>)
    requires u in s.units && MayPass(c, s, u) && e in {ReplacePod(u), Crash(u)}
    ensures Undisturbed(es, [u])
    ensures var t := Exec(c, s, [e] + es);
            && OnlyUnit(s, t, u) && IsUp(t, u)
            && t.database == s.database
                + if s.leader == Some(u) && (e.ReplacePod? || "db-sync" !in s.units[u].local.labels)
                  then c.commands else []
  {
    var s1 := Next(c, s, e);
    assert s1.units - {u} == s.units - {u};
    es := OneHook(c, s1, u);
    assert Front([e]) == [];
    assert Exec(c, s, [e]) == s1;
    ExecAppend(c, s, [e], es);
  }
}
