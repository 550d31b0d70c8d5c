/** Teardown passes over one live deployment: destroy, project delete, sweep,
    release. The world's answers are parameters, so every result holds however
    the destroy, the delete, the sweep and the record's writes turn out. */
module LiveTeardown {
  import opened Wrappers

  type ProjectId = string

  /** A resource, and the project the state records it in ("" when none). */
  datatype Resource = Resource(id: string, project: ProjectId)

  datatype Record = Record(
    projectId: ProjectId, hasWorkDir: bool, undecodable: bool, scaleway: bool,
    sweepFailed: bool, released: bool)

  /** The deployment, its workdir and the account. `state` is None when no
      state file exists; `client` says a run-project client is configured. */
  datatype World = World(
    record: Record, marker: Option<ProjectId>, state: Option<set<Resource>>,
    projects: set<ProjectId>, alive: set<Resource>, client: bool)

  /** How one pass's calls turn out. A destroy that reports success may have
      killed only some of what the state recorded; a failed one may have
      dropped some of it from the state. */
  datatype Outcomes = Outcomes(
    stateReadable: bool, envFails: bool,
    destroyOk: bool, killed: set<Resource>, dropped: set<Resource>,
    provenanceOk: bool, projectDeleted: bool,
    sweepReaches: bool, flagWritten: bool, releaseWritten: bool)

  datatype Ending = Released | PointsAtForget | Unreclaimable | Failed

  /** liveStateMayHoldResources: true unless it can prove otherwise. */
  predicate StateMayHold(state: Option<set<Resource>>, readable: bool) {
    state.Some? && (!readable || state.value != {})
  }

  function Strays(entries: set<Resource>, project: ProjectId): set<Resource> {
    set r | r in entries && r.project != "" && r.project != project
  }

  function Entries(w: World): set<Resource> {
    if w.state.Some? then w.state.value else {}
  }

  /** releaseRunProject: the projects left, and whether it failed. */
  function ReleaseProject(w: World, o: Outcomes): (set<ProjectId>, bool) {
    if w.record.projectId == "" || !w.client || w.marker.None? then (w.projects, false)
    else if w.marker.value != w.record.projectId || !o.provenanceOk then (w.projects, true)
    else if o.projectDeleted then (w.projects - {w.record.projectId}, false)
    else (w.projects, true)
  }

  /** The orphan sweep of one project and the strays captured with it. */
  predicate SweepClean(projects: set<ProjectId>, target: ProjectId, strays: set<Resource>, reaches: bool) {
    target != "" && strays == {} && reaches && target !in projects
  }

  /** The world and ending one pass leaves. */
  function Pass(w: World, o: Outcomes): (World, Ending) {
    if !w.record.hasWorkDir || !w.record.scaleway then (w, PointsAtForget)
    else if !StateMayHold(w.state, o.stateReadable) then
      if w.record.sweepFailed then (w, PointsAtForget)
      else if o.envFails then (w, Unreclaimable)
      else
        var (projects, failed) := ReleaseProject(w, o);
        var w1 := w.(projects := projects);
        if failed || !SweepClean(projects, w.record.projectId, {}, o.sweepReaches) then (w1, Failed)
        else if !o.releaseWritten then (w1, Unreclaimable)
        else (w1.(record := w.record.(released := true)), Released)
    else if o.envFails then (w, Unreclaimable)
    else if !o.destroyOk then
      (w.(alive := w.alive - o.killed, state := Some(Entries(w) - o.dropped)), Failed)
    else
      var captured := w.marker.Some? && o.stateReadable;
      var (projects, failed) := ReleaseProject(w, o);
      var clean := captured && SweepClean(projects, w.marker.value, Strays(Entries(w), w.marker.value), o.sweepReaches);
      var w1 := w.(alive := w.alive - o.killed, state := Some({}), projects := projects,
                   record := if !clean && o.flagWritten then w.record.(sweepFailed := true) else w.record);
      if failed || !clean || !o.releaseWritten then (w1, Failed)
      else (w1.(record := w1.record.(released := true)), Released)
  }

  datatype ForgetResult = Refused | NotWritten | Forgotten

  datatype Status = Passed | Failing | Skipped

  datatype Stage = Destroy(s: Status) | ProjectDelete(s: Status) | OrphanSweep(s: Status) | SweepMarker(s: Status)
                 | Teardown(s: Status) | ReleaseRecord(s: Status)

  /** The deployment as the commands update it. */
  class LiveDeployment {
    var record: Record
    var marker: Option<ProjectId>
    var state: Option<set<Resource>>
    var projects: set<ProjectId>
    var alive: set<Resource>
    const client: bool

    constructor (w: World)
      ensures Value() == w
    {
      record, marker, state, projects, alive, client := w.record, w.marker, w.state, w.projects, w.alive, w.client;
    }

    ghost function Value(): World
      reads this
    {
      World(record, marker, state, projects, alive, client)
    }

    /** releaseRunProject and its stage. */
    method DeleteProject(o: Outcomes, stages: seq<Stage>, failures: nat) returns (stages': seq<Stage>, failures': nat)
      modifies this`projects
      ensures (projects, failures' > failures) == ReleaseProject(old(Value()), o) && failures' >= failures
      ensures |stages'| <= |stages| + 1 && stages <= stages'
      // The marker, the record and the proof of what the run made must all agree.
      ensures projects != old(projects) ==>
          && projects == old(projects) - {record.projectId}
          && marker == Some(record.projectId) && o.provenanceOk && o.projectDeleted && client
      ensures failures' == failures ==>
          record.projectId == "" || !client || marker.None? || record.projectId !in projects
    {
      if record.projectId == "" || !client {
        return stages, failures;
      }
      if marker.None? {
        return stages + [ProjectDelete(Skipped)], failures;
      }
      if marker.value != record.projectId || !o.provenanceOk {
        return stages + [ProjectDelete(Failing)], failures + 1;
      }
      if o.projectDeleted {
        projects := projects - {record.projectId};
        return stages + [ProjectDelete(Passed)], failures;
      }
      return stages + [ProjectDelete(Failing)], failures + 1;
    }

    /** tearDownDeployment: one pass. */
    method TearDown(o: Outcomes) returns (ending: Ending, stages: seq<Stage>, failures: nat)
      modifies this
      ensures (Value(), ending) == Pass(old(Value()), o)
      ensures failures == 0 <==> ending.Released?
      ensures ending.Released? ==> stages != [] && stages[|stages| - 1] == ReleaseRecord(Passed)
    {
      stages, failures := [], 0;
      if !record.hasWorkDir {
        return PointsAtForget, [Teardown(Failing)], 1;
      }
      if !record.scaleway {
        return PointsAtForget, [Teardown(Failing)], 1;
      }
      if !StateMayHold(state, o.stateReadable) {
        if record.sweepFailed {
          return PointsAtForget, [Teardown(Failing)], 1;
        }
        if o.envFails {
          return Unreclaimable, [Teardown(Failing)], 1;
        }
        stages, failures := DeleteProject(o, stages, failures);
        var clean := SweepClean(projects, record.projectId, {}, o.sweepReaches);
        stages := stages + [OrphanSweep(if clean then Passed else Failing)];
        if !clean {
          failures := failures + 1;
        }
        if failures > 0 {
          return Failed, stages, failures;
        }
        if !o.releaseWritten {
          return Unreclaimable, stages + [Teardown(Failing)], failures + 1;
        }
        record := record.(released := true);
        return Released, stages + [ReleaseRecord(Passed)], failures;
      }
      if o.envFails {
        return Unreclaimable, [Teardown(Failing)], 1;
      }
      // What the sweep must verify is captured before the destroy empties the state.
      var captured := marker.Some? && o.stateReadable;
      var strays := if captured then Strays(state.value, marker.value) else {};
      alive := alive - o.killed;
      state := Some(if o.destroyOk then {} else state.value - o.dropped);
      stages := stages + [Destroy(if o.destroyOk then Passed else Failing)];
      if !o.destroyOk {
        return Failed, stages, 1;
      }
      stages, failures := DeleteProject(o, stages, failures);
      var failuresBeforeSweep := failures;
      var clean := captured && SweepClean(projects, marker.value, strays, o.sweepReaches);
      stages := stages + [OrphanSweep(if clean then Passed else Failing)];
      if !clean {
        failures := failures + 1;
      }
      if failures > failuresBeforeSweep {
        if o.flagWritten {
          record := record.(sweepFailed := true);
        } else {
          stages, failures := stages + [SweepMarker(Failing)], failures + 1;
        }
      }
      if failures > 0 {
        return Failed, stages, failures;
      }
      if !o.releaseWritten {
        return Failed, stages + [ReleaseRecord(Failing)], 1;
      }
      record := record.(released := true);
      return Released, stages + [ReleaseRecord(Passed)], failures;
    }

    /** runLiveForgetCommand: the record released with nothing destroyed, unless
        the store still reads it and teardown could act on it. */
    method Forget(known: bool, markerFile: bool, stateReadable: bool, written: bool) returns (r: ForgetResult)
      modifies this`record
      ensures r.Refused? <==> known && Reclaimable(old(Value()), markerFile, stateReadable)
      ensures r.Forgotten? <==> !r.Refused? && written
      ensures Value() == if r.Forgotten? then old(Value()).(record := old(record).(released := true)) else old(Value())
      // What a pass would still destroy is never forgotten.
      ensures known && !old(record).undecodable && !old(record).released && old(record).projectId != "" ==>
          forall o: Outcomes :: o.stateReadable == stateReadable && Destroys(old(Value()), o) ==> r.Refused?
    {
      if known && !record.undecodable && !record.released && record.hasWorkDir && record.scaleway
        && (markerFile || state.Some?) && record.projectId != ""
        && !(record.sweepFailed && !StateMayHold(state, stateReadable)) {
        return Refused;
      }
      if !written {
        return NotWritten;
      }
      record := record.(released := true);
      return Forgotten;
    }
  }

  // ----- Any sequence of passes and upgrades -----

  /** What an upgrade's apply does: it adds resources to the account and the state,
      destroys what the new configuration no longer declares, and drops that from
      the state, gone or not. */
  datatype Apply = Apply(added: set<Resource>, killed: set<Resource>, dropped: set<Resource>)

  /** A pass, or a live upgrade. */
  datatype Event = TeardownPass(o: Outcomes) | Upgrade(a: Apply)

  predicate UpgradeApplies(w: World) {
    !w.record.released && w.marker == Some(w.record.projectId) && w.record.projectId in w.projects
  }

  function Step(w: World, e: Event): World {
    match e
    case TeardownPass(o) => Pass(w, o).0
    case Upgrade(a) =>
      // Refused unless the marker and the API agree the record's project is there.
      if !UpgradeApplies(w) then w
      else w.(alive := w.alive - a.killed + a.added, state := Some(Entries(w) - a.dropped + a.added))
  }

  function Steps(w: World, es: seq<Event>): World
    decreases |es|
  {
    if es == [] then w else Steps(Step(w, es[0]), es[1..])
  }

  /** Every stray a state recorded before the run or during it. */
  function Recorded(w: World, es: seq<Event>): set<Resource>
    decreases |es|
  {
    if es == [] then StraysNow(w) else StraysNow(w) + Recorded(Step(w, es[0]), es[1..])
  }

  /** The project teardown must see gone: the marker's, or the record's without one. */
  function OwnProject(w: World): ProjectId {
    if w.marker.Some? then w.marker.value else w.record.projectId
  }

  function StraysNow(w: World): set<Resource> {
    if w.marker.Some? then Strays(Entries(w), w.marker.value) else {}
  }

  /** A live stray is still in the state, or its sweep failed for good. */
  ghost predicate StraysAccounted(w: World, strays: set<Resource>) {
    forall r :: r in strays && r in w.alive ==> r in StraysNow(w) || (w.record.sweepFailed && Entries(w) == {})
  }

  ghost predicate ReleasedClean(w: World, strays: set<Resource>) {
    w.record.released ==> strays !! w.alive && OwnProject(w) !in w.projects && Entries(w) == {}
  }

  /** With a run-project client, or a record that names the marker's project. */
  predicate ProjectChecked(w: World) {
    w.client || w.marker.None? || w.marker.value == w.record.projectId
  }

  ghost predicate Inv(w: World, strays: set<Resource>) {
    && StraysAccounted(w, strays) && ReleasedClean(w, strays) && ProjectChecked(w) && StraysNow(w) <= strays
    && (forall r :: r in strays ==> w.marker.Some? && r.project != "" && r.project != w.marker.value)
  }

  lemma ReleaseMeansClean(w: World, o: Outcomes, strays: set<Resource>)
    requires Inv(w, strays) && Pass(w, o).1.Released?
    ensures ReleasedClean(Pass(w, o).0, strays)
  {
    var w' := Pass(w, o).0;
    assert StraysNow(w) == {};
    forall r | r in strays ensures r !in w'.alive {
      assert r in w.alive ==> r in StraysNow(w);
    }
  }

  // ----- Which steps lose a stray -----

  /** The pass gets as far as the destroy. */
  predicate Destroys(w: World, o: Outcomes) {
    w.record.hasWorkDir && w.record.scaleway && StateMayHold(w.state, o.stateReadable) && !o.envFails
  }

  /** A pass loses a live stray the state records when its destroy succeeds around
      it and the failed sweep's flag is neither written nor there already, or when
      its destroy fails and drops it from a state the flag does not then cover. */
  predicate PassLoses(w: World, o: Outcomes, r: Resource) {
    && Destroys(w, o) && r in StraysNow(w) && r in w.alive && r !in o.killed
    && if o.destroyOk then !o.flagWritten && !w.record.sweepFailed
       else r in o.dropped && !(w.record.sweepFailed && Entries(w) - o.dropped == {})
  }

  /** An upgrade loses a live stray by dropping it from a state the flag does not
      then cover, or, where only the flag of an emptied state covered it, by giving
      the state resources again and that stray not among them. */
  predicate UpgradeLoses(w: World, a: Apply, r: Resource) {
    && UpgradeApplies(w) && r in w.alive && r !in a.killed && r !in a.added
    && if r in StraysNow(w) then r in a.dropped && !(w.record.sweepFailed && Entries(w) - a.dropped + a.added == {})
       else w.record.sweepFailed && Entries(w) == {} && a.added != {}
  }

  predicate LosesOne(w: World, e: Event, r: Resource) {
    match e
    case TeardownPass(o) => PassLoses(w, o, r)
    case Upgrade(a) => UpgradeLoses(w, a, r)
  }

  ghost predicate Loses(w: World, e: Event, strays: set<Resource>) {
    exists r :: r in strays && LosesOne(w, e, r)
  }

  /** Exactly the steps that lose a stray leave one unaccounted. */
  lemma LosesExactly(w: World, e: Event, strays: set<Resource>)
    requires Inv(w, strays) && !w.record.released
    ensures StraysAccounted(Step(w, e), strays) <==> !Loses(w, e, strays)
  {
    var w' := Step(w, e);
    forall r | r in strays
      ensures LosesOne(w, e, r) <==>
              r in w'.alive && r !in StraysNow(w') && !(w'.record.sweepFailed && Entries(w') == {})
    {
      assert r in w.alive ==> r in StraysNow(w) || (w.record.sweepFailed && Entries(w) == {});
    }
  }

  lemma PassKeepsInv(w: World, o: Outcomes, strays: set<Resource>)
    requires Inv(w, strays) && !Loses(w, TeardownPass(o), strays)
    ensures Inv(Pass(w, o).0, strays)
  {
    if Pass(w, o).1.Released? {
      ReleaseMeansClean(w, o, strays);
    }
    if !w.record.released {
      LosesExactly(w, TeardownPass(o), strays);
    }
  }

  lemma UpgradeKeepsInv(w: World, a: Apply, strays: set<Resource>)
    requires Inv(w, strays) && !Loses(w, Upgrade(a), strays)
    ensures Inv(Step(w, Upgrade(a)), strays + StraysNow(Step(w, Upgrade(a))))
  {
    if !w.record.released {
      LosesExactly(w, Upgrade(a), strays);
    }
  }

  /** No step of the run loses a stray recorded by then. */
  ghost predicate LosesNothing(w: World, es: seq<Event>, strays: set<Resource>)
    decreases |es|
  {
    es == [] ||
    (var w' := Step(w, es[0]);
     !Loses(w, es[0], strays) && LosesNothing(w', es[1..], strays + StraysNow(w')))
  }

  /** No laundering: after any sequence of passes and upgrades none of which
      loses a stray, a record is released only when the project and every stray
      any state recorded are gone, though an emptied state no longer names them. */
  lemma {:induction false} NoLaundering(w: World, es: seq<Event>, strays: set<Resource>)
    requires Inv(w, strays) && LosesNothing(w, es, strays)
    ensures Inv(Steps(w, es), strays + Recorded(w, es))
    decreases |es|
  {
    if es == [] {
      assert strays + Recorded(w, es) == strays;
    } else {
      var w' := Step(w, es[0]);
      var seen := strays + StraysNow(w');
      match es[0] {
        case TeardownPass(o) => PassKeepsInv(w, o, strays); assert seen == strays;
        case Upgrade(a) => UpgradeKeepsInv(w, a, strays);
      }
      NoLaundering(w', es[1..], seen);
      assert StraysNow(w') <= Recorded(w', es[1..]);
      assert seen + Recorded(w', es[1..]) == strays + Recorded(w, es);
    }
  }

  /** What a fresh record's release means. */
  lemma ReleasedOnlyWhenGone(w: World, es: seq<Event>)
    requires !w.record.released && !w.record.sweepFailed && ProjectChecked(w) && LosesNothing(w, es, StraysNow(w))
    ensures var w' := Steps(w, es);
            w'.record.released ==> Recorded(w, es) !! w'.alive && OwnProject(w') !in w'.projects
  {
    NoLaundering(w, es, StraysNow(w));
  }

  // ----- A stray once lost is laundered -----

  /** A deployment as deploy leaves it, its project there or its strays no longer recorded. */
  predicate Ordinary(w: World) {
    && w.record.hasWorkDir && w.record.scaleway && w.client && !w.record.released
    && w.record.projectId != "" && w.marker == Some(w.record.projectId)
    && (w.record.projectId in w.projects || StraysNow(w) == {})
  }

  /** A live stray of no state, and of no flag that stops the next pass. */
  predicate Unaccounted(w: World, r: Resource) {
    r in w.alive && r !in StraysNow(w) && !(w.record.sweepFailed && Entries(w) == {})
  }

  /** Every call of every pass succeeds, but for the delete of a project held up by what is in it. */
  predicate Succeeds(e: Event) {
    e.TeardownPass? ==> e.o == GOOD_PASS || e.o == GOOD_PASS.(projectDeleted := false)
  }

  lemma OneStep(w: World, e: Event)
    ensures Steps(w, [e]) == Step(w, e)
  {
    assert [e][1..] == [] && Steps(Step(w, e), []) == Step(w, e);
  }

  /** With no other stray recorded the next pass releases the record; with one, a
      pass, an upgrade and a pass do. The stray lives on, and no call failed but
      the sweep and the project's delete. */
  lemma UnaccountedIsLaundered(w: World, r: Resource) returns (es: seq<Event>)
    requires Ordinary(w) && Unaccounted(w, r)
    ensures forall e :: e in es ==> Succeeds(e)
    ensures Steps(w, es).record.released && r in Steps(w, es).alive
    ensures StraysNow(w) == {} ==> es == [TeardownPass(GOOD_PASS)]
  {
    if StraysNow(w) == {} {
      es := [TeardownPass(GOOD_PASS)];
      OneStep(w, es[0]);
    } else {
      var web := Resource("server", w.record.projectId);
      var first := TeardownPass(GOOD_PASS.(projectDeleted := false));
      es := [first, Upgrade(Apply({web}, {}, {})), TeardownPass(GOOD_PASS)];
      assert es[1..] == [Upgrade(Apply({web}, {}, {})), TeardownPass(GOOD_PASS)];
      TwoSteps(Step(w, first), Upgrade(Apply({web}, {}, {})), TeardownPass(GOOD_PASS));
      assert Strays({web}, w.record.projectId) == {};
    }
  }

  /** Whatever a step loses, some continuation launders: what NoLaundering asks of
      every step is no more than it must. */
  lemma LossLaunders(w: World, e: Event, strays: set<Resource>) returns (es: seq<Event>, r: Resource)
    requires Inv(w, strays) && Ordinary(w) && Loses(w, e, strays)
    ensures r in strays && forall f :: f in es ==> Succeeds(f)
    ensures var w' := Steps(Step(w, e), es); w'.record.released && r in w'.alive
  {
    var w' := Step(w, e);
    r :| r in strays && LosesOne(w, e, r);
    es := UnaccountedIsLaundered(w', r);
  }

  // ----- The project a release leaves -----

  /** The project teardown must see gone is gone when a pass releases, exactly
      unless the state is empty, nothing ties the record's project to the
      marker's, and the marker's is there. */
  lemma ReleaseLeavesProject(w: World, o: Outcomes)
    requires Pass(w, o).1.Released?
    ensures var w' := Pass(w, o).0;
            OwnProject(w') in w'.projects <==>
            !StateMayHold(w.state, o.stateReadable) && !ProjectChecked(w) && OwnProject(w) in w.projects
  {
  }

  // ----- Each assumption is needed -----

  const GOOD_PASS := Outcomes(true, false, true, {}, {}, true, true, true, true, true)
  const STRAY := Resource("volume", "other")

  function Deployed(): World {
    World(Record("p", true, false, true, false, false), Some("p"), Some({STRAY}), {"p"}, {STRAY}, true)
  }

  lemma TwoSteps(w: World, a: Event, b: Event)
    ensures Steps(w, [a, b]) == Step(Step(w, a), b)
  {
    assert [a, b][1..] == [b] && [b][1..] == [];
    assert Steps(Step(w, a), [b]) == Steps(Step(Step(w, a), b), []);
  }

  /** When the flag of a failed sweep is not written, the next pass launders it. */
  lemma LostFlagLaunders()
    ensures var w := Steps(Deployed(), [TeardownPass(GOOD_PASS.(flagWritten := false)), TeardownPass(GOOD_PASS)]);
            w.record.released && STRAY in w.alive
  {
    TwoSteps(Deployed(), TeardownPass(GOOD_PASS.(flagWritten := false)), TeardownPass(GOOD_PASS));
    assert STRAY in Strays({STRAY}, "p");
  }

  /** When a failed destroy drops a live stray from the state, the next pass launders it. */
  lemma DroppedStrayLaunders()
    ensures var w := Steps(Deployed(), [TeardownPass(GOOD_PASS.(destroyOk := false, dropped := {STRAY})), TeardownPass(GOOD_PASS)]);
            w.record.released && STRAY in w.alive
  {
    TwoSteps(Deployed(), TeardownPass(GOOD_PASS.(destroyOk := false, dropped := {STRAY})), TeardownPass(GOOD_PASS));
  }

  /** An upgrade over a failed sweep gives the state resources again, and the
      teardown after it sweeps for those alone: nothing reads the flag there. */
  lemma UpgradeOverFailedSweepLaunders()
    ensures var web := Resource("server", "p");
            var keptProject := GOOD_PASS.(projectDeleted := false);
            var w := Steps(Deployed(), [TeardownPass(keptProject), Upgrade(Apply({web}, {}, {})), TeardownPass(GOOD_PASS)]);
            w.record.sweepFailed && w.record.released && STRAY in w.alive
  {
    var web := Resource("server", "p");
    var first := TeardownPass(GOOD_PASS.(projectDeleted := false));
    var w1 := Step(Deployed(), first);
    assert [first, Upgrade(Apply({web}, {}, {})), TeardownPass(GOOD_PASS)][1..] == [Upgrade(Apply({web}, {}, {})), TeardownPass(GOOD_PASS)];
    TwoSteps(w1, Upgrade(Apply({web}, {}, {})), TeardownPass(GOOD_PASS));
    assert Strays({web}, "p") == {};
  }

  /** An upgrade whose new configuration drops a live stray from the state without
      its being gone leaves nothing to stop the next pass. */
  lemma UpgradeDropsStray()
    ensures var web := Resource("server", "p");
            var w := Steps(Deployed(), [Upgrade(Apply({web}, {}, {STRAY})), TeardownPass(GOOD_PASS)]);
            w.record.released && STRAY in w.alive
  {
    var web := Resource("server", "p");
    TwoSteps(Deployed(), Upgrade(Apply({web}, {}, {STRAY})), TeardownPass(GOOD_PASS));
    assert Entries(Deployed()) - {STRAY} + {web} == {web};
    assert Strays({web}, "p") == {};
  }

  // ----- Teardown and forget -----

  /** reclaimable: teardown could still act on this record. markerFile says a
      marker file exists, readable or not. */
  predicate Reclaimable(w: World, markerFile: bool, stateReadable: bool) {
    && !w.record.undecodable && !w.record.released && w.record.hasWorkDir && w.record.scaleway
    && (markerFile || w.state.Some?)
    && w.record.projectId != ""
    && !(w.record.sweepFailed && !StateMayHold(w.state, stateReadable))
  }

  /** Teardown points at forget only for records forget accepts; and of the
      records it can decode, that are not released, that name a project and whose
      workdir holds a marker or a state, those are the only ones forget accepts. */
  lemma NoDeadEnd(w: World, markerFile: bool, o: Outcomes)
    ensures Pass(w, o).1.PointsAtForget? ==> !Reclaimable(w, markerFile, o.stateReadable)
    ensures !w.record.undecodable && !w.record.released && w.record.projectId != "" && (markerFile || w.state.Some?) ==>
            (Reclaimable(w, markerFile, o.stateReadable) <==> !Pass(w, o).1.PointsAtForget?)
  {
  }

  /** Forget refuses a record some pass would destroy the resources of, or release. */
  lemma ForgetRefusesWhatTeardownCan(w: World, markerFile: bool, o: Outcomes)
    requires !w.record.undecodable && !w.record.released && w.record.projectId != ""
    ensures Destroys(w, o) ==> Reclaimable(w, markerFile, o.stateReadable)
    ensures Pass(w, o).1.Released? && (markerFile || w.state.Some?) ==> Reclaimable(w, markerFile, o.stateReadable)
  {
  }

  /** A pass deletes no project but the one its record and its marker both name,
      and only on proof that the run made it; it kills nothing unless it destroys. */
  lemma PassTouchesOnlyItsOwn(w: World, o: Outcomes)
    ensures var w' := Pass(w, o).0;
            && (w'.projects == w.projects
                || (w'.projects == w.projects - {w.record.projectId}
                    && w.record.projectId != "" && w.marker == Some(w.record.projectId) && o.provenanceOk && o.projectDeleted))
            && w'.alive == (if Destroys(w, o) then w.alive - o.killed else w.alive)
            && w'.marker == w.marker
            && (w'.record == w.record || w'.record == w.record.(sweepFailed := true)
                || (w'.record.released && Pass(w, o).1.Released?))
  {
  }

  /** A pass whose every call succeeds releases a record forget refuses,
      exactly unless its state records a stray. */
  lemma ReclaimableIsReleased(w: World, o: Outcomes)
    requires Reclaimable(w, true, true) && w.marker == Some(w.record.projectId) && w.client
    requires o == GOOD_PASS.(killed := o.killed)
    ensures Pass(w, o).1.Released? <==> StraysNow(w) == {}
  {
    if !StateMayHold(w.state, true) {
      assert Entries(w) == {};
    }
  }
}
