/** The server's deploy lock, and the preview that reads it before the estate. */
module DeployLock {
  import opened Wrappers
  import opened Sorting

  // ----- The lock -----

  datatype Refusal = NotFound | InProgress | NothingStarted | CommandFailed

  datatype Outcome = Deployed | Refused(why: Refusal)

  /** What the deploy command does once it is called. */
  datatype Command = Succeeds | Fails | Panics

  class LiveDeployer {
    var deploying: map<string, bool>

    /** A name in the map with `false` would be listed and not refused: it never is. */
    ghost predicate Valid()
      reads this
    {
      forall s :: s in deploying ==> deploying[s]
    }

    constructor ()
      ensures Valid() && deploying == map[]
    {
      deploying := map[];
    }

    method Claim(scenario: string) returns (free: bool)
      requires Valid()
      modifies this
      ensures Valid()
      ensures free <==> scenario !in old(deploying)
      ensures deploying.Keys == old(deploying.Keys) + {scenario}
    {
      if scenario in deploying && deploying[scenario] {
        return false;
      }
      deploying := deploying[scenario := true];
      free := true;
    }

    method Release(scenario: string)
      requires Valid()
      modifies this
      ensures Valid() && deploying.Keys == old(deploying.Keys) - {scenario}
    {
      deploying := map s | s in deploying && s != scenario :: deploying[s];
    }

    /** The scenarios in flight, each once and in order. */
    method InFlight() returns (out: seq<string>)
      requires Valid()
      ensures forall s :: s in out <==> s in deploying
      ensures Distinct(out) && Sorted(out)
    {
      out := [];
      var todo := deploying.Keys;
      while todo != {}
        invariant todo <= deploying.Keys
        invariant forall s :: s in out <==> s in deploying && s !in todo
        invariant Distinct(out)
        decreases |todo|
      {
        var s :| s in todo;
        todo := todo - {s};
        out := out + [s];
      }
      SortKeeps(out);
      out := Sort(out);
    }

    /** One request. However it ends the claim it made is given back, and a
        request that was refused gives back no one else's. */
    method Deploy(scenario: string, resolves: bool, runtimeBuilt: bool, flagsSet: bool, command: Command)
        returns (outcome: Option<Outcome>)
      requires Valid()
      modifies this
      ensures Valid() && deploying.Keys == old(deploying.Keys)
      ensures outcome.None? <==>
              resolves && scenario !in old(deploying) && runtimeBuilt && flagsSet && command.Panics?
      ensures outcome == Some(Refused(InProgress)) <==> resolves && scenario in old(deploying)
      ensures outcome == Some(Refused(NotFound)) <==> !resolves
      ensures outcome == Some(Refused(CommandFailed)) <==>
              resolves && scenario !in old(deploying) && runtimeBuilt && flagsSet && command.Fails?
      ensures outcome == Some(Deployed) <==>
              resolves && scenario !in old(deploying) && runtimeBuilt && flagsSet && command.Succeeds?
    {
      if !resolves {
        return Some(Refused(NotFound));
      }
      var free := Claim(scenario);
      if !free {
        return Some(Refused(InProgress));
      }
      if !runtimeBuilt || !flagsSet {
        outcome := Some(Refused(NothingStarted));
      } else {
        match command
        case Succeeds => outcome := Some(Deployed);
        case Fails => outcome := Some(Refused(CommandFailed));
        case Panics => outcome := None;
      }
      Release(scenario);
    }
  }

  // ----- Requests, the estate and other processes, interleaved -----

  type Id = string

  datatype Phase = Claimed | Applied | Recorded | Unrecorded | Over

  /** One deploy request that won the lock. */
  datatype Request = Request(scenario: string, phase: Phase, registered: bool)

  datatype Record = Record(scenario: string, released: bool, readable: bool)

  datatype World = World(deploying: set<string>, requests: map<Id, Request>, estate: map<Id, Record>)

  datatype Step =
    | Claim(id: Id, scenario: string)
    | Apply(id: Id)
    | Register(id: Id, written: bool)
    | Release(id: Id)
    | Elsewhere(id: Id, scenario: string) // another process records a deployment
    | TearDown(id: Id)
    | Damage(id: Id)
    | Mend(id: Id)

  predicate InFlight(w: World, id: Id) {
    id in w.requests && !w.requests[id].phase.Over?
  }

  predicate Enabled(w: World, step: Step) {
    match step
    case Claim(id, s) => id !in w.requests && id !in w.estate && s !in w.deploying
    case Apply(id) => id in w.requests && w.requests[id].phase.Claimed?
    case Register(id, _) => id in w.requests && w.requests[id].phase.Applied? && id !in w.estate
    case Release(id) => InFlight(w, id)
    case Elsewhere(id, _) => id !in w.estate && id !in w.requests
    case TearDown(id) => id in w.estate
    case Damage(id) => id in w.estate
    case Mend(id) => id in w.estate
  }

  function After(w: World, step: Step): World
    requires Enabled(w, step)
  {
    match step
    case Claim(id, s) =>
      w.(deploying := w.deploying + {s}, requests := w.requests[id := Request(s, Claimed, false)])
    case Apply(id) => w.(requests := w.requests[id := w.requests[id].(phase := Applied)])
    case Register(id, written) =>
      var r := w.requests[id];
      if written then
        w.(requests := w.requests[id := r.(phase := Recorded, registered := true)],
           estate := w.estate[id := Record(r.scenario, false, true)])
      else w.(requests := w.requests[id := r.(phase := Unrecorded)])
    case Release(id) =>
      var r := w.requests[id];
      w.(deploying := w.deploying - {r.scenario}, requests := w.requests[id := r.(phase := Over)])
    case Elsewhere(id, s) => w.(estate := w.estate[id := Record(s, false, true)])
    case TearDown(id) => w.(estate := w.estate[id := w.estate[id].(released := true)])
    case Damage(id) => w.(estate := w.estate[id := w.estate[id].(readable := false)])
    case Mend(id) => w.(estate := w.estate[id := w.estate[id].(readable := true)])
  }

  predicate Holds(w: World, id: Id, s: string) {
    InFlight(w, id) && w.requests[id].scenario == s
  }

  /** The lock holds exactly the scenarios in flight, one request each. */
  ghost predicate Locked(w: World) {
    && (forall id, s :: Holds(w, id, s) ==> s in w.deploying)
    && (forall s :: s in w.deploying ==> exists id :: Holds(w, id, s))
    && (forall a, b, s :: Holds(w, a, s) && Holds(w, b, s) ==> a == b)
  }

  /** What a request registered is in the estate, under its scenario. */
  ghost predicate Registered(w: World) {
    forall id :: id in w.requests && w.requests[id].registered ==>
      id in w.estate && w.estate[id].scenario == w.requests[id].scenario
  }

  ghost predicate Inv(w: World) {
    Locked(w) && Registered(w)
  }

  predicate Start(w: World) {
    w.deploying == {} && w.requests == map[]
  }

  /** A step changes who is in flight only by the claim and the release. */
  lemma {:induction false} HoldsAfter(w: World, step: Step, id: Id, s: string)
    requires Enabled(w, step)
    ensures Holds(After(w, step), id, s) <==>
            (Holds(w, id, s) && step != Release(id)) || step == Claim(id, s)
  {
  }

  lemma {:induction false} DeployingAfter(w: World, step: Step)
    requires Enabled(w, step)
    ensures After(w, step).deploying ==
            match step
            case Claim(_, s) => w.deploying + {s}
            case Release(id) => w.deploying - {w.requests[id].scenario}
            case _ => w.deploying
  {
  }

  lemma {:induction false} StepKeepsLock(w: World, step: Step)
    requires Locked(w) && Enabled(w, step)
    ensures Locked(After(w, step))
  {
    var w' := After(w, step);
    DeployingAfter(w, step);
    forall id, s ensures Holds(w', id, s) <==> (Holds(w, id, s) && step != Release(id)) || step == Claim(id, s) {
      HoldsAfter(w, step, id, s);
    }
    assert step.Release? ==> Holds(w, step.id, w.requests[step.id].scenario);
    forall s | s in w'.deploying ensures exists id :: Holds(w', id, s) {
      if s in w.deploying {
        var id :| Holds(w, id, s);
        assert Holds(w', id, s);
      } else {
        assert Holds(w', step.id, s);
      }
    }
  }

  lemma {:induction false} StepKeepsInv(w: World, step: Step)
    requires Inv(w) && Enabled(w, step)
    ensures Inv(After(w, step))
  {
    StepKeepsLock(w, step);
  }

  /** What one request keeps through any step: it stays known under its
      scenario, over for good once it is over, and its record stays its own. */
  predicate Onward(w: World, w': World, id: Id) {
    id in w.requests ==>
      && id in w'.requests && w'.requests[id].scenario == w.requests[id].scenario
      && (w.requests[id].phase.Over? ==> w'.requests[id] == w.requests[id])
  }

  lemma {:induction false} StepGoesOn(w: World, step: Step, id: Id)
    requires Enabled(w, step)
    ensures Onward(w, After(w, step), id)
  {
  }

  predicate IsRun(ws: seq<World>, steps: seq<Step>) {
    && |ws| == |steps| + 1
    && Start(ws[0])
    && forall i :: 0 <= i < |steps| ==> Enabled(ws[i], steps[i]) && ws[i + 1] == After(ws[i], steps[i])
  }

  lemma {:induction false} RunKeepsInv(ws: seq<World>, steps: seq<Step>, i: nat)
    requires IsRun(ws, steps) && i < |ws|
    ensures Inv(ws[i])
  {
    if i > 0 {
      RunKeepsInv(ws, steps, i - 1);
      StepKeepsInv(ws[i - 1], steps[i - 1]);
    }
  }

  lemma {:induction false} RunGoesOn(ws: seq<World>, steps: seq<Step>, i: nat, j: nat, id: Id)
    requires IsRun(ws, steps) && i <= j < |ws|
    ensures Onward(ws[i], ws[j], id)
    decreases j
  {
    if i < j {
      RunGoesOn(ws, steps, i, j - 1, id);
      StepGoesOn(ws[j - 1], steps[j - 1], id);
    }
  }

  /** At most one deploy of a scenario lies between claim and release. */
  lemma OneDeployPerScenario(ws: seq<World>, steps: seq<Step>, i: nat, a: Id, b: Id)
    requires IsRun(ws, steps) && i < |ws| && InFlight(ws[i], a) && InFlight(ws[i], b)
    requires ws[i].requests[a].scenario == ws[i].requests[b].scenario
    ensures a == b
  {
    RunKeepsInv(ws, steps, i);
    assert Holds(ws[i], a, ws[i].requests[a].scenario) && Holds(ws[i], b, ws[i].requests[a].scenario);
  }

  // ----- What the preview answers -----

  predicate LiveOf(estate: map<Id, Record>, s: string, id: Id) {
    id in estate && estate[id].readable && !estate[id].released && estate[id].scenario == s
  }

  predicate Whole(estate: map<Id, Record>) {
    forall id :: id in estate ==> estate[id].readable
  }

  /** No entry in either list, with the claim that the estate was read in full. */
  predicate Quiet(atFirst: World, atSecond: World, s: string) {
    s !in atFirst.deploying && Whole(atSecond.estate) && forall id :: id in atSecond.estate ==> !LiveOf(atSecond.estate, s, id)
  }

  /** In-flight first, estate second: a deploy begun before the first read, and
      registered before it released, is in one of the answers, unless it was torn
      down or the estate answer says it may be missing something. */
  lemma Covered(ws: seq<World>, steps: seq<Step>, i: nat, j: nat, id: Id)
    requires IsRun(ws, steps) && i <= j < |ws| && id in ws[i].requests
    requires id in ws[j].requests && ws[j].requests[id].phase.Over? ==> ws[j].requests[id].registered
    ensures var s := ws[i].requests[id].scenario;
            || s in ws[i].deploying
            || LiveOf(ws[j].estate, s, id)
            || !Whole(ws[j].estate)
            || (id in ws[j].estate && ws[j].estate[id].released)
  {
    RunKeepsInv(ws, steps, i);
    RunKeepsInv(ws, steps, j);
    RunGoesOn(ws, steps, i, j, id);
    assert InFlight(ws[i], id) ==> Holds(ws[i], id, ws[i].requests[id].scenario);
    assert id in ws[j].estate && !ws[j].estate[id].readable ==> !Whole(ws[j].estate);
  }

  /** A quiet answer about a scenario means that every deploy of it begun by the
      first read was over by then, and is torn down or was never recorded. */
  lemma QuietMeansNone(ws: seq<World>, steps: seq<Step>, i: nat, j: nat, s: string)
    requires IsRun(ws, steps) && i <= j < |ws| && Quiet(ws[i], ws[j], s)
    ensures forall id :: id in ws[i].requests && ws[i].requests[id].scenario == s ==>
              && ws[i].requests[id].phase.Over?
              && (ws[i].requests[id].registered ==> id in ws[j].estate && ws[j].estate[id].released)
  {
    forall id | id in ws[i].requests && ws[i].requests[id].scenario == s
      ensures && ws[i].requests[id].phase.Over?
              && (ws[i].requests[id].registered ==> id in ws[j].estate && ws[j].estate[id].released)
    {
      RunKeepsInv(ws, steps, i);
      RunKeepsInv(ws, steps, j);
      RunGoesOn(ws, steps, i, j, id);
      assert !Holds(ws[i], id, s);
      assert id in ws[j].estate ==> !LiveOf(ws[j].estate, s, id);
    }
  }

  /** When the reader's own claim is refused after a quiet answer: exactly when a
      request for the scenario, begun after the first read, is in flight then. */
  lemma ClaimRefusedExactly(ws: seq<World>, steps: seq<Step>, i: nat, j: nat, k: nat, s: string, mine: Id)
    requires IsRun(ws, steps) && i <= j <= k < |ws| && Quiet(ws[i], ws[j], s)
    requires mine !in ws[k].requests && mine !in ws[k].estate
    ensures !Enabled(ws[k], Claim(mine, s)) <==> exists id :: id !in ws[i].requests && Holds(ws[k], id, s)
  {
    RunKeepsInv(ws, steps, k);
    QuietMeansNone(ws, steps, i, j, s);
    if s in ws[k].deploying {
      var id :| Holds(ws[k], id, s);
      RunGoesOn(ws, steps, i, k, id);
      assert id !in ws[i].requests;
    }
  }

  const SECOND_DEPLOY := [
    Claim("d", "web"), Apply("d"), Register("d", true), Release("d"),
    Claim("mine", "web"), Apply("mine"), Register("mine", true)]

  /** A deploy that begins after the in-flight read, when the estate is read
      before it registers, and is over before the reader claims, is in neither
      answer and refuses nothing: the reader makes a second one. */
  lemma SecondDeploy() returns (ws: seq<World>)
    ensures IsRun(ws, SECOND_DEPLOY) && Quiet(ws[0], ws[1], "web")
    ensures Enabled(ws[4], Claim("mine", "web"))
    ensures LiveOf(ws[7].estate, "web", "d") && LiveOf(ws[7].estate, "web", "mine")
  {
    var w0 := World({}, map[], map[]);
    var w1 := After(w0, Claim("d", "web"));
    var w2 := After(w1, Apply("d"));
    var w3 := After(w2, Register("d", true));
    var w4 := After(w3, Release("d"));
    var w5 := After(w4, Claim("mine", "web"));
    var w6 := After(w5, Apply("mine"));
    var w7 := After(w6, Register("mine", true));
    ws := [w0, w1, w2, w3, w4, w5, w6, w7];
  }

  /** The other order misses a deploy that is live: it had not registered when
      the estate was read and had released when the in-flight list was. */
  lemma ReversedOrderMisses(ws: seq<World>, steps: seq<Step>)
    requires steps == [Claim("d", "web"), Apply("d"), Register("d", true), Release("d")]
    requires ws == Worlds(World({}, map[], map[]), steps)
    ensures IsRun(ws, steps) && Quiet(ws[4], ws[2], "web") && LiveOf(ws[4].estate, "web", "d")
    ensures "d" in ws[2].requests && "d" in ws[4].requests && ws[4].requests["d"].registered
  {
    var w := World({}, map[], map[]);
    var w1 := After(w, Claim("d", "web"));
    var w2 := After(w1, Apply("d"));
    var w3 := After(w2, Register("d", true));
    var w4 := After(w3, Release("d"));
    assert steps[1..] == [Apply("d"), Register("d", true), Release("d")];
    assert steps[1..][1..] == [Register("d", true), Release("d")];
    assert steps[1..][1..][1..] == [Release("d")];
    assert Worlds(w3, [Release("d")]) == [w3, w4];
    assert Worlds(w2, steps[1..][1..]) == [w2, w3, w4];
    assert Worlds(w1, steps[1..]) == [w1, w2, w3, w4];
    assert ws == [w, w1, w2, w3, w4];
  }

  /** The worlds a list of steps goes through, as far as they are enabled. */
  function Worlds(w: World, steps: seq<Step>): seq<World>
    decreases |steps|
  {
    if steps == [] || !Enabled(w, steps[0]) then [w]
    else [w] + Worlds(After(w, steps[0]), steps[1..])
  }

  // ----- The reads, as they run -----

  /** The store's listing: the records that decode, and how many do not. */
  datatype Listing = Listing(records: seq<(Id, Record)>, unreadable: nat)

  datatype Answer = Answer(live: seq<Id>, unknown: bool)

  /** liveDeploymentsOf: no lister answers nothing at all; a name or a read that
      fails answers unknown; else the unreleased records of the scenario. */
  method LiveDeploymentsOf(name: string, hasLister: bool, listing: Option<Listing>) returns (answer: Option<Answer>)
    ensures answer.None? <==> name != "" && !hasLister
    ensures answer.Some? && !answer.value.unknown <==>
            name != "" && hasLister && listing.Some? && listing.value.unreadable == 0
    ensures answer.Some? ==> forall id ::
              id in answer.value.live <==>
              && name != "" && listing.Some?
              && exists r :: (id, r) in listing.value.records && r.scenario == name && !r.released
    ensures answer.Some? ==> Sorted(answer.value.live)
  {
    if name == "" {
      return Some(Answer([], true));
    }
    if !hasLister {
      return None;
    }
    if listing.None? {
      return Some(Answer([], true));
    }
    var records := listing.value.records;
    var out := [];
    for i := 0 to |records|
      invariant forall id :: id in out <==> exists r :: (id, r) in records[..i] && r.scenario == name && !r.released
    {
      var (id, r) := records[i];
      assert records[..i + 1] == records[..i] + [records[i]];
      if r.scenario == name && !r.released {
        out := out + [id];
      }
    }
    assert records[..|records|] == records;
    SortKeeps(out);
    answer := Some(Answer(Sort(out), listing.value.unreadable > 0));
  }

  /** A listing of an estate holds the records that decode, and counts a record that does not. */
  ghost predicate Lists(listing: Listing, estate: map<Id, Record>) {
    && (forall id, r :: (id, r) in listing.records <==> id in estate && estate[id] == r && r.readable)
    && (listing.unreadable == 0 <==> Whole(estate))
  }

  /** The method's answer is the one the theorems are about. */
  method DeployPreview(deployer: LiveDeployer, name: string, listing: Listing, ghost first: World, ghost second: World)
      returns (alreadyDeploying: bool, live: seq<Id>, unknown: bool)
    requires deployer.Valid() && deployer.deploying.Keys == first.deploying
    requires Lists(listing, second.estate) && name != ""
    ensures alreadyDeploying <==> name in first.deploying
    ensures forall id :: id in live <==> LiveOf(second.estate, name, id)
    ensures !alreadyDeploying && live == [] && !unknown <==> Quiet(first, second, name)
  {
    var inFlight := deployer.InFlight();
    alreadyDeploying := name in inFlight;
    var answer := LiveDeploymentsOf(name, true, Some(listing));
    live, unknown := answer.value.live, answer.value.unknown;
    forall id ensures id in live <==> LiveOf(second.estate, name, id) {
      if LiveOf(second.estate, name, id) {
        assert (id, second.estate[id]) in listing.records;
      }
    }
    assert live != [] ==> live[0] in live && LiveOf(second.estate, name, live[0]);
  }
}
