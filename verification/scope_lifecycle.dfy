/** The aws scope's lifecycle in one process: taking the claim, tearing down,
    releasing after a clean sweep, and reaping what another run left.

    Every call that leaves the process takes its outcome as a parameter, so a
    contract holds whatever the outcomes are. */
module ScopeLifecycle {
  import opened Wrappers
  import opened ScopeClaim

  type Resource = string

  /** A put: whether it lands on an empty store, and whether its answer arrives. */
  datatype PutOutcome = PutOutcome(lands: bool, answered: bool, readBackFails: bool)

  /** A read-then-delete: whether the read fails, the delete lands, its answer arrives. */
  datatype DeleteOutcome = DeleteOutcome(readFails: bool, lands: bool, answered: bool)

  function AnswerOf(claim: Option<Holder>, fails: bool): Answer {
    if fails then Failed else if claim.None? then Absent else Value(claim.value)
  }

  /** TakeAWSClaim: a put that never overwrites, read back when it failed. */
  function TakeOp(claim: Option<Holder>, me: Holder, o: PutOutcome): (Option<Holder>, Option<ClaimError>) {
    var landed := o.lands && claim.None?;
    var after := if landed then Some(me) else claim;
    (after, if landed && o.answered then None else TakeVerdict(me, AnswerOf(after, o.readBackFails)))
  }

  /** deleteAWSClaimHeldBy: a delete only of the claim `want` holds. */
  function DeleteOp(claim: Option<Holder>, want: Holder, o: DeleteOutcome): (Option<Holder>, Option<ClaimError>) {
    var refusal := DeleteRefusal(want, AnswerOf(claim, o.readFails));
    if refusal.Some? then (claim, refusal)
    else (if o.lands then None else claim, if o.lands && o.answered then None else Some(OtherError))
  }

  /** TakeOverAWSClaim of an ended holder: a delete, then a take. */
  function TakeOverOp(claim: Option<Holder>, prev: Holder, me: Holder, d: DeleteOutcome, p: PutOutcome)
    : (Option<Holder>, Option<ClaimError>)
  {
    var (deleted, err) := DeleteOp(claim, prev, d);
    if err.Some? then (deleted, err)
    else
      var (taken, takeErr) := TakeOp(deleted, me, p);
      (taken, if takeErr.Some? then Some(PreviousDeleted(takeErr.value)) else None)
  }

  // ----- The operations are runs of the request-level protocol -----

  function TakeEvents(claim: Option<Holder>, me: Holder, o: PutOutcome): seq<Event> {
    var landed := o.lands && claim.None?;
    var answered := landed && o.answered;
    if answered then [Put(me, landed, true)] else [Put(me, landed, false), ReadBack(me, o.readBackFails)]
  }

  /** What a process knows once its put is settled. */
  function BeliefAfterPut(p: Proc, err: Option<ClaimError>): Belief {
    var over := if p.pc.OverTaking? && err.Some? then Some(PreviousDeleted(err.value)) else err;
    if p.actor.Running? then AfterTake(over) else AfterReapTake(p.belief, over)
  }

  /** TakeOp is the put and its read-back with no other process between them:
      a run's, a plain reap's, or a take-over's after its delete. */
  lemma TakeOpIsARun(w: World, me: Holder, o: PutOutcome)
    requires Live(w, me) && (w.procs[me].pc.Taking? || w.procs[me].pc.Fresh? || w.procs[me].pc.OverTaking?)
    ensures Run(w, TakeEvents(w.store, me, o))
    ensures var w' := After(w, TakeEvents(w.store, me, o));
            && w'.store == TakeOp(w.store, me, o).0
            && me in w'.procs && w'.procs[me].pc.Idle?
            && w'.procs[me].belief == BeliefAfterPut(w.procs[me], TakeOp(w.store, me, o).1)
  {
    var es := TakeEvents(w.store, me, o);
    var w1 := Apply(w, es[0]);
    if |es| == 2 {
      var w2 := Apply(w1, es[1]);
      assert Run(w2, []);
      FirstStep(w1, es[1], w2, []);
      FirstStep(w, es[0], w1, [es[1]]);
      assert es == [es[0]] + ([es[1]] + []);
    } else {
      assert Run(w1, []);
      FirstStep(w, es[0], w1, []);
      assert es == [es[0]] + [];
    }
  }

  function ReleaseEvents(claim: Option<Holder>, me: Holder, o: DeleteOutcome): seq<Event> {
    [ReleaseRead(me, o.readFails)] +
    if DeleteRefusal(me, AnswerOf(claim, o.readFails)).Some? then [] else [ReleaseDelete(me, o.lands, o.lands && o.answered)]
  }

  /** DeleteOp of one's own claim is the read and the delete with no other process between them. */
  lemma ReleaseIsARun(w: World, me: Holder, o: DeleteOutcome)
    requires Live(w, me) && w.procs[me].pc.Idle?
    ensures Run(w, ReleaseEvents(w.store, me, o))
    ensures var w' := After(w, ReleaseEvents(w.store, me, o));
            && w'.store == DeleteOp(w.store, me, o).0
            && me in w'.procs && w'.procs[me].belief == AfterRelease(DeleteOp(w.store, me, o).1) && w'.procs[me].pc.Idle?
  {
    var es := ReleaseEvents(w.store, me, o);
    var w1 := Apply(w, es[0]);
    if |es| == 2 {
      var w2 := Apply(w1, es[1]);
      assert es[1..][1..] == [] && Run(w2, []);
      assert es[1..][0] == es[1] && Run(w1, es[1..]) && After(w1, es[1..]) == w2;
    } else {
      assert es[1..] == [] && Run(w1, []);
    }
  }

  // ----- The advice a message gives -----

  datatype ReapCommand = Plain | TakeOver(prev: Holder)

  datatype Known = KnownHeld | KnownUnknown | KnownNotHeld | KnownByOther(other: Holder) | HolderUnknown

  /** What the advice can act on: a held or unknown claim with no holder to
      name, or another's with no name, has an unknown holder. */
  function KnownOf(b: Belief, me: Holder): Known {
    match b
    case Held => if me == "" then HolderUnknown else KnownHeld
    case Unknown => if me == "" then HolderUnknown else KnownUnknown
    case HeldByOther(o) => if o == "" then HolderUnknown else KnownByOther(o)
    case NotHeld => KnownNotHeld
  }

  function TakeOverOf(h: Holder): ReapCommand {
    if h == "" then Plain else TakeOver(h)
  }

  /** The reap commands a message names, the first one first. */
  function Advice(b: Belief, me: Holder): seq<ReapCommand> {
    match KnownOf(b, me)
    case KnownHeld => [TakeOverOf(me)]
    case KnownUnknown => [TakeOverOf(me), Plain]
    case KnownByOther(o) => [TakeOverOf(o)]
    case HolderUnknown => [Plain]
    case KnownNotHeld => [Plain]
  }

  datatype ReapResult =
    | Obtained
    | Refused(err: Option<ClaimError>, next: seq<ReapCommand>)

  /** claimAWSScopeForReap: the claim, what the reap knows after, and its result. */
  function ReapClaim(claim: Option<Holder>, b: Belief, me: Holder, cmd: ReapCommand,
                     d: DeleteOutcome, p: PutOutcome): (Option<Holder>, Belief, ReapResult)
  {
    match cmd
    case TakeOver(prev) =>
      var (after, err) := TakeOverOp(claim, prev, me, d, p);
      (after, AfterReapTake(b, err), ReapTakeResult(b, me, err))
    case Plain =>
      match AnswerOf(claim, d.readFails)
      case Failed => (claim, b, Refused(Some(OtherError), []))
      case Value(h) => (claim, b, Refused(None, [TakeOverOf(h)]))
      case Absent =>
        var (after, err) := TakeOp(claim, me, p);
        (after, AfterReapTake(b, err), ReapTakeResult(b, me, err))
  }

  /** awsReapTakeFailure: which reap the failure names, if any. */
  function ReapTakeResult(b: Belief, me: Holder, err: Option<ClaimError>): ReapResult {
    if err.None? then Obtained
    else if IsNoClaimHeld(err.value) then Refused(err, [Plain])
    else if !err.value.PreviousDeleted? && !IsOutcomeUnknown(err.value) && AsClaimedBy(err.value).None? then Refused(err, [])
    else Refused(err, Advice(AfterTake(err), me))
  }

  function TakeOverEvents(claim: Option<Holder>, prev: Holder, me: Holder, d: DeleteOutcome, p: PutOutcome): seq<Event> {
    [OverRead(me, prev, d.readFails)] +
    if DeleteRefusal(prev, AnswerOf(claim, d.readFails)).Some? then []
    else
      [OverDelete(me, d.lands, d.lands && d.answered)] + if d.lands && d.answered then TakeEvents(None, me, p) else []
  }

  /** TakeOverOp is the read, the delete and the put with no other process between them. */
  lemma TakeOverIsARun(w: World, prev: Holder, me: Holder, d: DeleteOutcome, p: PutOutcome)
    requires Live(w, me) && w.procs[me] == Proc(Reaping, Unknown, Fresh, false)
    requires prev in w.procs && w.procs[prev].ended
    ensures Run(w, TakeOverEvents(w.store, prev, me, d, p))
    ensures var w' := After(w, TakeOverEvents(w.store, prev, me, d, p));
            var (after, err) := TakeOverOp(w.store, prev, me, d, p);
            && w'.store == after
            && me in w'.procs && w'.procs[me].pc.Idle? && w'.procs[me].belief == AfterReapTake(Unknown, err)
  {
    var read, delete := OverRead(me, prev, d.readFails), OverDelete(me, d.lands, d.lands && d.answered);
    var w1 := Apply(w, read);
    if DeleteRefusal(prev, AnswerOf(w.store, d.readFails)).Some? {
      assert Run(w1, []);
      FirstStep(w, read, w1, []);
      assert TakeOverEvents(w.store, prev, me, d, p) == [read] + [];
    } else {
      var w2 := Apply(w1, delete);
      var rest := if d.lands && d.answered then TakeEvents(None, me, p) else [];
      if d.lands && d.answered {
        TakeOpIsARun(w2, me, p);
      }
      assert Run(w2, rest);
      FirstStep(w1, delete, w2, rest);
      FirstStep(w, read, w1, [delete] + rest);
    }
  }

  const QUIET_DELETE := DeleteOutcome(false, true, true)
  const QUIET_PUT := PutOutcome(true, true, false)

  /** Every request lands and is answered. */
  function QuietReap(claim: Option<Holder>, me: Holder, cmd: ReapCommand): (Option<Holder>, Belief, ReapResult) {
    ReapClaim(claim, Unknown, me, cmd, QUIET_DELETE, QUIET_PUT)
  }

  /** From any quiet store, whichever reap is tried first, that reap or the one
      its refusal names first obtains the claim: two commands suffice. */
  lemma TwoReapsSuffice(claim: Option<Holder>, cmd: ReapCommand, me: Holder, again: Holder)
    requires claim != Some("")
    ensures var (after, _, result) := QuietReap(claim, me, cmd);
            if result.Obtained? then after == Some(me)
            else
              && after == claim && result.next != []
              && QuietReap(after, again, result.next[0]) == (Some(again), Held, Obtained)
  {
  }

  /** What a teardown's advice does from the quiet store it leaves: a claim
      known held, or known not held and free, is obtained by the one command
      named; an unknown one by the command whose condition holds. */
  lemma AdviceWorks(claim: Option<Holder>, b: Belief, me: Holder, reaper: Holder)
    requires BeliefTrue(claim, me, b) && me != "" && claim != Some("")
    ensures b == Held ==> Advice(b, me) == [TakeOver(me)] && QuietReap(claim, reaper, TakeOver(me)).2.Obtained?
    ensures b == Unknown && claim == Some(me) ==>
        Advice(b, me)[0] == TakeOver(me) && QuietReap(claim, reaper, TakeOver(me)).2.Obtained?
    ensures claim.None? && (b.Unknown? || b.NotHeld?) ==> Plain in Advice(b, me) && QuietReap(claim, reaper, Plain).2.Obtained?
    ensures b.HeldByOther? && claim == Some(b.other) ==> QuietReap(claim, reaper, Advice(b, me)[0]).2.Obtained?
  {
  }

  /** A reap's belief is true of the store its take leaves, whatever the outcomes,
      and it knows as much as its answers tell: the claim it took, the other
      holder a take-over read, or that a take-over's delete left the store empty. */
  lemma ReapBeliefTrue(claim: Option<Holder>, me: Holder, cmd: ReapCommand, d: DeleteOutcome, p: PutOutcome)
    requires claim != Some(me)
    ensures var (after, b, result) := ReapClaim(claim, Unknown, me, cmd, d, p);
            && BeliefTrue(after, me, b)
            && (result.Obtained? <==> b == Held)
            && (result.Obtained? <==> after == Some(me) && (p.answered || !p.readBackFails))
            && (forall h :: b == HeldByOther(h) <==> cmd.TakeOver? && !d.readFails && claim == Some(h) && h != cmd.prev)
            && (b == NotHeld <==>
                cmd.TakeOver? && !d.readFails && claim == Some(cmd.prev) && d.lands && d.answered && !p.lands && !p.readBackFails)
  {
  }

  /** What a take tells: everything, unless the put's answer was lost and its read-back failed. */
  lemma TakeTells(claim: Option<Holder>, me: Holder, o: PutOutcome)
    ensures var (after, err) := TakeOp(claim, me, o);
            var b := AfterTake(err);
            var told := (o.lands && o.answered && claim.None?) || !o.readBackFails;
            && after == (if claim.None? && o.lands then Some(me) else claim)
            && (b == Unknown <==> !told)
            && (b == Held <==> told && after == Some(me))
            && (b == NotHeld <==> told && after.None?)
            && (forall h :: b == HeldByOther(h) <==> told && h != me && after == Some(h))
  {
  }

  /** What a release tells: everything, unless its read failed or its delete did. */
  lemma ReleaseTells(claim: Option<Holder>, me: Holder, o: DeleteOutcome)
    ensures var (after, err) := DeleteOp(claim, me, o);
            var b := AfterRelease(err);
            var told := !o.readFails && (claim == Some(me) ==> o.lands && o.answered);
            && after == (if claim == Some(me) && !o.readFails && o.lands then None else claim)
            && (b == Unknown <==> !told)
            && (b == NotHeld <==> told && after.None?)
            && (forall h :: b == HeldByOther(h) <==> told && after == Some(h))
            && b != Held
            && (err.None? <==> claim == Some(me) && told)
  {
  }

  // ----- One process -----

  datatype Status = Pass | Fail | Skip

  datatype StageKind = ScopeClaimStage | DestroyStage | ScopeSweep | ScopeRelease | ScopeReap | ClaimKept | HoldStage

  datatype Stage = Stage(kind: StageKind, status: Status)

  /** A failure, and the reaps its message names. */
  datatype Failure = Failure(kind: StageKind, advice: seq<ReapCommand>)

  /** The requests a process made of the scope, in order. */
  datatype Act = Destroyed | Swept(empty: bool) | StraysDeleted | ClaimAsked | ReleaseAsked

  ghost predicate AskedAfterCleanSweep(trace: seq<Act>, i: nat)
    requires i < |trace|
  {
    trace[i].ReleaseAsked? ==> i > 0 && trace[i - 1] == Swept(true)
  }

  /** Every release was asked for directly after a sweep that found the scope empty. */
  ghost predicate ReleasesFollowCleanSweeps(trace: seq<Act>) {
    forall i :: 0 <= i < |trace| ==> AskedAfterCleanSweep(trace, i)
  }

  lemma OneMoreAct(trace: seq<Act>, a: Act)
    requires ReleasesFollowCleanSweeps(trace)
    requires a.ReleaseAsked? ==> trace != [] && trace[|trace| - 1] == Swept(true)
    ensures ReleasesFollowCleanSweeps(trace + [a])
  {
    forall i | 0 <= i < |trace + [a]| ensures AskedAfterCleanSweep(trace + [a], i) {
      if i < |trace| {
        assert AskedAfterCleanSweep(trace, i);
      }
    }
  }

  /** The requests of a verdict sweep: the release follows only a clean one. */
  function VerdictActs(clean: bool): seq<Act> {
    if clean then [Swept(true), ReleaseAsked] else [Swept(false)]
  }

  predicate MayHold(b: Belief) {
    b.Held? || b.Unknown?
  }

  /** A destroy: whether it reports success, and what it leaves behind. */
  datatype DestroyOutcome = DestroyOutcome(ok: bool, leaves: set<Resource>)

  /** Why a wanted hold falls through to the destroy, or that it holds. */
  datatype HoldOutcome = NotWanted | CopyFails | Interrupted | Holds

  datatype TeardownOutcomes = TeardownOutcomes(
    hold: HoldOutcome, envFails: bool, stateMayHold: bool, destroy: DestroyOutcome,
    sweepFails: bool, release: DeleteOutcome)

  datatype ReapOutcomes = ReapOutcomes(
    stateMayHold: bool, destroy: DestroyOutcome, firstSweepFails: bool, found: set<Resource>, deletes: DestroyOutcome,
    sweepFails: bool, release: DeleteOutcome)

  /** What a teardown acts on. */
  datatype Scope = Scope(claim: Option<Holder>, belief: Belief, contents: set<Resource>, trace: seq<Act>)

  /** A destroy of what the state records, when there is a state, then the
      verdict sweep and the release a clean one allows. */
  function Cleaned(s: Scope, me: Holder, o: TeardownOutcomes): Scope {
    var left := if o.stateMayHold then s.contents * o.destroy.leaves else s.contents;
    var clean := !o.sweepFails && left == {};
    var (after, err) := DeleteOp(s.claim, me, o.release);
    Scope(
      if clean then after else s.claim,
      if clean then AfterRelease(err) else s.belief,
      left,
      s.trace + (if o.stateMayHold then [Destroyed] else []) + VerdictActs(clean))
  }

  /** What a reap's destroy leaves; it runs only when a state may hold something. */
  function AfterDestroy(contents: set<Resource>, o: ReapOutcomes): set<Resource> {
    if o.stateMayHold then contents * o.destroy.leaves else contents
  }

  /** What a reap leaves: of what the destroy left, what its sweep did not
      find or its delete did not delete. */
  function ReapLeft(contents: set<Resource>, o: ReapOutcomes): set<Resource> {
    set r | r in contents && (o.stateMayHold ==> r in o.destroy.leaves) && (r in o.found ==> r in o.deletes.leaves)
  }

  lemma ReapLeftInSteps(contents: set<Resource>, o: ReapOutcomes)
    ensures var left := AfterDestroy(contents, o); ReapLeft(contents, o) == left - (left * o.found - o.deletes.leaves)
  {
    var left := AfterDestroy(contents, o);
    assert forall r :: r in ReapLeft(contents, o) <==> r in left - (left * o.found - o.deletes.leaves);
  }

  function ReapActs(contents: set<Resource>, o: ReapOutcomes): seq<Act> {
    var left := AfterDestroy(contents, o);
    (if o.stateMayHold then [Destroyed] else [])
    + [Swept(!o.firstSweepFails && left == {})]
    + (if left * o.found != {} then [StraysDeleted] else [])
  }

  /** A teardown keeps the scope as it is on purpose, or because it has no
      account to destroy with; it cleans the scope otherwise. */
  predicate KeepsOnPurpose(s: Scope, me: Holder, skip: bool, o: TeardownOutcomes) {
    skip || (o.hold.Holds? && KnownOf(s.belief, me).KnownHeld?)
  }

  function TornDown(s: Scope, me: Holder, skip: bool, o: TeardownOutcomes): Scope {
    if KeepsOnPurpose(s, me, skip, o) || o.envFails then s else Cleaned(s, me, o)
  }

  /** A teardown released the claim: it was this process's, the sweep found
      nothing, and the delete landed and was answered. */
  predicate Releases(s: Scope, me: Holder, skip: bool, o: TeardownOutcomes) {
    && !KeepsOnPurpose(s, me, skip, o) && !o.envFails && !o.sweepFails
    && (if o.stateMayHold then s.contents * o.destroy.leaves else s.contents) == {}
    && s.claim == Some(me) && !o.release.readFails && o.release.lands && o.release.answered
  }

  /** A teardown names a failure: no release, a failed destroy before one, or
      a wanted hold that fell through for more than an interrupt. */
  predicate NamesFailure(s: Scope, me: Holder, skip: bool, o: TeardownOutcomes) {
    !KeepsOnPurpose(s, me, skip, o)
    && (|| !Releases(s, me, skip, o)
        || (o.stateMayHold && !o.destroy.ok)
        || (!o.hold.NotWanted? && (o.hold.CopyFails? || !KnownOf(s.belief, me).KnownHeld?)))
  }

  /** One process of the aws scope, the stored claim and the scope it sweeps. */
  class ScopeProcess {
    const holder: Holder
    var belief: Belief
    var claim: Option<Holder>
    var contents: set<Resource>
    var trace: seq<Act>
    var stages: seq<Stage>
    var failures: seq<Failure>

    constructor (holder: Holder, belief: Belief, claim: Option<Holder>, contents: set<Resource>)
      ensures this.holder == holder && this.belief == belief && this.claim == claim && this.contents == contents
      ensures trace == [] && stages == [] && failures == []
    {
      this.holder, this.belief, this.claim, this.contents := holder, belief, claim, contents;
      trace, stages, failures := [], [], [];
    }

    ghost function Now(): Scope
      reads this
    {
      Scope(claim, belief, contents, trace)
    }

    ghost predicate Valid()
      reads this
    {
      BeliefTrue(claim, holder, belief) && ReleasesFollowCleanSweeps(trace)
    }

    /** The claim was released, and only because a sweep just found the scope empty. */
    twostate predicate OnlyReleasedClean()
      reads this
    {
      && old(trace) <= trace
      && contents <= old(contents)
      && (claim != old(claim) ==>
          && old(claim) == Some(holder) && claim.None? && contents == {}
          && |trace| >= 2 && trace[|trace| - 2..] == [Swept(true), ReleaseAsked])
    }

    /** The ending says what becomes of the claim: released with no failure
        named, or, last of all, a failure naming the reaps that work. */
    ghost predicate SaysSo(released: bool)
      reads this
    {
      && (released ==> stages != [] && stages[|stages| - 1] == Stage(ScopeRelease, Pass) && !MayHold(belief))
      && (!released ==>
          && failures != [] && failures[|failures| - 1].advice == Advice(belief, holder)
          && (MayHold(belief) ==> failures[|failures| - 1].kind == ClaimKept))
    }

    /** ensureAWSScopeClaim: whether an account is returned, and whether it failed. */
    method EnsureClaim(checksFail: bool, o: PutOutcome) returns (account: bool, failed: bool)
      requires Valid() && belief != Unknown
      modifies this
      ensures Valid()
      ensures contents == old(contents)
      ensures checksFail ==> failed && !account && claim == old(claim) && belief == OnEntry(old(belief)) && trace == old(trace)
      ensures !checksFail ==> (claim, failed) == (TakeOp(old(claim), holder, o).0, TakeOp(old(claim), holder, o).1.Some?)
      ensures !checksFail ==> belief == AfterTake(TakeOp(old(claim), holder, o).1)
      ensures !failed ==> claim == Some(holder)
      ensures account <==> !checksFail && MayHold(belief)
      // The account is withheld from a process that may hold the claim only
      // when it held it before and a check then failed.
      ensures MayHold(belief) && !account <==> checksFail && old(belief) == Held
      ensures old(claim).Some? ==> claim == old(claim)
    {
      belief := OnEntry(belief);
      if checksFail {
        return false, true;
      }
      OneMoreAct(trace, ClaimAsked);
      trace := trace + [ClaimAsked];
      var (after, err) := TakeOp(claim, holder, o);
      claim, belief := after, AfterTake(err);
      failed := err.Some?;
      account := err.None? || IsOutcomeUnknown(err.value);
    }

    /** awsReleaseAfterCleanSweep: the one place a claim is released. */
    method ReleaseAfterCleanSweep(sweepFails: bool, o: DeleteOutcome) returns (released: bool)
      requires Valid()
      modifies this
      ensures Valid() && OnlyReleasedClean() && contents == old(contents)
      ensures sweepFails || contents != {} ==>
          && !released && claim == old(claim) && belief == old(belief)
          && trace == old(trace) + [Swept(false)]
          && stages == old(stages) + [Stage(ScopeSweep, Fail)]
          && failures == old(failures) + [Failure(ScopeSweep, [])]
      ensures !sweepFails && contents == {} ==>
          && (claim, belief) == (DeleteOp(old(claim), holder, o).0, AfterRelease(DeleteOp(old(claim), holder, o).1))
          && trace == old(trace) + [Swept(true), ReleaseAsked]
          && stages == old(stages) + [Stage(ScopeSweep, Pass), Stage(ScopeRelease, if released then Pass else Fail)]
          && failures == old(failures) + if released then [] else [Failure(ScopeRelease, [])]
      ensures released ==> belief == NotHeld && claim != Some(holder) && SaysSo(true)
      ensures trace == old(trace) + VerdictActs(!sweepFails && contents == {})
      ensures |stages| > |old(stages)| && old(stages) <= stages && old(failures) <= failures
      ensures released <==>
          && !sweepFails && contents == {}
          && old(claim) == Some(holder) && !o.readFails && o.lands && o.answered
    {
      if sweepFails || contents != {} {
        OneMoreAct(trace, Swept(false));
        trace := trace + [Swept(false)];
        stages := stages + [Stage(ScopeSweep, Fail)];
        failures := failures + [Failure(ScopeSweep, [])];
        return false;
      }
      OneMoreAct(trace, Swept(true));
      trace := trace + [Swept(true)];
      stages := stages + [Stage(ScopeSweep, Pass)];
      OneMoreAct(trace, ReleaseAsked);
      trace := trace + [ReleaseAsked];
      var (after, err) := DeleteOp(claim, holder, o);
      claim, belief := after, AfterRelease(err);
      released := err.None?;
      stages := stages + [Stage(ScopeRelease, if released then Pass else Fail)];
      if !released {
        failures := failures + [Failure(ScopeRelease, [])];
      }
    }

    /** awsScopeClaimKept: the ending's own stage, and the reap it names. */
    method ReportKept()
      modifies this`stages, this`failures
      ensures var kind := if KnownOf(belief, holder).KnownNotHeld? || KnownOf(belief, holder).KnownByOther?
                          then ScopeClaimStage else ClaimKept;
              && stages == old(stages) + [Stage(kind, Fail)]
              && failures == old(failures) + [Failure(kind, Advice(belief, holder))]
      ensures SaysSo(false)
    {
      var known := KnownOf(belief, holder);
      var kind := if known.KnownNotHeld? || known.KnownByOther? then ScopeClaimStage else ClaimKept;
      stages := stages + [Stage(kind, Fail)];
      failures := failures + [Failure(kind, Advice(belief, holder))];
    }

    /** destroyAWSSandbox and its stage; a failed destroy does not stop the caller. */
    method Destroy(o: DestroyOutcome)
      requires Valid()
      modifies this`trace, this`contents, this`stages, this`failures
      ensures Valid() && trace == old(trace) + [Destroyed] && contents == old(contents) * o.leaves
      ensures stages == old(stages) + [Stage(DestroyStage, if o.ok then Pass else Fail)]
      ensures failures == old(failures) + if o.ok then [] else [Failure(DestroyStage, [])]
    {
      OneMoreAct(trace, Destroyed);
      trace := trace + [Destroyed];
      contents := contents * o.leaves;
      stages := stages + [Stage(DestroyStage, if o.ok then Pass else Fail)];
      if !o.ok {
        failures := failures + [Failure(DestroyStage, [])];
      }
    }

    /** A reap's first sweep, and the delete of the strays it found. */
    method SweepAndDelete(firstSweepFails: bool, found: set<Resource>, deletes: DestroyOutcome)
      requires Valid()
      modifies this`trace, this`contents, this`stages, this`failures
      ensures Valid() && old(trace) < trace
      ensures contents == old(contents) - (old(contents) * found - deletes.leaves)
      ensures trace == old(trace) + [Swept(!firstSweepFails && old(contents) == {})]
                       + if old(contents) * found != {} then [StraysDeleted] else []
      ensures old(contents) * found != {} ==>
          && stages == old(stages) + [Stage(ScopeReap, if deletes.ok then Pass else Fail)]
          && failures == old(failures) + if deletes.ok then [] else [Failure(ScopeReap, [])]
      ensures old(contents) * found == {} ==> stages == old(stages) && failures == old(failures)
    {
      var strays := contents * found;
      OneMoreAct(trace, Swept(!firstSweepFails && contents == {}));
      trace := trace + [Swept(!firstSweepFails && contents == {})];
      if strays != {} {
        OneMoreAct(trace, StraysDeleted);
        trace := trace + [StraysDeleted];
        contents := contents - (strays - deletes.leaves);
        stages := stages + [Stage(ScopeReap, if deletes.ok then Pass else Fail)];
        if !deletes.ok {
          failures := failures + [Failure(ScopeReap, [])];
        }
      }
    }

    /** How both cleanings end: the verdict sweep, and the reap to run when it does not release. */
    method Verdict(sweepFails: bool, o: DeleteOutcome) returns (released: bool)
      requires Valid()
      modifies this
      ensures Valid() && OnlyReleasedClean() && SaysSo(released) && contents == old(contents)
      ensures var clean := !sweepFails && contents == {};
              && trace == old(trace) + VerdictActs(clean)
              && claim == (if clean then DeleteOp(old(claim), holder, o).0 else old(claim))
              && belief == (if clean then AfterRelease(DeleteOp(old(claim), holder, o).1) else old(belief))
              && (released <==> clean && old(claim) == Some(holder) && !o.readFails && o.lands && o.answered)
      ensures released ==> claim != Some(holder) && belief == NotHeld && failures == old(failures)
      ensures |stages| > |old(stages)| && old(stages) <= stages && old(failures) <= failures
      ensures !released ==> |failures| > |old(failures)|
    {
      released := ReleaseAfterCleanSweep(sweepFails, o);
      if !released {
        ReportKept();
      }
    }

    /** awsDestroyAndRelease. */
    method DestroyAndRelease(o: TeardownOutcomes) returns (released: bool)
      requires Valid()
      modifies this
      ensures Valid() && OnlyReleasedClean() && SaysSo(released)
      ensures released ==> contents == {} && claim != Some(holder)
      ensures contents == if o.stateMayHold then old(contents) * o.destroy.leaves else old(contents)
      ensures trace == old(trace) + (if o.stateMayHold then [Destroyed] else [])
                       + VerdictActs(!o.sweepFails && contents == {})
      ensures released <==>
          && !o.sweepFails && contents == {}
          && old(claim) == Some(holder) && !o.release.readFails && o.release.lands && o.release.answered
      ensures Now() == Cleaned(old(Now()), holder, o)
      // A destroy has the first stage, and a failed one is named.
      ensures |stages| > |old(stages)| && old(stages) <= stages && old(failures) <= failures
      ensures o.stateMayHold ==> stages[|old(stages)|] == Stage(DestroyStage, if o.destroy.ok then Pass else Fail)
      ensures o.stateMayHold && !o.destroy.ok ==>
          |failures| > |old(failures)| && failures[|old(failures)|] == Failure(DestroyStage, [])
      ensures released && !(o.stateMayHold && !o.destroy.ok) ==> failures == old(failures)
      ensures !released ==> |failures| > |old(failures)|
    {
      if o.stateMayHold {
        Destroy(o.destroy);
      }
      released := Verdict(o.sweepFails, o.release);
    }

    /** awsKeepHold: a wanted hold holds only a claim known held; one that falls
        through says so in a stage, and, but for an interrupt, in a failure. */
    method KeepHold(hold: HoldOutcome) returns (held: bool)
      requires !hold.NotWanted?
      modifies this`stages, this`failures
      ensures held <==> hold.Holds? && KnownOf(belief, holder).KnownHeld?
      ensures stages == old(stages) + [if held then Stage(ClaimKept, Skip) else Stage(HoldStage, Fail)]
      ensures failures == old(failures) +
                          if !KnownOf(belief, holder).KnownHeld? || hold.CopyFails? then [Failure(HoldStage, [])] else []
    {
      var known := KnownOf(belief, holder).KnownHeld?;
      if known && hold.Holds? {
        stages := stages + [Stage(ClaimKept, Skip)];
        return true;
      }
      stages := stages + [Stage(HoldStage, Fail)];
      if !known || hold.CopyFails? {
        failures := failures + [Failure(HoldStage, [])];
      }
      return false;
    }

    /** awsScopeTeardown: every exit of a test execution that took the claim.
        `kept` is an ending that keeps the claim on purpose, with no failure. */
    method Teardown(skip: bool, o: TeardownOutcomes) returns (released: bool, kept: bool)
      requires Valid()
      modifies this
      ensures Valid() && OnlyReleasedClean()
      ensures released ==> !kept && contents == {} && claim != Some(holder)
      ensures kept ==> claim == old(claim) && belief == old(belief) && contents == old(contents) && trace == old(trace)
      ensures !kept ==> SaysSo(released)
      ensures kept <==> skip || (o.hold.Holds? && KnownOf(old(belief), holder).KnownHeld?)
      ensures kept ==> |stages| == |old(stages)| + 1 && failures == old(failures)
      ensures kept && MayHold(belief) ==> stages[|stages| - 1] == Stage(ClaimKept, Skip)
      // Any other teardown with an account destroys what the state records and sweeps.
      ensures !kept && !o.envFails ==>
          && contents == (if o.stateMayHold then old(contents) * o.destroy.leaves else old(contents))
          && trace == old(trace) + (if o.stateMayHold then [Destroyed] else [])
                      + VerdictActs(!o.sweepFails && contents == {})
      ensures !kept && o.envFails ==> contents == old(contents) && claim == old(claim) && trace == old(trace)
      ensures released <==>
          && !kept && !o.envFails && !o.sweepFails && contents == {}
          && old(claim) == Some(holder) && !o.release.readFails && o.release.lands && o.release.answered
      ensures !kept && !o.hold.NotWanted? ==>
          |stages| > |old(stages)| && stages[|old(stages)|] == Stage(HoldStage, Fail)
      ensures Now() == TornDown(old(Now()), holder, skip, o)
      ensures released <==> Releases(old(Now()), holder, skip, o)
      ensures kept <==> KeepsOnPurpose(old(Now()), holder, skip, o)
      ensures |failures| >= |old(failures)|
      ensures failures == old(failures) <==> !NamesFailure(old(Now()), holder, skip, o)
    {
      if skip {
        var known := KnownOf(belief, holder);
        stages := stages + [Stage(if known.KnownNotHeld? || known.KnownByOther? then ScopeClaimStage else ClaimKept, Skip)];
        return false, true;
      }
      if !o.hold.NotWanted? {
        kept := KeepHold(o.hold);
        if kept {
          return false, true;
        }
      }
      if o.envFails {
        ReportKept();
        return false, false;
      }
      released := DestroyAndRelease(o);
      kept := false;
    }

    /** One run of the teardown, with stages and failures of its own. */
    method TeardownAfresh(skip: bool, o: TeardownOutcomes) returns (released: bool, kept: bool)
      requires Valid()
      modifies this
      ensures Valid() && old(trace) <= trace && contents <= old(contents)
      ensures claim != old(claim) ==> old(claim) == Some(holder) && claim.None? && contents == {}
      ensures !kept ==> SaysSo(released)
      ensures Now() == TornDown(old(Now()), holder, skip, o)
      ensures released <==> Releases(old(Now()), holder, skip, o)
      ensures released ==> contents == {} && claim != Some(holder)
      ensures failures == [] <==> !NamesFailure(old(Now()), holder, skip, o)
    {
      stages, failures := [], [];
      released, kept := Teardown(skip, o);
    }

    /** finishTeardown: the teardown again, on a fresh context, when the run's
        ended before the first could finish. Only the last run's stages and
        failures are kept. */
    method FinishTeardown(skip: bool, endedBefore: bool, first: TeardownOutcomes, endedAfter: bool, second: TeardownOutcomes)
      returns (released: bool, kept: bool)
      requires Valid()
      modifies this
      ensures Valid() && old(trace) <= trace && contents <= old(contents)
      ensures claim != old(claim) ==> old(claim) == Some(holder) && claim.None? && contents == {}
      ensures released ==> contents == {} && claim != Some(holder)
      ensures !kept ==> SaysSo(released)
      ensures claim == Some(holder) ==> MayHold(belief)
      // The second run starts from what the first left, and only when the
      // first was skipped, or named a failure and the run had ended.
      ensures var from := if endedBefore then old(Now()) else TornDown(old(Now()), holder, skip, first);
              if endedBefore || (endedAfter && NamesFailure(old(Now()), holder, skip, first))
              then Now() == TornDown(from, holder, skip, second) && (released <==> Releases(from, holder, skip, second))
              else Now() == from && (released <==> Releases(old(Now()), holder, skip, first))
    {
      if !endedBefore {
        released, kept := TeardownAfresh(skip, first);
        if failures == [] || !endedAfter {
          return;
        }
      }
      released, kept := TeardownAfresh(skip, second);
    }

    /** runAWSReap once the account is proved the scope: claim, then clean. */
    method Reap(cmd: ReapCommand, d: DeleteOutcome, p: PutOutcome, o: ReapOutcomes) returns (result: ReapResult, released: bool)
      requires Valid() && belief == Unknown && claim != Some(holder)
      modifies this
      ensures Valid()
      ensures result == ReapClaim(old(claim), Unknown, holder, cmd, d, p).2
      // A refused reap touches nothing in the scope.
      ensures result.Refused? ==>
          && !released && contents == old(contents) && trace == old(trace) + [ClaimAsked]
          && claim == ReapClaim(old(claim), Unknown, holder, cmd, d, p).0
      ensures result.Obtained? ==> SaysSo(released) && (claim == Some(holder) || (claim.None? && contents == {}))
      ensures released ==> claim.None? && contents == {}
      // An obtained one destroys what the state records, deletes the strays
      // its sweep finds, and releases when the verdict sweep finds nothing.
      ensures result.Obtained? ==>
          && contents == ReapLeft(old(contents), o)
          && trace == old(trace) + [ClaimAsked] + ReapActs(old(contents), o) + VerdictActs(!o.sweepFails && contents == {})
          && (released <==>
              !o.sweepFails && contents == {} && !o.release.readFails && o.release.lands && o.release.answered)
    {
      released := false;
      ReapBeliefTrue(claim, holder, cmd, d, p);
      OneMoreAct(trace, ClaimAsked);
      trace := trace + [ClaimAsked];
      var (after, b, r) := ReapClaim(claim, belief, holder, cmd, d, p);
      claim, belief, result := after, b, r;
      if result.Obtained? {
        belief := Held;
        released := ReapClaimed(o);
      }
    }

    /** reapClaimedAWSScope: destroys what state records, deletes the strays a
        first sweep finds, and leaves the release to the verdict sweep. */
    method ReapClaimed(o: ReapOutcomes) returns (released: bool)
      requires Valid() && belief == Held
      modifies this
      ensures Valid() && OnlyReleasedClean() && SaysSo(released)
      ensures released ==> claim.None? && contents == {}
      ensures belief == Held ==> claim == Some(holder)
      ensures contents == ReapLeft(old(contents), o)
      ensures trace == old(trace) + ReapActs(old(contents), o) + VerdictActs(!o.sweepFails && contents == {})
      ensures released <==>
          !o.sweepFails && contents == {} && !o.release.readFails && o.release.lands && o.release.answered
    {
      stages := stages + [Stage(ScopeClaimStage, Pass)];
      if o.stateMayHold {
        Destroy(o.destroy);
      }
      assert contents == AfterDestroy(old(contents), o);
      ReapLeftInSteps(old(contents), o);
      SweepAndDelete(o.firstSweepFails, o.found, o.deletes);
      assert contents == ReapLeft(old(contents), o);
      assert trace == old(trace) + ReapActs(old(contents), o);
      released := Verdict(o.sweepFails, o.release);
    }
  }
}
