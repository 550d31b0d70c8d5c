/** The aws scope's claim: one stored parameter, many processes, lost answers.

    Every step is one request to the parameter store. A request may land and
    its answer be lost, so each process keeps a belief about the claim, and
    the store and the beliefs are changed by steps of different processes in
    any order. */
module ScopeClaim {
  import opened Wrappers

  /** A claim's holder, `<run id>@<host>:<pid>`: unique to one process. */
  type Holder = string

  /** What a process knows of the claim. */
  datatype Belief = Unknown | Held | NotHeld | HeldByOther(other: Holder)

  /** The claim errors as errors.Is and errors.As tell them apart. */
  datatype ClaimError =
    | OutcomeUnknown
    | ClaimedBy(holder: Holder)
    | NoClaimHeld
    | PreviousDeleted(cause: ClaimError)
    | OtherError

  /** A GetParameter's answer. */
  datatype Answer = Failed | Absent | Value(holder: Holder)

  predicate IsOutcomeUnknown(e: ClaimError) {
    e.OutcomeUnknown? || (e.PreviousDeleted? && IsOutcomeUnknown(e.cause))
  }

  predicate IsNoClaimHeld(e: ClaimError) {
    e.NoClaimHeld? || (e.PreviousDeleted? && IsNoClaimHeld(e.cause))
  }

  function AsClaimedBy(e: ClaimError): Option<Holder> {
    match e
    case ClaimedBy(h) => Some(h)
    case PreviousDeleted(c) => AsClaimedBy(c)
    case _ => None
  }

  /** What a failed put's read-back decides; None is success. */
  function TakeVerdict(me: Holder, a: Answer): Option<ClaimError> {
    match a
    case Failed => Some(OutcomeUnknown)
    case Absent => Some(OtherError)
    case Value(h) => if h == me then None else Some(ClaimedBy(h))
  }

  /** Why a delete of a claim expected to be `want`'s stops at its read; None goes on. */
  function DeleteRefusal(want: Holder, a: Answer): Option<ClaimError> {
    match a
    case Failed => Some(OtherError)
    case Absent => Some(NoClaimHeld)
    case Value(h) => if h == want then None else Some(ClaimedBy(h))
  }

  function AfterTake(err: Option<ClaimError>): Belief {
    if err.None? then Held
    else if IsOutcomeUnknown(err.value) then Unknown
    else if AsClaimedBy(err.value).Some? then HeldByOther(AsClaimedBy(err.value).value)
    else NotHeld
  }

  function AfterRelease(err: Option<ClaimError>): Belief {
    if err.None? || IsNoClaimHeld(err.value) then NotHeld
    else if AsClaimedBy(err.value).Some? then HeldByOther(AsClaimedBy(err.value).value)
    else Unknown
  }

  /** A reap's take: only a failure that leaves the claim not as the reap found
      it, or a success, changes what the reap knows. */
  function AfterReapTake(before: Belief, err: Option<ClaimError>): Belief {
    if err.None? then Held
    else if IsNoClaimHeld(err.value) then before
    else if err.value.PreviousDeleted? || IsOutcomeUnknown(err.value) || AsClaimedBy(err.value).Some? then AfterTake(err)
    else before
  }

  /** The start of a run's claim: not held, unless an earlier iteration took it. */
  function OnEntry(b: Belief): Belief {
    if b == Held then Held else NotHeld
  }

  /** Where a process is between two requests. */
  datatype Pc =
    | Fresh                         // a reap that has not asked for the claim yet
    | Idle
    | Taking                        // before the put
    | ReadingBack(over: bool)       // the put failed: before its read-back
    | Deleting                      // a release read its own holder: before the delete
    | OverDeleting(prev: Holder)    // a take-over read prev: before the delete
    | OverTaking                    // a take-over deleted prev's claim: before the put

  datatype Actor = Running | Reaping

  datatype Proc = Proc(actor: Actor, belief: Belief, pc: Pc, ended: bool)

  datatype World = World(store: Option<Holder>, procs: map<Holder, Proc>)

  /** One step: a request and how it was answered, or a process's own step. */
  datatype Event =
    | Spawn(h: Holder, actor: Actor)
    | End(h: Holder)
    | Enter(h: Holder)
    | EarlyReturn(h: Holder)
    | Put(h: Holder, landed: bool, answered: bool)
    | ReadBack(h: Holder, failed: bool)
    | ReleaseRead(h: Holder, failed: bool)
    | ReleaseDelete(h: Holder, landed: bool, answered: bool)
    | OverRead(h: Holder, prev: Holder, failed: bool)
    | OverDelete(h: Holder, landed: bool, answered: bool)
    | Retry(h: Holder, landed: bool) // a delete whose answer is lost, to be tried again

  ghost predicate Live(w: World, h: Holder) {
    h in w.procs && !w.procs[h].ended
  }

  function Read(w: World, failed: bool): Answer {
    if failed then Failed else if w.store.None? then Absent else Value(w.store.value)
  }

  /** When a step may happen. A put lands only on an empty store, and is
      answered only if it landed; a delete is answered only if it landed; a
      reap claims once, and takes over only from a process that has ended; and a run's claim is
      not entered again while what it knows is Unknown. */
  ghost predicate Enabled(w: World, e: Event) {
    match e
    case Spawn(h, _) => h !in w.procs
    case End(h) => Live(w, h)
    case Enter(h) => Live(w, h) && w.procs[h].actor.Running? && w.procs[h].pc.Idle? && w.procs[h].belief != Unknown
    case EarlyReturn(h) => Live(w, h) && w.procs[h].pc.Taking?
    case Put(h, landed, answered) =>
      && Live(w, h) && (w.procs[h].pc.Taking? || w.procs[h].pc.OverTaking?
          || w.procs[h].pc.Fresh?)
      && (landed ==> w.store.None?) && (answered ==> landed)
    case ReadBack(h, _) => Live(w, h) && w.procs[h].pc.ReadingBack?
    case ReleaseRead(h, _) => Live(w, h) && w.procs[h].pc.Idle?
    case ReleaseDelete(h, landed, answered) => Live(w, h) && w.procs[h].pc.Deleting? && (answered ==> landed)
    case OverRead(h, prev, _) =>
      && Live(w, h) && w.procs[h].pc.Fresh?
      && prev in w.procs && w.procs[prev].ended
    case OverDelete(h, landed, answered) => Live(w, h) && w.procs[h].pc.OverDeleting? && (answered ==> landed)
    case Retry(h, _) => Live(w, h) && (w.procs[h].pc.Deleting? || w.procs[h].pc.OverDeleting?)
  }

  function Become(w: World, h: Holder, b: Belief, pc: Pc): World
    requires h in w.procs
  {
    w.(procs := w.procs[h := w.procs[h].(belief := b, pc := pc)])
  }

  function TakeDone(w: World, h: Holder, over: bool, verdict: Option<ClaimError>): World
    requires h in w.procs
  {
    var p := w.procs[h];
    var err := if over && verdict.Some? then Some(PreviousDeleted(verdict.value)) else verdict;
    Become(w, h, if p.actor.Running? then AfterTake(err) else AfterReapTake(p.belief, err), Idle)
  }

  /** The world after a step. */
  ghost function Apply(w: World, e: Event): World
    requires Enabled(w, e)
  {
    match e
    case Spawn(h, actor) =>
      w.(procs := w.procs[h := if actor.Running? then Proc(actor, NotHeld, Idle, false) else Proc(actor, Unknown, Fresh, false)])
    case End(h) => w.(procs := w.procs[h := w.procs[h].(ended := true)])
    case Enter(h) => Become(w, h, OnEntry(w.procs[h].belief), Taking)
    case EarlyReturn(h) => Become(w, h, w.procs[h].belief, Idle)
    case Put(h, landed, answered) =>
      var over := w.procs[h].pc.OverTaking?;
      var w1 := if landed then w.(store := Some(h)) else w;
      if answered then TakeDone(w1, h, over, None) else Become(w1, h, w.procs[h].belief, ReadingBack(over))
    case ReadBack(h, failed) => TakeDone(w, h, w.procs[h].pc.over, TakeVerdict(h, Read(w, failed)))
    case ReleaseRead(h, failed) =>
      var refusal := DeleteRefusal(h, Read(w, failed));
      if refusal.Some? then Become(w, h, AfterRelease(refusal), Idle)
      else Become(w, h, w.procs[h].belief, Deleting)
    case ReleaseDelete(h, landed, answered) =>
      var w1 := if landed then w.(store := None) else w;
      Become(w1, h, AfterRelease(if answered then None else Some(OtherError)), Idle)
    case OverRead(h, prev, failed) =>
      var refusal := DeleteRefusal(prev, Read(w, failed));
      if refusal.Some? then Become(w, h, AfterReapTake(w.procs[h].belief, refusal), Idle)
      else Become(w, h, w.procs[h].belief, OverDeleting(prev))
    case OverDelete(h, landed, answered) =>
      var w1 := if landed then w.(store := None) else w;
      Become(w1, h, w.procs[h].belief, if answered then OverTaking else Idle)
    case Retry(h, landed) =>
      if landed then w.(store := None) else w
  }

  /** What a process knows is true of the store. */
  ghost predicate BeliefTrue(store: Option<Holder>, h: Holder, b: Belief) {
    match b
    case Unknown => true
    case Held => store == Some(h)
    case NotHeld => store != Some(h)
    case HeldByOther(_) => store != Some(h)
  }

  /** Every live process at rest believes only what is true. */
  ghost predicate Sound(w: World) {
    forall h :: Live(w, h) && w.procs[h].pc.Idle? ==> BeliefTrue(w.store, h, w.procs[h].belief)
  }

  /** What a process relies on wherever it is between its requests. */
  ghost predicate ProcSound(w: World, h: Holder)
    requires h in w.procs
  {
    var p := w.procs[h];
    p.ended ||
    match p.pc
    case Fresh => p.actor.Reaping? && p.belief.Unknown? && w.store != Some(h)
    case Idle => BeliefTrue(w.store, h, p.belief)
    case Taking => p.actor.Running? && BeliefTrue(w.store, h, p.belief)
    case ReadingBack(over) => (over ==> p.actor.Reaping?) && (p.actor.Reaping? ==> p.belief.Unknown?)
    case Deleting => true
    case OverDeleting(prev) => p.actor.Reaping? && p.belief.Unknown? && prev in w.procs && w.procs[prev].ended
    case OverTaking => p.actor.Reaping? && p.belief.Unknown?
  }

  ghost predicate StoreNamesAProcess(w: World) {
    w.store.Some? ==> w.store.value in w.procs
  }

  ghost predicate Inv(w: World) {
    StoreNamesAProcess(w) && forall h :: h in w.procs ==> ProcSound(w, h)
  }

  /** A process that knows it holds the claim, at rest or entering it again. */
  ghost predicate ReliesOnClaim(w: World, h: Holder) {
    Live(w, h) && (w.procs[h].pc.Idle? || w.procs[h].pc.Taking?) && w.procs[h].belief == Held
  }

  /** A delete that lands on the claim of another process, which relies on it:
      the read before it saw an ended holder, or the deleter itself, and the
      store has moved on since. */
  ghost predicate Robs(w: World, e: Event) {
    && (e.OverDelete? || e.ReleaseDelete? || e.Retry?) && e.landed
    && w.store.Some? && w.store.value != e.h && ReliesOnClaim(w, w.store.value)
  }

  lemma OwnStepSound(w: World, e: Event)
    requires Enabled(w, e) && Inv(w)
    ensures e.h in Apply(w, e).procs && ProcSound(Apply(w, e), e.h)
    ensures StoreNamesAProcess(Apply(w, e))
  {
    if !e.Spawn? {
      assert ProcSound(w, e.h);
    }
  }

  /** A step leaves what every other process relies on true. */
  lemma OtherStepSound(w: World, e: Event, g: Holder)
    requires Enabled(w, e) && Inv(w) && !Robs(w, e) && g in w.procs && g != e.h
    ensures g in Apply(w, e).procs && ProcSound(Apply(w, e), g)
  {
    assert ProcSound(w, g);
    if !e.Spawn? {
      assert ProcSound(w, e.h);
    }
    assert Apply(w, e).procs[g] == w.procs[g];
  }

  lemma StepKeepsInv(w: World, e: Event)
    requires Enabled(w, e) && Inv(w) && !Robs(w, e)
    ensures Inv(Apply(w, e))
  {
    OwnStepSound(w, e);
    forall g | g in Apply(w, e).procs ensures ProcSound(Apply(w, e), g) {
      if g != e.h {
        OtherStepSound(w, e, g);
      }
    }
  }

  ghost predicate Run(w: World, es: seq<Event>)
    decreases |es|
  {
    es == [] || (Enabled(w, es[0]) && Run(Apply(w, es[0]), es[1..]))
  }

  ghost function After(w: World, es: seq<Event>): World
    requires Run(w, es)
    decreases |es|
  {
    if es == [] then w else After(Apply(w, es[0]), es[1..])
  }

  /** A fresh scope: no process yet, or only ended ones, one of which may have
      left its claim. */
  ghost predicate Init(w: World) {
    StoreNamesAProcess(w) && forall h :: h in w.procs ==> w.procs[h].ended
  }

  ghost predicate NoRobbery(w: World, es: seq<Event>)
    requires Run(w, es)
    decreases |es|
  {
    es == [] || (!Robs(w, es[0]) && NoRobbery(Apply(w, es[0]), es[1..]))
  }

  /** Beliefs are sound after every run, of any number of processes and in any
      interleaving of their requests, in which no take-over's delete takes the
      claim from a process that relies on it. */
  lemma {:induction false} BeliefsSound(w: World, es: seq<Event>)
    requires Inv(w) && Run(w, es) && NoRobbery(w, es)
    ensures Inv(After(w, es)) && Sound(After(w, es))
    decreases |es|
  {
    if es == [] {
      InvIsSound(w);
    } else {
      StepKeepsInv(w, es[0]);
      BeliefsSound(Apply(w, es[0]), es[1..]);
    }
  }

  lemma InvIsSound(w: World)
    requires Inv(w)
    ensures Sound(w)
  {
    forall h | Live(w, h) && w.procs[h].pc.Idle? ensures BeliefTrue(w.store, h, w.procs[h].belief) {
      assert ProcSound(w, h);
    }
  }

  lemma InitIsInv(w: World)
    requires Init(w)
    ensures Inv(w)
  {
  }

  ghost predicate AtRestHolding(w: World, h: Holder) {
    Live(w, h) && w.procs[h].pc.Idle? && w.procs[h].belief == Held
  }

  /** Two processes at rest never both hold the claim. */
  lemma AtMostOneHolder(w: World, es: seq<Event>, g: Holder, h: Holder)
    requires Init(w) && Run(w, es) && NoRobbery(w, es)
    requires AtRestHolding(After(w, es), g) && AtRestHolding(After(w, es), h)
    ensures g == h
  {
    InitIsInv(w);
    BeliefsSound(w, es);
  }

  /** Only one take-over is between its read and its delete. */
  ghost predicate OneTakeOver(w: World) {
    forall g, h :: Live(w, g) && w.procs[g].pc.OverDeleting? && Live(w, h) && w.procs[h].pc.OverDeleting? ==> g == h
  }

  ghost predicate TakeOversSerial(w: World, es: seq<Event>)
    requires Run(w, es)
    decreases |es|
  {
    OneTakeOver(w) && (es == [] || TakeOversSerial(Apply(w, es[0]), es[1..]))
  }

  /** Whoever is at its delete finds the claim it read. */
  ghost predicate ReadStillTrue(w: World) {
    && (forall h :: Live(w, h) && w.procs[h].pc.OverDeleting? ==> w.store == Some(w.procs[h].pc.prev))
    && (forall h :: Live(w, h) && w.procs[h].pc.Deleting? ==> w.store == Some(h))
  }

  lemma SerialStep(w: World, e: Event)
    requires Enabled(w, e) && Inv(w) && OneTakeOver(w) && ReadStillTrue(w) && !e.Retry?
    ensures !Robs(w, e) && ReadStillTrue(Apply(w, e))
  {
    assert e.OverDelete? || e.ReleaseDelete? ==> ProcSound(w, e.h);
    var w' := Apply(w, e);
    forall h | Live(w', h) && w'.procs[h].pc.OverDeleting? ensures w'.store == Some(w'.procs[h].pc.prev) {
      if h != e.h {
        assert ProcSound(w, h);
        if !e.Spawn? {
          assert ProcSound(w, e.h);
        }
      }
    }
  }

  /** When take-overs do not overlap and no delete is tried twice, none robs
      anyone: a claim that was read stays until the one delete of it. */
  lemma {:induction false} SerialTakeOversSound(w: World, es: seq<Event>)
    requires Inv(w) && ReadStillTrue(w) && Run(w, es) && TakeOversSerial(w, es) && forall e :: e in es ==> !e.Retry?
    ensures NoRobbery(w, es) && Sound(After(w, es))
    decreases |es|
  {
    if es == [] {
      InvIsSound(w);
    } else {
      SerialStep(w, es[0]);
      StepKeepsInv(w, es[0]);
      SerialTakeOversSound(Apply(w, es[0]), es[1..]);
    }
  }

  /** Some continuation, in which no one else is robbed, leaves a live process at
      rest believing what is false. */
  ghost predicate MayDeceive(w: World) {
    exists es :: Run(w, es) && NoRobbery(w, es) && !Sound(After(w, es))
  }

  /** Exactly which steps break what the processes rely on: the deletes that rob
      one. And each of them deceives the one it robbed, at once or as soon as
      that goes on. */
  lemma RobberyBreaks(w: World, e: Event)
    requires Enabled(w, e) && Inv(w)
    ensures Inv(Apply(w, e)) <==> !Robs(w, e)
    ensures Robs(w, e) ==> MayDeceive(Apply(w, e))
  {
    if !Robs(w, e) {
      StepKeepsInv(w, e);
    } else {
      var g, w' := w.store.value, Apply(w, e);
      assert ProcSound(w, e.h);
      assert w'.procs[g] == w.procs[g] && !ProcSound(w', g);
      if w.procs[g].pc.Idle? {
        assert Run(w', []) && !Sound(After(w', []));
      } else {
        ReturnDeceives(w', g);
      }
    }
  }

  /** A process robbed while it enters again comes to rest believing it holds. */
  lemma ReturnDeceives(w: World, g: Holder)
    requires Live(w, g) && w.procs[g].pc.Taking? && w.procs[g].belief == Held && w.store != Some(g)
    ensures MayDeceive(w)
  {
    var w' := Apply(w, EarlyReturn(g));
    assert Run(w', []);
    FirstStep(w, EarlyReturn(g), w', []);
    assert Live(w', g) && w'.procs[g].pc.Idle? && !BeliefTrue(w'.store, g, w'.procs[g].belief);
  }

  lemma FirstStep(w: World, e: Event, w': World, rest: seq<Event>)
    requires Enabled(w, e) && Apply(w, e) == w' && Run(w', rest)
    ensures Run(w, [e] + rest) && After(w, [e] + rest) == After(w', rest)
    ensures NoRobbery(w, [e] + rest) <==> !Robs(w, e) && NoRobbery(w', rest)
  {
    assert ([e] + rest)[1..] == rest;
  }

  function Racing(store: Option<Holder>, a: Proc, b: Proc): World {
    World(store, map["run" := Proc(Running, Held, Idle, true), "a" := a, "b" := b])
  }

  /** Both reaps have read the ended run's claim: the first deletes and takes it,
      then the second deletes that one too. */
  lemma BothReadThenBothHold() returns (es: seq<Event>)
    ensures var read := Proc(Reaping, Unknown, OverDeleting("run"), false);
            var w := Racing(Some("run"), read, read);
            && Run(w, es) && !NoRobbery(w, es)
            && AtRestHolding(After(w, es), "a") && AtRestHolding(After(w, es), "b")
  {
    var read := Proc(Reaping, Unknown, OverDeleting("run"), false);
    var taking, holds := Proc(Reaping, Unknown, OverTaking, false), Proc(Reaping, Held, Idle, false);
    var w4 := Racing(Some("run"), read, read);
    var w5 := Racing(None, taking, read);
    var w6 := Racing(Some("a"), holds, read);
    var w7 := Racing(None, holds, taking);
    var w8 := Racing(Some("b"), holds, holds);
    es := [];
    FirstStep(w7, Put("b", true, true), w8, es);
    es := [Put("b", true, true)] + es;
    FirstStep(w6, OverDelete("b", true, true), w7, es);
    es := [OverDelete("b", true, true)] + es;
    FirstStep(w5, Put("a", true, true), w6, es);
    es := [Put("a", true, true)] + es;
    FirstStep(w4, OverDelete("a", true, true), w5, es);
    es := [OverDelete("a", true, true)] + es;
  }

  /** Two reaps that both read an ended run's claim: the second delete takes
      the first reap's claim, and both then hold it. The store has no
      conditional delete, so nothing but the operator prevents this run. */
  lemma OverlappingTakeOvers() returns (w: World, es: seq<Event>)
    ensures Init(w) && Run(w, es) && !NoRobbery(w, es)
    ensures AtRestHolding(After(w, es), "a") && AtRestHolding(After(w, es), "b")
  {
    w := World(Some("run"), map["run" := Proc(Running, Held, Idle, true)]);
    var unasked, read := Proc(Reaping, Unknown, Fresh, false), Proc(Reaping, Unknown, OverDeleting("run"), false);
    var w1 := w.(procs := w.procs["a" := unasked]);
    var w2 := Racing(Some("run"), unasked, unasked);
    var w3 := Racing(Some("run"), read, unasked);
    var w4 := Racing(Some("run"), read, read);
    es := BothReadThenBothHold();
    FirstStep(w3, OverRead("b", "run", false), w4, es);
    es := [OverRead("b", "run", false)] + es;
    FirstStep(w2, OverRead("a", "run", false), w3, es);
    es := [OverRead("a", "run", false)] + es;
    FirstStep(w1, Spawn("b", Reaping), w2, es);
    es := [Spawn("b", Reaping)] + es;
    FirstStep(w, Spawn("a", Reaping), w1, es);
    es := [Spawn("a", Reaping)] + es;
  }

  /** A release whose delete lands and is not answered is tried again, and deletes
      the claim the next run took meanwhile: that run believes it holds what no one does. */
  lemma RetriedRelease() returns (w: World, es: seq<Event>)
    ensures Inv(w) && Run(w, es) && !NoRobbery(w, es)
    ensures AtRestHolding(After(w, es), "b") && After(w, es).store.None?
  {
    var deletes := Proc(Running, Held, Deleting, false);
    var done := Proc(Running, NotHeld, Idle, false);
    var starts, taking, holds := Proc(Running, NotHeld, Idle, false), Proc(Running, NotHeld, Taking, false), Proc(Running, Held, Idle, false);
    w := World(Some("a"), map["a" := deletes]);
    var w1 := World(None, map["a" := deletes]);
    var w2 := World(None, map["a" := deletes, "b" := starts]);
    var w3 := World(None, map["a" := deletes, "b" := taking]);
    var w4 := World(Some("b"), map["a" := deletes, "b" := holds]);
    var w5 := World(None, map["a" := done, "b" := holds]);
    es := [];
    FirstStep(w4, ReleaseDelete("a", true, true), w5, es);
    es := [ReleaseDelete("a", true, true)] + es;
    FirstStep(w3, Put("b", true, true), w4, es);
    es := [Put("b", true, true)] + es;
    FirstStep(w2, Enter("b"), w3, es);
    es := [Enter("b")] + es;
    FirstStep(w1, Spawn("b", Running), w2, es);
    es := [Spawn("b", Running)] + es;
    FirstStep(w, Retry("a", true), w1, es);
    es := [Retry("a", true)] + es;
  }

  /** Entering the claim again keeps the belief true of every store it allows
      exactly when the belief was not Unknown: Unknown is overwritten. */
  lemma EntryKeepsBelief(h: Holder, b: Belief)
    ensures (forall store :: BeliefTrue(store, h, b) ==> BeliefTrue(store, h, OnEntry(b))) <==> b != Unknown
  {
    if b == Unknown {
      assert !BeliefTrue(Some(h), h, OnEntry(b));
    }
  }
}
