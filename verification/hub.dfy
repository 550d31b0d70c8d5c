/** The websocket hub: clients, their channels, and broadcasts under a
    readers-writer lock. */
module HubRuns {
  type Client = nat
  type Msg = string

  /** A message as a channel carries it: which broadcast sent it, and its text. */
  datatype Sent = Sent(from: nat, msg: Msg)

  /** A broadcast: who was registered when it took the lock, who is still to be
      visited, who got the message, and whom it found slow. */
  datatype Broadcast =
    | Reading(msg: Msg, atLock: set<Client>, todo: set<Client>, got: set<Client>, slow: seq<Client>)
    | Dropping(msg: Msg, atLock: set<Client>, got: set<Client>, slow: seq<Client>)

  /** `sent` is all a channel was ever given, `taken` how much its reader took;
      `ever` is every client registered so far. A broadcast is known by its place
      in `broadcasts`. A send on a closed channel, or a second close, panics. */
  datatype World = World(
    registered: set<Client>, closed: set<Client>, ever: set<Client>,
    sent: map<Client, seq<Sent>>, taken: map<Client, nat>,
    broadcasts: seq<Broadcast>, panicked: bool)

  datatype Step =
    | Register(c: Client)
    | Unregister(c: Client)
    | Lock(msg: Msg)                // a broadcast takes the read lock
    | Visit(b: nat, c: Client)      // ... tries one client's channel
    | Unlock(b: nat)                // ... gives the lock back
    | Drop(b: nat)                  // ... unregisters the first slow client left
    | Take(c: Client)               // a client's reader takes a message
    | Shutdown                      // Run, once its context is done

  const CAPACITY: nat := 256

  /** A writer gets in only while no broadcast holds the read lock. */
  predicate Unread(w: World) {
    forall b :: 0 <= b < |w.broadcasts| ==> w.broadcasts[b].Dropping?
  }

  predicate Waiting(w: World, c: Client) {
    c in w.sent && c in w.taken && w.taken[c] < |w.sent[c]|
  }

  predicate Full(w: World, c: Client) {
    c in w.sent && c in w.taken && |w.sent[c]| >= w.taken[c] + CAPACITY
  }

  predicate Enabled(w: World, step: Step) {
    && !w.panicked
    && match step
       case Register(c) => Unread(w)
       case Unregister(c) => Unread(w)
       case Lock(msg) => msg != ""
       case Visit(b, c) => b < |w.broadcasts| && w.broadcasts[b].Reading? && c in w.broadcasts[b].todo
       case Unlock(b) => b < |w.broadcasts| && w.broadcasts[b].Reading? && w.broadcasts[b].todo == {}
       case Drop(b) => b < |w.broadcasts| && w.broadcasts[b].Dropping? && w.broadcasts[b].slow != [] && Unread(w)
       case Take(c) => Waiting(w, c)
       case Shutdown => Unread(w)
  }

  /** Deleting a client from the hub closes its channel; deleting one that is
      not there does nothing. */
  function Leave(w: World, gone: set<Client>): World {
    w.(registered := w.registered - gone,
       closed := w.closed + (gone * w.registered),
       panicked := w.panicked || gone * w.registered * w.closed != {})
  }

  function SentTo(w: World, c: Client): seq<Sent> {
    if c in w.sent then w.sent[c] else []
  }

  function After(w: World, step: Step): World
    requires Enabled(w, step)
  {
    match step
    case Register(c) =>
      w.(registered := w.registered + {c}, ever := w.ever + {c},
         sent := if c in w.sent then w.sent else w.sent[c := []],
         taken := if c in w.taken then w.taken else w.taken[c := 0])
    case Unregister(c) => Leave(w, {c})
    case Lock(msg) =>
      w.(broadcasts := w.broadcasts + [Reading(msg, w.registered, w.registered, {}, [])])
    case Visit(b, c) =>
      var x := w.broadcasts[b];
      if c in w.closed then w.(panicked := true)
      else if Full(w, c) then
        w.(broadcasts := w.broadcasts[b := x.(todo := x.todo - {c}, slow := x.slow + [c])])
      else
        w.(broadcasts := w.broadcasts[b := x.(todo := x.todo - {c}, got := x.got + {c})],
           sent := w.sent[c := SentTo(w, c) + [Sent(b, x.msg)]])
    case Unlock(b) =>
      var x := w.broadcasts[b];
      w.(broadcasts := w.broadcasts[b := Dropping(x.msg, x.atLock, x.got, x.slow)])
    case Drop(b) =>
      var x := w.broadcasts[b];
      Leave(w, {x.slow[0]}).(broadcasts := w.broadcasts[b := x.(slow := x.slow[1..])])
    case Take(c) => w.(taken := w.taken[c := w.taken[c] + 1])
    case Shutdown => Leave(w, w.registered)
  }

  /** A client whose channel was closed is registered again. */
  predicate Reopens(w: World, step: Step) {
    step.Register? && step.c in w.closed
  }

  // ----- What every step keeps -----

  /** Every client the hub ever had is registered, or its channel is closed, and never both. */
  predicate Channels(w: World) {
    && w.ever == w.registered + w.closed
    && w.registered !! w.closed
    && w.sent.Keys == w.ever && w.taken.Keys == w.ever
    && !w.panicked
  }

  /** How many times a channel was given the message of broadcast b. */
  function Times(sent: seq<Sent>, b: nat): nat {
    if sent == [] then 0 else Times(sent[..|sent| - 1], b) + if sent[|sent| - 1].from == b then 1 else 0
  }

  lemma TimesMore(sent: seq<Sent>, s: Sent, b: nat)
    ensures Times(sent + [s], b) == Times(sent, b) + if s.from == b then 1 else 0
  {
    assert (sent + [s])[..|sent|] == sent;
  }

  lemma {:induction false} TimesNone(sent: seq<Sent>, b: nat)
    requires forall i :: 0 <= i < |sent| ==> sent[i].from != b
    ensures Times(sent, b) == 0
    decreases |sent|
  {
    if sent != [] {
      TimesNone(sent[..|sent| - 1], b);
    }
  }

  /** What channels carry came from a broadcast, with its text. */
  predicate Numbered(w: World) {
    forall c, i :: c in w.sent && 0 <= i < |w.sent[c]| ==>
      w.sent[c][i].from < |w.broadcasts| && w.sent[c][i].msg == w.broadcasts[w.sent[c][i].from].msg
  }

  /** Each client that got the message was given it once, and no other was. */
  predicate GivenOnce(w: World, b: nat, got: set<Client>) {
    forall c :: c in w.ever ==> Times(SentTo(w, c), b) == if c in got then 1 else 0
  }

  /** A broadcast loses no one: each client there when it took the lock got the
      message, or is yet to be visited or dropped, or has left. While it holds
      the lock no one leaves or comes. */
  predicate Accounted(w: World, x: Broadcast) {
    && x.atLock <= w.ever && x.got <= x.atLock
    && match x
       case Reading(_, atLock, todo, got, slow) =>
         && atLock == w.registered && todo <= atLock && todo !! got
         && (forall c :: c in atLock ==> c in todo || c in got || c in slow)
         && (forall c :: c in slow ==> c in atLock)
       case Dropping(_, atLock, got, slow) =>
         forall c :: c in atLock && c in w.registered ==> c in got || c in slow
  }

  ghost predicate Inv(w: World) {
    && Channels(w) && Numbered(w)
    && forall b :: 0 <= b < |w.broadcasts| ==>
         Accounted(w, w.broadcasts[b]) && GivenOnce(w, b, w.broadcasts[b].got)
  }

  predicate Start(w: World) {
    w == World({}, {}, {}, map[], map[], [], false)
  }

  lemma {:induction false} LeaveKeeps(w: World, gone: set<Client>)
    requires Channels(w)
    ensures Channels(Leave(w, gone))
  {
  }

  lemma {:induction false} StepKeepsChannels(w: World, step: Step)
    requires Inv(w) && Enabled(w, step) && !Reopens(w, step)
    ensures Channels(After(w, step))
  {
    match step
    case Visit(b, c) =>
      assert Accounted(w, w.broadcasts[b]);
    case Drop(b) =>
      LeaveKeeps(w, {w.broadcasts[b].slow[0]});
    case Unregister(c) =>
      LeaveKeeps(w, {c});
    case Shutdown =>
      LeaveKeeps(w, w.registered);
    case _ =>
  }

  /** A visit sends to a client that is registered, so its channel is open. */
  lemma {:induction false} VisitIsOpen(w: World, b: nat, c: Client)
    requires Inv(w) && Enabled(w, Visit(b, c))
    ensures c in w.registered && c !in w.closed && c in w.ever && c in w.sent && c !in w.broadcasts[b].got
  {
    assert Accounted(w, w.broadcasts[b]);
  }

  /** The visit puts the message on the channel. */
  predicate Delivers(w: World, step: Step) {
    step.Visit? && step.c !in w.closed && !Full(w, step.c)
  }

  /** What a step does to the channels, and to who has got what. */
  lemma {:induction false} SentAfter(w: World, step: Step, c: Client)
    requires Enabled(w, step)
    ensures SentTo(After(w, step), c) ==
            SentTo(w, c) + if Delivers(w, step) && step.c == c then [Sent(step.b, w.broadcasts[step.b].msg)] else []
  {
  }

  lemma {:induction false} GotAfter(w: World, step: Step, b: nat)
    requires Enabled(w, step) && b < |w.broadcasts|
    ensures b < |After(w, step).broadcasts|
    ensures var x := After(w, step).broadcasts[b];
            && x.msg == w.broadcasts[b].msg
            && x.got == w.broadcasts[b].got + if Delivers(w, step) && step.b == b then {step.c} else {}
  {
  }

  lemma {:induction false} StepKeepsNumbered(w: World, step: Step)
    requires Inv(w) && Enabled(w, step)
    ensures Numbered(After(w, step))
  {
    var w' := After(w, step);
    forall c, i | c in w'.sent && 0 <= i < |w'.sent[c]|
      ensures w'.sent[c][i].from < |w'.broadcasts| && w'.sent[c][i].msg == w'.broadcasts[w'.sent[c][i].from].msg
    {
      SentAfter(w, step, c);
      var sent := w'.sent[c];
      assert sent == SentTo(w', c);
      if i < |SentTo(w, c)| {
        assert sent[i] == w.sent[c][i];
      }
      GotAfter(w, step, sent[i].from);
    }
  }

  /** Only a visit by the broadcast itself adds to what it gave. */
  lemma {:induction false} StepKeepsGiven(w: World, step: Step, b: nat)
    requires Inv(w) && Enabled(w, step) && b < |After(w, step).broadcasts|
    ensures GivenOnce(After(w, step), b, After(w, step).broadcasts[b].got)
  {
    var w' := After(w, step);
    forall c | c in w'.ever ensures Times(SentTo(w', c), b) == if c in w'.broadcasts[b].got then 1 else 0 {
      if c !in w.ever || b == |w.broadcasts| {
        NothingGivenYet(w, step, c, b);
      } else {
        OneMoreGiven(w, step, b, c);
      }
    }
  }

  lemma {:induction false} OneMoreGiven(w: World, step: Step, b: nat, c: Client)
    requires Inv(w) && Enabled(w, step) && b < |w.broadcasts| && c in w.ever
    ensures b < |After(w, step).broadcasts|
    ensures Times(SentTo(After(w, step), c), b) == if c in After(w, step).broadcasts[b].got then 1 else 0
  {
    assert GivenOnce(w, b, w.broadcasts[b].got);
    SentAfter(w, step, c);
    GotAfter(w, step, b);
    if Delivers(w, step) && step.c == c {
      VisitIsOpen(w, step.b, c);
      TimesMore(SentTo(w, c), Sent(step.b, w.broadcasts[step.b].msg), b);
    } else {
      assert SentTo(w, c) + [] == SentTo(w, c);
    }
  }

  /** A client new to the hub has got nothing, and a new broadcast has given nothing. */
  lemma {:induction false} NothingGivenYet(w: World, step: Step, c: Client, b: nat)
    requires Inv(w) && Enabled(w, step) && c in After(w, step).ever && b < |After(w, step).broadcasts|
    requires c !in w.ever || b == |w.broadcasts|
    ensures Times(SentTo(After(w, step), c), b) == 0 && c !in After(w, step).broadcasts[b].got
  {
    if c !in w.ever {
      assert step == Register(c) && SentTo(After(w, step), c) == [];
      assert Accounted(w, w.broadcasts[b]);
    } else {
      SentAfter(w, step, c);
      TimesNone(SentTo(w, c), b);
    }
  }

  /** What the other broadcasts see of a step. */
  lemma {:induction false} OthersKeep(w: World, step: Step, x: Broadcast)
    requires Inv(w) && Enabled(w, step) && !Reopens(w, step) && Accounted(w, x)
    requires x.Reading? ==> !Unread(w)
    ensures Accounted(After(w, step), x)
  {
    match step
    case Visit(b, c) =>
      VisitIsOpen(w, b, c);
    case _ =>
  }

  lemma {:induction false} OwnKeeps(w: World, step: Step)
    requires Inv(w) && Enabled(w, step) && (step.Visit? || step.Unlock? || step.Drop?)
    ensures Accounted(After(w, step), After(w, step).broadcasts[step.b])
  {
    var x := w.broadcasts[step.b];
    assert Accounted(w, x);
    match step
    case Visit(b, c) =>
      VisitIsOpen(w, b, c);
      var y := After(w, step).broadcasts[b];
      if Full(w, c) {
        assert y.slow[|y.slow| - 1] == c;
        assert forall d :: d in x.slow ==> d in y.slow;
      }
    case Unlock(b) =>
    case Drop(b) =>
      assert forall d :: d in x.slow ==> d == x.slow[0] || d in x.slow[1..];
  }

  lemma {:induction false} StepKeepsInv(w: World, step: Step)
    requires Inv(w) && Enabled(w, step) && !Reopens(w, step)
    ensures Inv(After(w, step))
  {
    var w' := After(w, step);
    StepKeepsChannels(w, step);
    StepKeepsNumbered(w, step);
    forall b | 0 <= b < |w'.broadcasts| ensures Accounted(w', w'.broadcasts[b]) && GivenOnce(w', b, w'.broadcasts[b].got) {
      StepKeepsGiven(w, step, b);
      if (step.Visit? || step.Unlock? || step.Drop?) && step.b == b {
        OwnKeeps(w, step);
      } else if b < |w.broadcasts| {
        assert Accounted(w, w.broadcasts[b]);
        assert w.broadcasts[b].Reading? ==> !Unread(w);
        OthersKeep(w, step, w.broadcasts[b]);
      }
    }
  }

  predicate IsRun(ws: seq<World>, steps: seq<Step>) {
    && |ws| == |steps| + 1
    && Start(ws[0])
    && forall i :: 0 <= i < |steps| ==> Enabled(ws[i], steps[i]) && ws[i + 1] == After(ws[i], steps[i])
  }

  /** A client registers again, if at all, only while it is still registered. */
  predicate NeverReopens(ws: seq<World>, steps: seq<Step>)
    requires IsRun(ws, steps)
  {
    forall i :: 0 <= i < |steps| ==> !Reopens(ws[i], steps[i])
  }

  lemma {:induction false} RunKeepsInv(ws: seq<World>, steps: seq<Step>, i: nat)
    requires IsRun(ws, steps) && NeverReopens(ws, steps) && i < |ws|
    ensures Inv(ws[i])
  {
    if i > 0 {
      RunKeepsInv(ws, steps, i - 1);
      StepKeepsInv(ws[i - 1], steps[i - 1]);
    }
  }

  // ----- The promises -----

  /** No message is ever sent on a closed channel and no channel is closed twice. */
  lemma NeverPanics(ws: seq<World>, steps: seq<Step>, i: nat)
    requires IsRun(ws, steps) && NeverReopens(ws, steps) && i < |ws|
    ensures !ws[i].panicked && ws[i].closed == ws[i].ever - ws[i].registered
  {
    RunKeepsInv(ws, steps, i);
    var w := ws[i];
    assert forall c :: c in w.closed ==> c in w.ever && c !in w.registered;
  }

  /** Exactly the registrations that reopen a client break what the hub relies
      on: after one, that client's next unregistration panics, and so does a
      broadcast that gets to it first. */
  lemma {:induction false} ReopeningPanics(w: World, step: Step, msg: Msg)
    requires Inv(w) && Enabled(w, step) && msg != ""
    ensures Inv(After(w, step)) <==> !Reopens(w, step)
    ensures Reopens(w, step) ==>
              var w' := After(w, step);
              && Enabled(w', Unregister(step.c)) && After(w', Unregister(step.c)).panicked
              && Enabled(w', Lock(msg))
              && var w'' := After(w', Lock(msg));
                 Enabled(w'', Visit(|w.broadcasts|, step.c)) && After(w'', Visit(|w.broadcasts|, step.c)).panicked
  {
    if !Reopens(w, step) {
      StepKeepsInv(w, step);
    } else {
      var w' := After(w, step);
      assert step.c in {step.c} * w'.registered * w'.closed;
    }
  }

  /** A broadcast that is complete gave its message, once, to every client that
      was registered when it took the lock and still is. */
  lemma CompleteMeansDelivered(ws: seq<World>, steps: seq<Step>, i: nat, b: nat)
    requires IsRun(ws, steps) && NeverReopens(ws, steps) && i < |ws| && b < |ws[i].broadcasts|
    requires Complete(ws[i].broadcasts[b])
    ensures forall c :: c in ws[i].broadcasts[b].atLock && c in ws[i].registered ==> Times(SentTo(ws[i], c), b) == 1
  {
    RunKeepsInv(ws, steps, i);
    assert Accounted(ws[i], ws[i].broadcasts[b]) && GivenOnce(ws[i], b, ws[i].broadcasts[b].got);
  }

  /** No broadcast gives anyone its message twice, nor to a client that was not
      there when it took the lock; and what a channel carries is the text of the
      broadcast that sent it. */
  lemma GivenAtMostOnce(ws: seq<World>, steps: seq<Step>, i: nat, b: nat, c: Client)
    requires IsRun(ws, steps) && NeverReopens(ws, steps) && i < |ws| && b < |ws[i].broadcasts| && c in ws[i].ever
    ensures Times(SentTo(ws[i], c), b) <= if c in ws[i].broadcasts[b].atLock then 1 else 0
    ensures forall k :: 0 <= k < |SentTo(ws[i], c)| && SentTo(ws[i], c)[k].from == b ==>
              SentTo(ws[i], c)[k].msg == ws[i].broadcasts[b].msg
  {
    RunKeepsInv(ws, steps, i);
    assert Accounted(ws[i], ws[i].broadcasts[b]) && GivenOnce(ws[i], b, ws[i].broadcasts[b].got);
  }

  /** A registered client that will not get a message is on its slow list. */
  lemma MissedMeansPending(ws: seq<World>, steps: seq<Step>, i: nat, b: nat, c: Client)
    requires IsRun(ws, steps) && NeverReopens(ws, steps) && i < |ws| && b < |ws[i].broadcasts|
    requires c in ws[i].broadcasts[b].atLock && c in ws[i].registered && Times(SentTo(ws[i], c), b) == 0
    ensures c in ws[i].broadcasts[b].slow || (ws[i].broadcasts[b].Reading? && c in ws[i].broadcasts[b].todo)
  {
    RunKeepsInv(ws, steps, i);
    assert Accounted(ws[i], ws[i].broadcasts[b]) && GivenOnce(ws[i], b, ws[i].broadcasts[b].got);
  }

  predicate Complete(b: Broadcast) {
    b.Dropping? && b.slow == []
  }

  /** What is left for a broadcast to do. */
  function Left(b: Broadcast): nat {
    match b
    case Reading(_, _, todo, _, slow) => 2 * |todo| + |slow| + 1
    case Dropping(_, _, _, slow) => |slow|
  }

  function AllLeft(bs: seq<Broadcast>): nat {
    if bs == [] then 0 else AllLeft(bs[..|bs| - 1]) + Left(bs[|bs| - 1])
  }

  lemma {:induction false} AllLeftDrops(bs: seq<Broadcast>, b: nat, x: Broadcast)
    requires b < |bs| && Left(x) < Left(bs[b])
    ensures AllLeft(bs[b := x]) < AllLeft(bs)
    decreases |bs|
  {
    var n := |bs| - 1;
    if b < n {
      AllLeftDrops(bs[..n], b, x);
      assert bs[b := x][..n] == bs[..n][b := x];
    } else {
      assert bs[b := x][..n] == bs[..n];
    }
  }

  /** The lock never wedges: while a broadcast is not complete one of them can
      step, and every such step leaves less to do. */
  lemma {:induction false} SomeBroadcastMoves(w: World)
    requires Inv(w) && exists b :: 0 <= b < |w.broadcasts| && !Complete(w.broadcasts[b])
    ensures exists step :: Enabled(w, step) && AllLeft(After(w, step).broadcasts) < AllLeft(w.broadcasts)
  {
    if Unread(w) {
      var b :| 0 <= b < |w.broadcasts| && !Complete(w.broadcasts[b]);
      Moves(w, Drop(b));
    } else {
      var b :| 0 <= b < |w.broadcasts| && w.broadcasts[b].Reading?;
      if w.broadcasts[b].todo == {} {
        Moves(w, Unlock(b));
      } else {
        var c :| c in w.broadcasts[b].todo;
        Moves(w, Visit(b, c));
      }
    }
  }

  lemma {:induction false} Moves(w: World, step: Step)
    requires Inv(w) && Enabled(w, step) && (step.Visit? || step.Unlock? || step.Drop?)
    ensures AllLeft(After(w, step).broadcasts) < AllLeft(w.broadcasts)
  {
    var x, y := w.broadcasts[step.b], After(w, step).broadcasts[step.b];
    assert Accounted(w, x);
    AllLeftDrops(w.broadcasts, step.b, y);
  }

  /** Registering a client a second time, after it was dropped, makes the next
      broadcast send on its closed channel. */
  lemma SecondRegisterPanics(ws: seq<World>, steps: seq<Step>)
    requires steps == [Register(0), Unregister(0), Register(0), Lock("m"), Visit(0, 0)]
    requires |ws| == 6 && Start(ws[0])
    requires forall i :: 0 <= i < 5 ==> Enabled(ws[i], steps[i]) ==> ws[i + 1] == After(ws[i], steps[i])
    ensures IsRun(ws, steps) && ws[5].panicked
  {
    assert ws[1] == After(ws[0], steps[0]);
    assert ws[2] == After(ws[1], steps[1]);
    assert ws[3] == After(ws[2], steps[2]);
    assert ws[4] == After(ws[3], steps[3]);
    assert ws[5] == After(ws[4], steps[4]);
  }
}

/** The hub's methods, on its own state. */
module WebsocketHub {
  type Msg = string

  class Client {
    const capacity: nat
    var queue: seq<Msg>
    var open: bool

    constructor (capacity: nat)
      ensures this.capacity == capacity && queue == [] && open
    {
      this.capacity := capacity;
      queue, open := [], true;
    }

    /** close(c.send); a second one would panic. */
    method CloseSend()
      requires open
      modifies this`open
      ensures !open
    {
      open := false;
    }

    /** A send that does not wait; on a closed channel it would panic. */
    method TrySend(msg: Msg) returns (sent: bool)
      requires open
      modifies this`queue
      ensures sent <==> |old(queue)| < capacity
      ensures queue == if sent then old(queue) + [msg] else old(queue)
    {
      sent := |queue| < capacity;
      if sent {
        queue := queue + [msg];
      }
    }
  }

  class Hub {
    var clients: set<Client>

    /** Every registered client's channel is open. */
    ghost predicate Valid()
      reads this, clients
    {
      forall c :: c in clients ==> c.open
    }

    constructor ()
      ensures Valid() && clients == {}
    {
      clients := {};
    }

    method Register(c: Client)
      requires Valid() && c.open
      modifies this
      ensures Valid() && clients == old(clients) + {c}
    {
      clients := clients + {c};
    }

    /** A client that is not there, and its channel, are left alone. */
    method Unregister(c: Client)
      requires Valid()
      modifies this, c`open
      ensures Valid() && clients == old(clients) - {c}
      ensures c.open == (old(c.open) && c !in old(clients))
    {
      if c in clients {
        clients := clients - {c};
        c.CloseSend();
      }
    }

    /** Every client with room gets the message, and every one without is
        unregistered; an empty message changes nothing. */
    method Broadcast(msg: Msg)
      requires Valid()
      modifies this, clients
      ensures Valid()
      ensures clients == set c | c in old(clients) && (msg == "" || |old(c.queue)| < c.capacity)
      ensures forall c :: c in old(clients) ==> c.open == (c in clients)
      ensures forall c :: c in old(clients) ==>
                c.queue == if msg != "" && c in clients then old(c.queue) + [msg] else old(c.queue)
    {
      if msg == "" {
        return;
      }
      var slow := TryAll(msg);
      DropSlow(slow);
    }

    /** What a broadcast does under the read lock: no one comes or goes. */
    method TryAll(msg: Msg) returns (slow: seq<Client>)
      requires Valid()
      modifies clients`queue
      ensures forall c :: c in slow <==> c in clients && |old(c.queue)| >= c.capacity
      ensures forall c :: c in clients ==> c.queue == if c in slow then old(c.queue) else old(c.queue) + [msg]
    {
      slow := [];
      var todo := clients;
      while todo != {}
        invariant todo <= clients
        invariant forall c :: c in slow <==> c in clients - todo && |old(c.queue)| >= c.capacity
        invariant forall c :: c in todo ==> c.queue == old(c.queue)
        invariant forall c :: c in clients - todo ==>
                    c.queue == if c in slow then old(c.queue) else old(c.queue) + [msg]
        decreases |todo|
      {
        var c :| c in todo;
        todo := todo - {c};
        var sent := c.TrySend(msg);
        if !sent {
          slow := slow + [c];
        }
      }
    }

    /** Unregister, for each slow client. */
    method DropSlow(slow: seq<Client>)
      requires Valid() && forall c :: c in slow ==> c in clients
      modifies this, clients`open
      ensures Valid()
      ensures forall c :: c in clients <==> c in old(clients) && c !in slow
      ensures forall c :: c in old(clients) ==> c.open == (c in clients)
    {
      for i := 0 to |slow|
        invariant forall c :: c in clients <==> c in old(clients) && c !in slow[..i]
        invariant forall c :: c in old(clients) ==> c.open == (c in clients)
      {
        assert slow[..i + 1] == slow[..i] + [slow[i]];
        assert slow[i] in old(clients);
        Unregister(slow[i]);
      }
      assert slow[..|slow|] == slow;
    }

    /** What Run does once its context is done. */
    method Shutdown()
      requires Valid()
      modifies this, clients
      ensures Valid() && clients == {}
      ensures forall c :: c in old(clients) ==> !c.open && c.queue == old(c.queue)
    {
      ghost var all := clients;
      while clients != {}
        invariant Valid() && clients <= all
        invariant forall c :: c in all - clients ==> !c.open
        invariant forall c :: c in all ==> c.queue == old(c.queue)
        decreases |clients|
      {
        var c :| c in clients;
        clients := clients - {c};
        c.CloseSend();
      }
    }
  }
}
