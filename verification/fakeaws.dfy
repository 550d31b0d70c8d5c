/** Starting, retrying and stopping a rehearsal's fakeaws process. */
module Fakeaws {
  import opened Wrappers

  // ----- What happens on the host, in order -----

  datatype Signal = TERM | KILL

  /** A process is known by its number, since the system may give its pid, and
      so its group id, to another once it is reaped. */
  datatype Event =
    | Started(n: nat, pid: int)
    | Reaped(n: nat)
    | Recorded(n: nat)
    | Cleared
    | SawGone(pid: int)
    | Probed(pid: int)
    | Signalled(pid: int, signal: Signal)
    | TimeUp(pid: int)   // a wait for a group gave up

  /** Who is not yet reaped, whom the record names, which groups were seen gone,
      and which were waited for in vain. Orderly: no process was started beside
      an unreaped or recorded one, no group was probed or signalled after it was
      seen gone, and none was killed that was not waited for first. */
  datatype Seen = Seen(alive: set<nat>, record: Option<nat>, gone: set<int>, waited: set<int>, orderly: bool)

  function Apply(s: Seen, e: Event): Seen {
    match e
    case Started(n, pid) =>
      s.(alive := s.alive + {n}, gone := s.gone - {pid}, waited := s.waited - {pid}, orderly := s.orderly && s.alive == {} && s.record.None?)
    case Reaped(n) => s.(alive := s.alive - {n})
    case Recorded(n) => s.(record := Some(n))
    case Cleared => s.(record := None)
    case SawGone(pid) => s.(gone := s.gone + {pid})
    case Probed(pid) => s.(orderly := s.orderly && pid !in s.gone)
    case Signalled(pid, TERM) => s.(waited := s.waited - {pid}, orderly := s.orderly && pid !in s.gone)
    case Signalled(pid, KILL) => s.(orderly := s.orderly && pid !in s.gone && pid in s.waited)
    case TimeUp(pid) => s.(waited := s.waited + {pid})
  }

  function Replay(log: seq<Event>): Seen {
    if log == [] then Seen({}, None, {}, {}, true) else Apply(Replay(log[..|log| - 1]), log[|log| - 1])
  }

  /** The signals sent, in order. */
  function Signals(log: seq<Event>): seq<(int, Signal)> {
    if log == [] then []
    else
      var e := log[|log| - 1];
      Signals(log[..|log| - 1]) + if e.Signalled? then [(e.pid, e.signal)] else []
  }

  /** Read off the events themselves, what an orderly log says. */
  lemma {:induction false} OrderlyMeans(log: seq<Event>, i: nat)
    requires Replay(log).orderly && i < |log|
    ensures log[i].Started? ==> Replay(log[..i]).alive == {} && Replay(log[..i]).record.None?
    ensures log[i].Probed? || log[i].Signalled? ==>
              forall j :: 0 <= j < i && log[j] == SawGone(log[i].pid) ==> exists k, n :: j < k < i && log[k] == Started(n, log[i].pid)
    ensures log[i].Signalled? && log[i].signal.KILL? ==> exists j :: WaitedInVain(log[..i], log[i].pid, j)
    decreases |log|
  {
    var n := |log| - 1;
    var init := log[..n];
    if i < n {
      OrderlyMeans(init, i);
      assert init[..i] == log[..i];
      assert forall j :: 0 <= j < n ==> init[j] == log[j];
    } else if log[i].Probed? || log[i].Signalled? {
      forall j | 0 <= j < i && log[j] == SawGone(log[i].pid)
        ensures exists k, n :: j < k < i && log[k] == Started(n, log[i].pid)
      {
        GoneStays(init, j);
      }
      if log[i].Signalled? && log[i].signal.KILL? {
        WaitedMeans(init, log[i].pid);
      }
    }
  }

  /** A wait for the group gave up at j, and its latest process and SIGTERM are from before. */
  ghost predicate WaitedInVain(log: seq<Event>, pid: int, j: int) {
    && 0 <= j < |log| && log[j] == TimeUp(pid)
    && forall k :: j < k < |log| ==> !IsStart(log[k], pid) && log[k] != Signalled(pid, TERM)
  }

  predicate IsStart(e: Event, pid: int) {
    e.Started? && e.pid == pid
  }

  lemma {:induction false} WaitedMeans(log: seq<Event>, pid: int)
    requires pid in Replay(log).waited
    ensures exists j :: WaitedInVain(log, pid, j)
    decreases |log|
  {
    var n := |log| - 1;
    var init := log[..n];
    if log[n] == TimeUp(pid) {
      assert WaitedInVain(log, pid, n);
    } else {
      WaitedMeans(init, pid);
      var j :| WaitedInVain(init, pid, j);
      forall k | j < k < |log| ensures !IsStart(log[k], pid) && log[k] != Signalled(pid, TERM) {
        assert k < n ==> init[k] == log[k];
      }
      assert WaitedInVain(log, pid, j);
    }
  }

  /** A group seen gone stays so until a process is started with its id. */
  lemma {:induction false} GoneStays(log: seq<Event>, j: nat)
    requires j < |log| && log[j].SawGone?
    ensures log[j].pid in Replay(log).gone || exists k, n :: j < k < |log| && log[k] == Started(n, log[j].pid)
    decreases |log|
  {
    var n := |log| - 1;
    if j < n {
      GoneStays(log[..n], j);
      if log[j].pid !in Replay(log).gone && log[j].pid in Replay(log[..n]).gone {
        assert log[n] == Started(log[n].n, log[j].pid);
      } else if log[j].pid !in Replay(log).gone {
        var k, m :| j < k < n && log[..n][k] == Started(m, log[j].pid);
        assert log[k] == Started(m, log[j].pid);
      }
    }
  }

  // ----- The host -----

  class Host {
    var log: seq<Event>
    var next: nat

    ghost predicate Valid()
      reads this
    {
      Replay(log).orderly && forall n :: n in Replay(log).alive ==> n < next
    }

    function Now(): Seen
      reads this
    {
      Replay(log)
    }

    constructor ()
      ensures Valid() && log == [] && next == 0
    {
      log, next := [], 0;
    }

    method Note(e: Event)
      modifies this`log
      ensures log == old(log) + [e] && Now() == Apply(old(Now()), e)
      ensures Signals(log) == Signals(old(log)) + if e.Signalled? then [(e.pid, e.signal)] else []
    {
      log := log + [e];
      assert log[..|log| - 1] == old(log);
    }

    /** Time passes: a process of ours may end and be reaped. */
    method Pass()
      requires Valid()
      modifies this`log
      ensures Valid() && Waited(old(log), log)
    {
      var ends: bool := *;
      if ends && Now().alive != {} {
        var n :| n in Now().alive;
        Note(Reaped(n));
      }
    }
  }

  /** What waiting can change: processes end. */
  predicate Waited(before: seq<Event>, after: seq<Event>) {
    && before <= after
    && Replay(after).waited == Replay(before).waited
    && Replay(after).alive <= Replay(before).alive
    && Replay(after).record == Replay(before).record
    && Replay(after).gone == Replay(before).gone
    && Signals(after) == Signals(before)
  }

  // ----- A started fakeaws -----

  /** What looking at a group changes. */
  predicate Checked(pid: int, before: seq<Event>, after: seq<Event>) {
    && before <= after
    && Replay(before).waited <= Replay(after).waited
    && Replay(after).alive <= Replay(before).alive
    && Replay(after).record == Replay(before).record
    && Replay(before).gone <= Replay(after).gone <= Replay(before).gone + {pid}
    && Signals(after) == Signals(before)
  }

  /** What a value can tell whether its group is gone by: the exit of the
      process it started, or a flag it sets once it has seen the group gone. */
  class Process {
    const n: nat
    const pid: int
    const hasExited: bool
    var gone: bool

    constructor (n: nat, pid: int, hasExited: bool)
      ensures this.n == n && this.pid == pid && this.hasExited == hasExited && !gone
    {
      this.n, this.pid, this.hasExited, gone := n, pid, hasExited, false;
    }

    /** A group seen gone is known to be, without another probe. */
    ghost predicate Knows(s: Seen)
      reads this
    {
      pid in s.gone ==> if hasExited then n !in s.alive else gone
    }

    method GroupGone(host: Host) returns (yes: bool)
      requires host.Valid() && Knows(host.Now())
      modifies host`log, this`gone
      ensures host.Valid() && Knows(host.Now())
      ensures yes <==> pid in host.Now().gone
      ensures hasExited ==> (yes <==> n !in host.Now().alive)
      // Only a probe tells a group without an exit of its own to wait for from one that is gone.
      ensures !hasExited && !yes ==> |host.log| > |old(host.log)| && host.log[|host.log| - 1] == Probed(pid)
      ensures Checked(pid, old(host.log), host.log)
    {
      host.Pass();
      if hasExited {
        if n in host.Now().alive {
          return false;
        }
        host.Note(SawGone(pid));
        return true;
      }
      if gone {
        host.Note(SawGone(pid));
        return true;
      }
      host.Note(Probed(pid));
      var noSuchGroup: bool := *;
      if !noSuchGroup {
        return false;
      }
      gone := true;
      host.Note(SawGone(pid));
      yes := true;
    }

    /** rehearsalWithin: polls until the group, and its port when asked, are
        done with, or the time is up. */
    method Within(host: Host, andPort: bool) returns (done: bool)
      requires host.Valid() && Knows(host.Now())
      modifies host`log, this`gone
      ensures host.Valid() && Knows(host.Now())
      ensures done ==> pid in host.Now().gone && (hasExited ==> n !in host.Now().alive)
      ensures !done ==> pid in host.Now().waited
      ensures !andPort ==> (done <==> pid in host.Now().gone)
      ensures Checked(pid, old(host.log), host.log)
    {
      var polls :| 0 <= polls;
      ghost var before := host.log;
      while true
        invariant polls >= 0
        invariant host.Valid() && Knows(host.Now()) && Checked(pid, before, host.log)
        decreases polls
      {
        done := Stopped(host, andPort);
        if done {
          return;
        }
        if polls == 0 {
          host.Note(TimeUp(pid));
          return;
        }
        polls := polls - 1;
      }
    }

    method Stopped(host: Host, andPort: bool) returns (done: bool)
      requires host.Valid() && Knows(host.Now())
      modifies host`log, this`gone
      ensures host.Valid() && Knows(host.Now())
      ensures done ==> pid in host.Now().gone && (hasExited ==> n !in host.Now().alive)
      ensures !andPort ==> (done <==> pid in host.Now().gone) && (hasExited ==> (done <==> n !in host.Now().alive))
      ensures Checked(pid, old(host.log), host.log)
    {
      done := GroupGone(host);
      if done && andPort {
        done := *;
      }
    }

    /** stopUntil: SIGTERM, then SIGKILL, each followed by a wait. It succeeds
        only once the group was seen gone; nothing is sent to a group seen gone,
        and nothing at all for a value that names no process. */
    method StopUntil(host: Host, andPort: bool) returns (ok: bool)
      requires host.Valid() && Knows(host.Now())
      modifies host`log, this`gone
      ensures host.Valid() && Knows(host.Now())
      ensures pid <= 0 ==> ok && host.log == old(host.log)
      ensures ok && pid > 0 ==> pid in host.Now().gone && (hasExited ==> n !in host.Now().alive)
      ensures host.Now().record == old(host.Now().record) && host.Now().alive <= old(host.Now().alive)
      ensures var sent := Signals(host.log);
              || sent == Signals(old(host.log))
              || sent == Signals(old(host.log)) + [(pid, TERM)]
              || sent == Signals(old(host.log)) + [(pid, TERM), (pid, KILL)]
      ensures pid in old(host.Now().gone) ==> Signals(host.log) == Signals(old(host.log))
      // A stop that fails with the group still there has sent both, and only
      // a port still answering keeps one from succeeding once the group is gone.
      ensures !ok && pid !in host.Now().gone ==> Signals(host.log) == Signals(old(host.log)) + [(pid, TERM), (pid, KILL)]
      ensures !ok && !andPort ==> pid !in host.Now().gone
      // A process that has ended by itself is not signalled.
      ensures pid > 0 && hasExited && n !in old(host.Now().alive) && !andPort ==> ok && Signals(host.log) == Signals(old(host.log))
      ensures old(host.log) <= host.log
    {
      if pid <= 0 {
        return true;
      }
      ok := Stopped(host, andPort);
      if ok {
        return;
      }
      Send(host, TERM);
      ok := Within(host, andPort);
      if ok {
        return;
      }
      Send(host, KILL);
      ok := Within(host, andPort);
    }

    /** Signals the group unless it was seen gone. */
    method Send(host: Host, signal: Signal)
      requires host.Valid() && Knows(host.Now())
      requires signal.KILL? ==> pid in host.Now().waited
      modifies host`log, this`gone
      ensures host.Valid() && Knows(host.Now())
      ensures old(host.log) <= host.log
      ensures host.Now().record == old(host.Now().record) && host.Now().alive <= old(host.Now().alive)
      ensures old(host.Now().gone) <= host.Now().gone
      ensures Signals(host.log) ==
              Signals(old(host.log)) + if pid in host.Now().gone then [] else [(pid, signal)]
    {
      var isGone := GroupGone(host);
      if !isGone {
        host.Note(Signalled(pid, signal));
      }
    }
  }

  // ----- Starting one -----

  datatype Refusal =
    | Busy(why: string)   // the port was taken: another try may do
    | StopFailed          // the process may be alive
    | Other(why: string)

  datatype Try = Ready(f: Process) | Refused(why: Refusal)

  /** What the outside decides in one try. `recordLands` is whether a record
      write that reports a failure was made all the same. */
  datatype Luck = Luck(
    portFree: bool, logOpens: bool, starts: bool, pid: int,
    recorded: bool, recordLands: bool, checksPass: bool, cancelled: bool, cleared: bool, tailSaysBusy: bool)

  /** Everything outside goes well. */
  predicate Good(l: Luck) {
    Starts(l) && l.recorded && l.checksPass
  }

  predicate Starts(l: Luck) {
    l.portFree && l.logOpens && l.starts
  }

  method Spawn(host: Host, pid: int) returns (f: Process)
    requires host.Valid() && host.Now().alive == {} && host.Now().record.None?
    modifies host
    ensures host.Valid() && host.next == old(host.next) + 1 && fresh(f)
    ensures f.n == old(host.next) && f.pid == pid && f.hasExited
    ensures host.log == old(host.log) + [Started(f.n, pid)]
    ensures host.Now().alive == {f.n} && host.Now().record.None? && host.Now().gone == old(host.Now().gone) - {pid}
    ensures Signals(host.log) == Signals(old(host.log))
    ensures f.Knows(host.Now())
  {
    f := new Process(host.next, pid, true);
    host.next := host.next + 1;
    host.Note(Started(f.n, pid));
  }

  /** The last signals are a SIGTERM and a SIGKILL of one group. */
  ghost predicate EndsInBoth(sent: seq<(int, Signal)>) {
    |sent| >= 2 && sent[|sent| - 2].1.TERM? && sent[|sent| - 1] == (sent[|sent| - 2].0, KILL)
  }

  /** At most one process of ours may be left, and a record that was written names it. */
  ghost predicate Unstopped(s: Seen, recorded: bool) {
    exists n :: s.alive <= {n} && (recorded ==> s.record == Some(n))
  }

  /** The process is started, and recorded before anything else happens. */
  method Launch(host: Host, luck: Luck) returns (f: Process)
    requires host.Valid() && host.Now().alive == {} && host.Now().record.None?
    modifies host
    ensures host.Valid() && fresh(f) && f.n == old(host.next) && f.pid == luck.pid && f.hasExited && f.Knows(host.Now())
    ensures host.next == old(host.next) + 1 && host.Now().alive == {f.n}
    ensures host.Now().record == if luck.recorded || luck.recordLands then Some(f.n) else None
    ensures host.log == old(host.log) + [Started(f.n, luck.pid)]
                        + if luck.recorded || luck.recordLands then [Recorded(f.n)] else []
    ensures Signals(host.log) == Signals(old(host.log))
  {
    f := Spawn(host, luck.pid);
    if luck.recorded || luck.recordLands {
      host.Note(Recorded(f.n));
    }
  }

  /** A process that cannot be recorded is stopped. */
  method StopUnrecorded(host: Host, f: Process, luck: Luck) returns (why: Refusal)
    requires host.Valid() && f.Knows(host.Now()) && f.hasExited && f.pid == luck.pid > 1
    requires host.Now().alive <= {f.n}
    modifies host`log, f`gone
    ensures host.Valid() && !why.Busy?
    ensures why.StopFailed? ==>
        && Unstopped(host.Now(), false)
        && Signals(host.log) == Signals(old(host.log)) + [(luck.pid, TERM), (luck.pid, KILL)]
    ensures !why.StopFailed? ==> host.Now().alive == {}
  {
    var stopped := f.StopUntil(host, false);
    why := if stopped then Other("fakeaws cannot be recorded") else StopFailed;
  }

  /** A recorded process that is not ready is stopped and its record cleared,
      and the refusal says why. */
  method GiveUp(host: Host, f: Process, luck: Luck) returns (why: Refusal, recorded: bool)
    requires host.Valid() && f.Knows(host.Now()) && f.hasExited && f.pid == luck.pid > 1
    requires host.Now().alive <= {f.n} && host.Now().record == Some(f.n)
    modifies host`log, f`gone
    ensures host.Valid() && old(host.log) <= host.log
    ensures why.StopFailed? ==>
        && recorded && Unstopped(host.Now(), true)
        && Signals(host.log) == Signals(old(host.log)) + [(luck.pid, TERM), (luck.pid, KILL)]
    ensures !why.StopFailed? ==> host.Now().alive == {} && !recorded
    ensures why.Busy? ==> host.Now().record.None?
    ensures why.Busy? <==> !why.StopFailed? && luck.cleared && !luck.cancelled && luck.tailSaysBusy
    ensures old(host.Now().alive) == {} ==>
        !why.StopFailed? && Signals(host.log) == Signals(old(host.log))
  {
    var selfExited := !luck.cancelled && f.n !in host.Now().alive;
    var stopped := f.StopUntil(host, false);
    if !stopped {
      return StopFailed, true;
    }
    if !luck.cleared {
      return Other("the record cannot be cleared"), false;
    }
    host.Note(Cleared);
    if luck.cancelled {
      return Other("cancelled"), false;
    }
    if luck.tailSaysBusy {
      return Busy("fakeaws could not bind its port"), false;
    }
    return Other(if selfExited then "fakeaws exited before it was ready" else "fakeaws is refused"), false;
  }

  /** One try. Only a try whose process was reaped, and whose record was
      cleared, asks for another. */
  method StartOnce(host: Host, luck: Luck) returns (r: Try, recorded: bool)
    requires host.Valid() && host.Now().alive == {} && host.Now().record.None? && luck.pid > 1
    modifies host
    ensures host.Valid() && host.next >= old(host.next)
    ensures r.Ready? ==>
              && fresh(r.f) && r.f.pid == luck.pid && r.f.hasExited && r.f.Knows(host.Now())
              && recorded && host.Now().record == Some(r.f.n) && host.Now().alive == {r.f.n} && luck.checksPass
    ensures r.Refused? && r.why.Busy? ==> host.Now().alive == {} && host.Now().record.None?
    ensures r.Refused? && !r.why.StopFailed? ==> host.Now().alive == {}
    ensures r == Refused(StopFailed) ==> Unstopped(host.Now(), recorded)
    // When all goes well outside, only a process that ends by itself is not ready.
    ensures Good(luck) && r.Refused? ==> !r.why.StopFailed? && host.Now().alive == {} && Signals(host.log) == Signals(old(host.log))
    ensures r.Ready? ==> Good(luck) && Signals(host.log) == Signals(old(host.log))
    ensures r == Refused(StopFailed) ==>
        Signals(host.log) == Signals(old(host.log)) + [(luck.pid, TERM), (luck.pid, KILL)]
    ensures host.next == old(host.next) + (if Starts(luck) then 1 else 0)
    ensures !Starts(luck) ==> host.log == old(host.log)
    ensures r.Refused? && r.why.Busy? <==>
        r.Refused? && !r.why.StopFailed? && Starts(luck) && luck.recorded && luck.cleared && !luck.cancelled && luck.tailSaysBusy
  {
    if !luck.portFree || !luck.logOpens || !luck.starts {
      return Refused(Other("fakeaws did not start")), false;
    }
    var f := Launch(host, luck);
    recorded := luck.recorded;
    if !recorded {
      var why := StopUnrecorded(host, f, luck);
      return Refused(why), recorded;
    }
    host.Pass();
    if luck.checksPass && f.n in host.Now().alive {
      return Ready(f), recorded;
    }
    host.Pass();
    var why;
    why, recorded := GiveUp(host, f, luck);
    r := Refused(why);
  }

  const TRIES: nat := 3

  /** At most three tries, and a later one only after the one before was reaped
      and its record cleared: the log stays orderly throughout. On success the
      record names the process returned. */
  method Start(host: Host, mkdir: bool, lucks: seq<Luck>) returns (r: Try, recorded: bool)
    requires host.Valid() && host.Now().alive == {} && host.Now().record.None?
    requires |lucks| == TRIES && forall l :: l in lucks ==> l.pid > 1
    modifies host
    ensures host.Valid()
    ensures r.Ready? ==>
              && fresh(r.f) && r.f.pid > 1 && r.f.hasExited && r.f.Knows(host.Now())
              && recorded && host.Now().record == Some(r.f.n) && host.Now().alive == {r.f.n}
    ensures r.Refused? && !r.why.StopFailed? ==> host.Now().alive == {}
    ensures r == Refused(StopFailed) ==> Unstopped(host.Now(), recorded)
    ensures !mkdir ==> r.Refused? && host.log == old(host.log)
    ensures mkdir && (forall l :: l in lucks ==> Good(l)) && r.Refused? ==>
        !r.why.StopFailed? && host.Now().alive == {} && Signals(host.log) == Signals(old(host.log))
    ensures r == Refused(StopFailed) ==> EndsInBoth(Signals(host.log))
    ensures host.next <= old(host.next) + TRIES
    ensures r.Refused? && r.why.Busy? ==> host.next == old(host.next) + TRIES
  {
    if !mkdir {
      return Refused(Other("fakeaws cannot have its dir")), false;
    }
    r, recorded := Refused(Other("no try")), false;
    for i := 0 to TRIES
      invariant host.Valid() && host.Now().alive == {} && host.Now().record.None?
      invariant r.Refused? && !r.why.StopFailed?
      invariant i > 0 ==> r.why.Busy?
      invariant host.next == old(host.next) + i
      invariant (forall l :: l in lucks ==> Good(l)) ==> Signals(host.log) == Signals(old(host.log))
    {
      r, recorded := StartOnce(host, lucks[i]);
      if r.Ready? || !r.why.Busy? {
        return;
      }
    }
  }

  // ----- What prepare and end make of it -----

  /** A refused prepare deletes the rehearsal, its record with it, unless it is
      kept; an orphan is named in the refusal, to be stopped by hand. */
  datatype Prepared = Up(f: Process) | Deleted | Kept | Orphaned

  /** A rehearsal is deleted only once nothing of its fakeaws is left, or with
      the orphan named; it is kept exactly when a stop failed and the record
      names who it failed on. */
  method Walls(host: Host, mkdir: bool, lucks: seq<Luck>, overridesWritten: bool, recordWritten: bool, cancelled: bool)
      returns (outcome: Prepared)
    requires host.Valid() && host.Now().alive == {} && host.Now().record.None?
    requires |lucks| == TRIES && forall l :: l in lucks ==> l.pid > 1
    modifies host
    ensures host.Valid()
    ensures outcome.Up? ==> host.Now().record == Some(outcome.f.n) && host.Now().alive == {outcome.f.n}
    ensures outcome.Up? ==> overridesWritten && recordWritten && !cancelled
    ensures outcome.Deleted? ==> host.Now().alive == {}
    ensures outcome.Kept? ==> Unstopped(host.Now(), true)
    ensures outcome.Orphaned? ==> Unstopped(host.Now(), false)
    ensures outcome.Kept? || outcome.Orphaned? ==> EndsInBoth(Signals(host.log))
    // When all goes well outside, only a process that ended by itself is not up.
    ensures mkdir && (forall l :: l in lucks ==> Good(l)) && overridesWritten && recordWritten && !cancelled && !outcome.Up? ==>
        outcome.Deleted? && Signals(host.log) == Signals(old(host.log))
  {
    var r, recorded := Start(host, mkdir, lucks);
    if r.Refused? {
      return if !r.why.StopFailed? then Deleted else if recorded then Kept else Orphaned;
    }
    var f := r.f;
    if overridesWritten && recordWritten {
      host.Note(Recorded(f.n));
      if !cancelled {
        return Up(f);
      }
    }
    var stopped := f.StopUntil(host, false);
    outcome := if stopped then Deleted else if recorded then Kept else Orphaned;
  }

  datatype Ended = NotSignalled | Stopped | StopKept

  /** End signals only a record that proves itself, and deletes the rehearsal
      unless that stop failed. A deletion after signalling follows the sight of
      the group gone. */
  method End(host: Host, proved: bool, pid: int) returns (ended: Ended)
    requires host.Valid() && pid !in host.Now().gone && (proved ==> pid > 1)
    modifies host
    ensures host.Valid()
    ensures ended.NotSignalled? <==> !proved
    ensures ended.NotSignalled? ==> host.log == old(host.log)
    ensures ended.Stopped? ==> pid in host.Now().gone
    ensures ended.StopKept? && pid !in host.Now().gone ==>
        Signals(host.log) == Signals(old(host.log)) + [(pid, TERM), (pid, KILL)]
  {
    if !proved {
      return NotSignalled;
    }
    var f := new Process(0, pid, false);
    var stopped := f.StopUntil(host, true);
    ended := if stopped then Stopped else StopKept;
  }
}
