/** The rehearsal gate's depth-first walk over module directories.

    Directories are already resolved: two spellings of one directory are one
    `Dir`. A `Tree` says, for each directory, which directories its module
    blocks resolve to, and which directories the gate could not read cleanly. */
module ModuleWalk {
  type Dir = string

  /** One module block's admitted source: its label, target and source text. */
  datatype Call = Call(name: string, target: Dir, text: string)

  datatype Tree = Tree(calls: map<Dir, seq<Call>>, faulty: set<Dir>)

  /** How the walk reached a directory: as a start, or through a call. */
  datatype Origin = Start | Called(text: string)

  datatype ModuleDir = ModuleDir(key: string, dir: Dir, origin: Origin)

  /** A refused call: it resolves to a directory already on its call path. */
  datatype Cycle = Cycle(key: string, caller: Dir, text: string, target: Dir)

  function CallsOf(t: Tree, d: Dir): seq<Call> {
    if d in t.calls then t.calls[d] else []
  }

  /** A call's module directory, keyed by the module path tofu's manifest uses. */
  function Keyed(parent: ModuleDir, c: Call): ModuleDir {
    var key := if parent.key == "" then c.name else parent.key + "." + c.name;
    ModuleDir(key, c.target, Called(c.text))
  }

  ghost predicate Edge(t: Tree, u: Dir, v: Dir) {
    exists i :: 0 <= i < |CallsOf(t, u)| && CallsOf(t, u)[i].target == v
  }

  ghost predicate IsPath(t: Tree, p: seq<Dir>) {
    p != [] && forall i :: 0 <= i < |p| - 1 ==> Edge(t, p[i], p[i + 1])
  }

  ghost predicate Reaches(t: Tree, a: Dir, b: Dir) {
    exists p :: IsPath(t, p) && p[0] == a && p[|p| - 1] == b
  }

  ghost predicate ReachedFrom(t: Tree, starts: seq<ModuleDir>, d: Dir) {
    exists i :: 0 <= i < |starts| && Reaches(t, starts[i].dir, d)
  }

  /** Some directory reached from a start has a call back to itself, directly or not. */
  ghost predicate CycleReached(t: Tree, starts: seq<ModuleDir>) {
    exists u, v :: ReachedFrom(t, starts, u) && Edge(t, u, v) && Reaches(t, v, u)
  }

  lemma ReachesSelf(t: Tree, a: Dir)
    ensures Reaches(t, a, a)
  {
    assert IsPath(t, [a]);
  }

  lemma ReachesStep(t: Tree, a: Dir, b: Dir, c: Dir)
    requires Reaches(t, a, b) && Edge(t, b, c)
    ensures Reaches(t, a, c)
  {
    var p :| IsPath(t, p) && p[0] == a && p[|p| - 1] == b;
    assert IsPath(t, p + [c]);
  }

  lemma ReachesTrans(t: Tree, a: Dir, b: Dir, c: Dir)
    requires Reaches(t, a, b) && Reaches(t, b, c)
    ensures Reaches(t, a, c)
  {
    var p :| IsPath(t, p) && p[0] == a && p[|p| - 1] == b;
    var q :| IsPath(t, q) && q[0] == b && q[|q| - 1] == c;
    var r := p + q[1..];
    forall i | 0 <= i < |r| - 1 ensures Edge(t, r[i], r[i + 1]) {
      if i >= |p| - 1 {
        assert r[i + 1] == q[i + 1 - |p| + 1];
        assert r[i] == q[i - |p| + 1];
      }
    }
    assert IsPath(t, r);
  }

  /** A set closed under calls holds everything its members reach. */
  lemma {:induction false} ClosedUnderReach(t: Tree, s: set<Dir>, p: seq<Dir>)
    requires forall u, v :: u in s && Edge(t, u, v) ==> v in s
    requires IsPath(t, p) && p[0] in s
    ensures p[|p| - 1] in s
    decreases |p|
  {
    if |p| > 1 {
      assert Edge(t, p[0], p[1]);
      assert IsPath(t, p[1..]) by {
        forall i | 0 <= i < |p[1..]| - 1 ensures Edge(t, p[1..][i], p[1..][i + 1]) {
          assert Edge(t, p[i + 1], p[i + 2]);
        }
      }
      ClosedUnderReach(t, s, p[1..]);
    }
  }

  ghost predicate NoDuplicates<T>(s: seq<T>) {
    forall i, j :: 0 <= i < j < |s| ==> s[i] != s[j]
  }

  /** Every call of a directory in `done` targets an earlier entry of `done`. */
  ghost predicate CallsGoBack(t: Tree, done: seq<Dir>) {
    forall k, v :: 0 <= k < |done| && Edge(t, done[k], v) ==> v in done[..k]
  }

  /** In a finishing order whose calls only go back, a path only descends, so
      no directory reaches itself through a call. */
  lemma {:induction false} PathDescends(t: Tree, done: seq<Dir>, p: seq<Dir>, k: nat)
    requires CallsGoBack(t, done) && NoDuplicates(done)
    requires IsPath(t, p) && k < |done| && p[0] == done[k]
    ensures exists j :: 0 <= j <= k && done[j] == p[|p| - 1] && (|p| > 1 ==> j < k)
    decreases |p|
  {
    if |p| > 1 {
      assert Edge(t, done[k], p[1]);
      var j :| 0 <= j < k && done[j] == p[1];
      forall i | 0 <= i < |p[1..]| - 1 ensures Edge(t, p[1..][i], p[1..][i + 1]) {
        assert Edge(t, p[i + 1], p[i + 2]);
      }
      PathDescends(t, done, p[1..], j);
    }
  }

  /** A refusal names, by its text, a call of a visited directory and its key. */
  ghost predicate NamesCall(t: Tree, visits: seq<ModuleDir>, c: Cycle) {
    exists m, k ::
      && m in visits && m.dir == c.caller && m.key == c.key
      && 0 <= k < |CallsOf(t, m.dir)|
      && CallsOf(t, m.dir)[k].target == c.target && CallsOf(t, m.dir)[k].text == c.text
  }

  lemma NamedCallIsEdge(t: Tree, visits: seq<ModuleDir>, c: Cycle)
    requires NamesCall(t, visits, c)
    ensures Edge(t, c.caller, c.target)
  {
  }

  lemma NamesCallGrows(t: Tree, v: seq<ModuleDir>, v': seq<ModuleDir>, c: Cycle)
    requires v <= v' && NamesCall(t, v, c)
    ensures NamesCall(t, v', c)
  {
    var m, k :|
      && m in v && m.dir == c.caller && m.key == c.key
      && 0 <= k < |CallsOf(t, m.dir)|
      && CallsOf(t, m.dir)[k].target == c.target && CallsOf(t, m.dir)[k].text == c.text;
    assert m in v';
  }

  /** A value of the walk's shared state. `done` lists, in finishing order, the
      directories whose calls have all been followed. */
  datatype Snapshot = Snapshot(visited: set<Dir>, path: set<Dir>, problems: seq<Cycle>,
                               visits: seq<ModuleDir>, done: seq<Dir>) {
    ghost predicate Refused(u: Dir, v: Dir) {
      exists i :: 0 <= i < |problems| && problems[i].caller == u && problems[i].target == v
    }

    ghost predicate VisitsAreVisited() {
      && (forall i :: 0 <= i < |visits| ==> visits[i].dir in visited)
      && (forall d :: d in visited ==> exists i :: 0 <= i < |visits| && visits[i].dir == d)
      && (forall i, j :: 0 <= i < j < |visits| ==> visits[i].dir != visits[j].dir)
    }

    ghost predicate DoneOrOnPath() {
      && NoDuplicates(done)
      && (forall d :: d in visited <==> d in done || d in path)
      && (forall d :: d in path ==> d !in done)
    }

    /** Each refused call is a call whose target reaches its caller. */
    ghost predicate ProblemsAreCycles(t: Tree) {
      forall i :: 0 <= i < |problems| ==>
        && NamesCall(t, visits, problems[i])
        && Reaches(t, problems[i].target, problems[i].caller)
        && problems[i].caller in visited && problems[i].target in visited
    }

    /** Every call of a finished directory targets one finished before it, or is refused. */
    ghost predicate CallsSettled(t: Tree) {
      forall k, v :: 0 <= k < |done| && Edge(t, done[k], v) ==> v in done[..k] || Refused(done[k], v)
    }

    ghost predicate Valid(t: Tree) {
      VisitsAreVisited() && DoneOrOnPath() && ProblemsAreCycles(t) && CallsSettled(t)
    }

    ghost predicate Extends(s: Snapshot) {
      s.visited <= visited && s.problems <= problems && s.visits <= visits && s.done <= done
    }

    function Enter(m: ModuleDir): Snapshot {
      this.(visited := visited + {m.dir}, path := path + {m.dir}, visits := visits + [m])
    }

    function Refuse(c: Cycle): Snapshot {
      this.(problems := problems + [c])
    }

    function Leave(d: Dir): Snapshot {
      this.(path := path - {d}, done := done + [d])
    }
  }

  lemma EnterKeepsValid(t: Tree, s: Snapshot, m: ModuleDir)
    requires s.Valid(t) && m.dir !in s.visited
    ensures s.Enter(m).Valid(t)
  {
    var e := s.Enter(m);
    forall i | 0 <= i < |s.problems| ensures NamesCall(t, e.visits, s.problems[i]) {
      NamesCallGrows(t, s.visits, e.visits, s.problems[i]);
    }
    assert e.VisitsAreVisited() by {
      assert e.visits[|s.visits|] == m;
      forall d | d in e.visited ensures exists i :: 0 <= i < |e.visits| && e.visits[i].dir == d {
        if d != m.dir {
          var i :| 0 <= i < |s.visits| && s.visits[i].dir == d;
          assert e.visits[i].dir == d;
        }
      }
    }
    assert e.CallsSettled(t) by {
      forall k, v | 0 <= k < |e.done| && Edge(t, e.done[k], v) ensures v in e.done[..k] || e.Refused(e.done[k], v) {
        assert v in s.done[..k] || s.Refused(s.done[k], v);
      }
    }
  }

  lemma RefuseKeepsValid(t: Tree, s: Snapshot, c: Cycle)
    requires s.Valid(t) && c.caller in s.visited && c.target in s.visited
    requires NamesCall(t, s.visits, c) && Reaches(t, c.target, c.caller)
    ensures s.Refuse(c).Valid(t)
    ensures forall u, v :: s.Refused(u, v) ==> s.Refuse(c).Refused(u, v)
    ensures s.Refuse(c).Refused(c.caller, c.target)
  {
    var r := s.Refuse(c);
    assert r.problems[|s.problems|] == c;
    RefusedGrows(s, r);
    assert r.CallsSettled(t) by {
      forall k, v | 0 <= k < |r.done| && Edge(t, r.done[k], v) ensures v in r.done[..k] || r.Refused(r.done[k], v) {
        assert v in s.done[..k] || s.Refused(s.done[k], v);
      }
    }
  }

  lemma RefusedGrows(s: Snapshot, r: Snapshot)
    requires s.problems <= r.problems
    ensures forall u, v :: s.Refused(u, v) ==> r.Refused(u, v)
  {
    forall u, v | s.Refused(u, v) ensures r.Refused(u, v) {
      var i :| 0 <= i < |s.problems| && s.problems[i].caller == u && s.problems[i].target == v;
      assert r.problems[i] == s.problems[i];
    }
  }

  lemma LeaveKeepsValid(t: Tree, s: Snapshot, d: Dir)
    requires s.Valid(t) && d in s.path
    requires forall i :: 0 <= i < |CallsOf(t, d)| ==>
        CallsOf(t, d)[i].target in s.done || s.Refused(d, CallsOf(t, d)[i].target)
    ensures s.Leave(d).Valid(t)
  {
    var l := s.Leave(d);
    RefusedGrows(s, l);
    assert l.CallsSettled(t) by {
      forall k, v | 0 <= k < |l.done| && Edge(t, l.done[k], v) ensures v in l.done[..k] || l.Refused(l.done[k], v) {
        if k < |s.done| {
          assert l.done[..k] == s.done[..k];
          assert v in s.done[..k] || s.Refused(s.done[k], v);
        } else {
          assert l.done[..k] == s.done;
        }
      }
    }
  }

  /** The i-th visit was made for a call of an earlier one, and carries its key. */
  ghost predicate CalledFrom(t: Tree, visits: seq<ModuleDir>, i: nat)
    requires i < |visits|
  {
    exists j, k ::
      && 0 <= j < i && 0 <= k < |CallsOf(t, visits[j].dir)|
      && visits[i] == Keyed(visits[j], CallsOf(t, visits[j].dir)[k])
  }

  lemma CalledFromGrows(t: Tree, v: seq<ModuleDir>, v': seq<ModuleDir>, i: nat)
    requires v <= v' && i < |v| && CalledFrom(t, v, i)
    ensures CalledFrom(t, v', i)
  {
    var j, k :| 0 <= j < i && 0 <= k < |CallsOf(t, v[j].dir)| && v[i] == Keyed(v[j], CallsOf(t, v[j].dir)[k]);
    assert v'[i] == v[i] && v'[j] == v[j];
    assert v'[i] == Keyed(v'[j], CallsOf(t, v'[j].dir)[k]);
  }

  ghost predicate AllCalledFrom(t: Tree, visits: seq<ModuleDir>, from: nat) {
    forall i :: from <= i < |visits| ==> CalledFrom(t, visits, i)
  }

  lemma AllCalledFromGrows(t: Tree, v: seq<ModuleDir>, v': seq<ModuleDir>, from: nat)
    requires v <= v' && AllCalledFrom(t, v, from) && AllCalledFrom(t, v', |v|)
    ensures AllCalledFrom(t, v', from)
  {
    forall i | from <= i < |v'| ensures CalledFrom(t, v', i) {
      if i < |v| {
        CalledFromGrows(t, v, v', i);
      }
    }
  }

  /** What one recursive walk of m adds to the state. */
  ghost predicate Walked(t: Tree, s: Snapshot, s': Snapshot, m: ModuleDir) {
    && s'.Extends(s) && s'.path == s.path && m.dir in s'.done
    && (forall d :: d in s'.visited - s.visited ==> Reaches(t, m.dir, d))
    && |s'.visits| > |s.visits| && s'.visits[|s.visits|] == m
    && AllCalledFrom(t, s'.visits, |s.visits| + 1)
  }

  /** What following one call of m adds to the state. */
  ghost predicate FollowedOne(t: Tree, m: ModuleDir, s: Snapshot, s': Snapshot, c: Call) {
    && s'.Extends(s) && s'.path == s.path
    && (forall d :: d in s'.visited - s.visited ==> Reaches(t, m.dir, d))
    && AllCalledFrom(t, s'.visits, |s.visits|)
    && (c.target in s'.done || s'.Refused(m.dir, c.target))
  }

  /** What following the first n calls of m adds to the state m was entered in. */
  ghost predicate Followed(t: Tree, m: ModuleDir, entered: Snapshot, s: Snapshot, n: nat)
    requires n <= |CallsOf(t, m.dir)|
  {
    && m in entered.visits && m.dir in entered.path && (forall p :: p in entered.path ==> Reaches(t, p, m.dir))
    && s.Extends(entered) && s.path == entered.path
    && (forall d :: d in s.visited - entered.visited ==> Reaches(t, m.dir, d))
    && AllCalledFrom(t, s.visits, |entered.visits|)
    && (forall k :: 0 <= k < n ==>
        CallsOf(t, m.dir)[k].target in s.done || s.Refused(m.dir, CallsOf(t, m.dir)[k].target))
  }

  lemma OneMoreFollowed(t: Tree, m: ModuleDir, entered: Snapshot, s: Snapshot, s': Snapshot, n: nat)
    requires n < |CallsOf(t, m.dir)| && Followed(t, m, entered, s, n)
    requires FollowedOne(t, m, s, s', CallsOf(t, m.dir)[n])
    ensures Followed(t, m, entered, s', n + 1)
  {
    RefusedGrows(s, s');
    assert s'.visits[..|s.visits|] == s.visits;
    AllCalledFromGrows(t, s.visits, s'.visits, |entered.visits|);
    forall k | 0 <= k < n + 1
      ensures CallsOf(t, m.dir)[k].target in s'.done || s'.Refused(m.dir, CallsOf(t, m.dir)[k].target)
    {
      if k < n && CallsOf(t, m.dir)[k].target in s.done {
        var i :| 0 <= i < |s.done| && s.done[i] == CallsOf(t, m.dir)[k].target;
        assert s'.done[i] == s.done[i];
      }
    }
  }

  lemma AllFollowed(t: Tree, m: ModuleDir, before: Snapshot, last: Snapshot)
    requires m.dir !in before.visited && before.DoneOrOnPath()
    requires Followed(t, m, before.Enter(m), last, |CallsOf(t, m.dir)|)
    ensures Walked(t, before, last.Leave(m.dir), m)
  {
    var entered, left := before.Enter(m), last.Leave(m.dir);
    assert left.done[|last.done|] == m.dir;
    assert left.path == before.path;
    assert entered.visits[|before.visits|] == m;
    assert left.visits[|before.visits|] == m;
    assert before.visits == left.visits[..|before.visits|];
    ReachesSelf(t, m.dir);
  }

  /** The walk's shared state, as the recursive closure mutates it. */
  class Walker {
    const tree: Tree
    var visited: set<Dir>
    var path: set<Dir>
    var problems: seq<Cycle>
    // Every directory visit was called on, in order.
    var visits: seq<ModuleDir>
    ghost var done: seq<Dir>

    ghost function Snap(): Snapshot
      reads this
    {
      Snapshot(visited, path, problems, visits, done)
    }

    constructor (t: Tree)
      ensures tree == t && Snap() == Snapshot({}, {}, [], [], [])
    {
      tree := t;
      visited, path, problems, visits, done := {}, {}, [], [], [];
    }

    /** Visits m and, depth first, everything not yet visited that its calls reach. */
    method Walk(m: ModuleDir)
      requires Snap().Valid(tree) && m.dir !in visited
      requires forall p :: p in path ==> Reaches(tree, p, m.dir)
      modifies this
      ensures Snap().Valid(tree) && Walked(tree, old(Snap()), Snap(), m)
      decreases |tree.calls.Keys - visited|, 1
    {
      ghost var before := Snap();
      EnterKeepsValid(tree, before, m);
      visited, path := visited + {m.dir}, path + {m.dir};
      var calls := CallsOf(tree, m.dir);
      visits := visits + [m];
      ghost var entered := Snap();
      assert entered == before.Enter(m);
      ReachesSelf(tree, m.dir);
      for n := 0 to |calls|
        invariant Snap().Valid(tree) && Followed(tree, m, entered, Snap(), n)
      {
        assert m.dir in tree.calls;
        FewerLeft(tree, before.visited, visited, m.dir);
        ghost var here := Snap();
        Follow(m, calls[n]);
        OneMoreFollowed(tree, m, entered, here, Snap(), n);
      }
      ghost var last := Snap();
      LeaveKeepsValid(tree, last, m.dir);
      path := path - {m.dir};
      done := done + [m.dir];
      assert Snap() == last.Leave(m.dir);
      AllFollowed(tree, m, before, last);
    }

    /** One call of m: refused when its target is on the path, walked when new. */
    method Follow(m: ModuleDir, c: Call)
      requires Snap().Valid(tree) && m in visits && m.dir in path && c in CallsOf(tree, m.dir)
      requires forall p :: p in path ==> Reaches(tree, p, m.dir)
      modifies this
      ensures Snap().Valid(tree) && FollowedOne(tree, m, old(Snap()), Snap(), c)
      decreases |tree.calls.Keys - visited|, 2
    {
      var call := Keyed(m, c);
      assert Edge(tree, m.dir, c.target);
      ghost var here := Snap();
      if call.dir in path {
        var cycle := Cycle(m.key, m.dir, c.text, call.dir);
        assert NamesCall(tree, visits, cycle) by {
          ghost var k :| 0 <= k < |CallsOf(tree, m.dir)| && CallsOf(tree, m.dir)[k] == c;
          assert CallsOf(tree, m.dir)[k].text == cycle.text;
        }
        RefuseKeepsValid(tree, here, cycle);
        problems := problems + [cycle];
        assert Snap() == here.Refuse(cycle);
      } else if call.dir !in visited {
        PathReaches(tree, path, m.dir, call.dir);
        Walk(call);
        WalkFollows(tree, m, c, here, Snap());
      } else {
        assert here.DoneOrOnPath();
      }
    }

    /** Walks every start not yet visited, each with a path of its own. */
    method WalkAll(starts: seq<ModuleDir>)
      requires Snap() == Snapshot({}, {}, [], [], [])
      modifies this
      ensures Snap().Valid(tree) && path == {} && AllWalked(tree, starts, |starts|, Snap())
    {
      for n := 0 to |starts|
        invariant Snap().Valid(tree) && path == {} && AllWalked(tree, starts, n, Snap())
      {
        if starts[n].dir !in visited {
          ghost var here := Snap();
          Walk(starts[n]);
          OneMoreWalked(tree, starts, n, here, Snap());
        }
      }
    }
  }

  lemma PathReaches(t: Tree, path: set<Dir>, u: Dir, v: Dir)
    requires Edge(t, u, v) && forall p :: p in path ==> Reaches(t, p, u)
    ensures forall p :: p in path ==> Reaches(t, p, v)
  {
    forall p | p in path ensures Reaches(t, p, v) {
      ReachesStep(t, p, u, v);
    }
  }

  /** A directory with calls leaves the unvisited ones once it is entered. */
  lemma FewerLeft(t: Tree, before: set<Dir>, now: set<Dir>, dir: Dir)
    requires dir in t.calls && dir !in before && before + {dir} <= now
    ensures |t.calls.Keys - now| < |t.calls.Keys - before|
  {
    var left, was := t.calls.Keys - now, t.calls.Keys - before;
    assert left <= was - {dir};
    assert |left| <= |was - {dir}| by {
      SubsetIsNoLarger(left, was - {dir});
    }
  }

  lemma SubsetIsNoLarger(a: set<Dir>, b: set<Dir>)
    requires a <= b
    ensures |a| <= |b|
  {
    assert b == a + (b - a);
  }

  lemma FirstCalledFrom(t: Tree, m: ModuleDir, c: Call, v: seq<ModuleDir>, v': seq<ModuleDir>)
    requires m in v && c in CallsOf(t, m.dir) && v <= v' && |v| < |v'| && v'[|v|] == Keyed(m, c)
    ensures CalledFrom(t, v', |v|)
  {
    var j :| 0 <= j < |v| && v[j] == m;
    var k :| 0 <= k < |CallsOf(t, m.dir)| && CallsOf(t, m.dir)[k] == c;
    assert v'[j] == m;
    assert v'[|v|] == Keyed(v'[j], CallsOf(t, v'[j].dir)[k]);
  }

  lemma WalkFollows(t: Tree, m: ModuleDir, c: Call, s: Snapshot, s': Snapshot)
    requires m in s.visits && c in CallsOf(t, m.dir) && Walked(t, s, s', Keyed(m, c))
    ensures FollowedOne(t, m, s, s', c)
  {
    assert Edge(t, m.dir, c.target);
    FirstCalledFrom(t, m, c, s.visits, s'.visits);
    assert AllCalledFrom(t, s'.visits, |s.visits|) by {
      forall i | |s.visits| <= i < |s'.visits| ensures CalledFrom(t, s'.visits, i) {
        if i > |s.visits| {
          assert AllCalledFrom(t, s'.visits, |s.visits| + 1);
        }
      }
    }
    ReachesSelf(t, m.dir);
    ReachesStep(t, m.dir, m.dir, c.target);
    forall d | d in s'.visited - s.visited ensures Reaches(t, m.dir, d) {
      ReachesTrans(t, m.dir, c.target, d);
    }
  }

  ghost predicate StartOrCalled(t: Tree, starts: seq<ModuleDir>, visits: seq<ModuleDir>, i: nat)
    requires i < |visits|
  {
    visits[i] in starts || CalledFrom(t, visits, i)
  }

  /** Each visit is a start's, or carries the key of a call of an earlier one. */
  ghost predicate Chained(t: Tree, starts: seq<ModuleDir>, visits: seq<ModuleDir>) {
    forall i :: 0 <= i < |visits| ==> StartOrCalled(t, starts, visits, i)
  }

  lemma OneMoreChained(t: Tree, starts: seq<ModuleDir>, n: nat, v: seq<ModuleDir>, v': seq<ModuleDir>)
    requires n < |starts| && v <= v' && |v| < |v'| && v'[|v|] == starts[n]
    requires Chained(t, starts, v) && AllCalledFrom(t, v', |v| + 1)
    ensures Chained(t, starts, v')
  {
    forall i | 0 <= i < |v'| ensures StartOrCalled(t, starts, v', i) {
      if i < |v| {
        assert StartOrCalled(t, starts, v, i);
        if CalledFrom(t, v, i) {
          CalledFromGrows(t, v, v', i);
        }
      } else if i > |v| {
        assert CalledFrom(t, v', i);
      }
    }
  }

  /** What the first n starts have contributed. */
  ghost predicate AllWalked(t: Tree, starts: seq<ModuleDir>, n: nat, s: Snapshot)
    requires n <= |starts|
  {
    && (forall i :: 0 <= i < n ==> starts[i].dir in s.visited)
    && (forall d :: d in s.visited ==> ReachedFrom(t, starts, d))
    && Chained(t, starts, s.visits)
    && (n == 0 ==> s.visits == [] && s.visited == {})
    && (n > 0 ==> s.visits != [] && s.visits[0] == starts[0])
    && (n == 1 ==> AllCalledFrom(t, s.visits, 1))
  }

  lemma OneMoreWalked(t: Tree, starts: seq<ModuleDir>, n: nat, s: Snapshot, s': Snapshot)
    requires n < |starts| && AllWalked(t, starts, n, s) && Walked(t, s, s', starts[n])
    requires s'.Valid(t)
    ensures AllWalked(t, starts, n + 1, s')
  {
    assert s'.visits[..|s.visits|] == s.visits;
    OneMoreChained(t, starts, n, s.visits, s'.visits);
    forall d | d in s'.visited ensures ReachedFrom(t, starts, d) {
      if d !in s.visited {
        assert Reaches(t, starts[n].dir, d);
      }
    }
  }

  ghost predicate VisitsExactly(t: Tree, starts: seq<ModuleDir>, visits: seq<ModuleDir>) {
    && (forall i, j :: 0 <= i < j < |visits| ==> visits[i].dir != visits[j].dir)
    && (forall d :: (exists i :: 0 <= i < |visits| && visits[i].dir == d) <==> ReachedFrom(t, starts, d))
  }

  /** Once every start is walked, what was visited is what is reached. */
  lemma VisitedIsReached(t: Tree, starts: seq<ModuleDir>, w: Snapshot, d: Dir)
    requires w.Valid(t) && w.path == {}
    requires forall i :: 0 <= i < |starts| ==> starts[i].dir in w.visited
    requires ReachedFrom(t, starts, d)
    ensures d in w.visited
  {
    var i :| 0 <= i < |starts| && Reaches(t, starts[i].dir, d);
    var p :| IsPath(t, p) && p[0] == starts[i].dir && p[|p| - 1] == d;
    forall u, v | u in w.visited && Edge(t, u, v) ensures v in w.visited {
      assert u in w.done;
    }
    ClosedUnderReach(t, w.visited, p);
  }

  lemma WalkedVisitsExactly(t: Tree, starts: seq<ModuleDir>, w: Snapshot)
    requires w.Valid(t) && w.path == {} && AllWalked(t, starts, |starts|, w)
    ensures VisitsExactly(t, starts, w.visits)
  {
    forall d ensures (exists i :: 0 <= i < |w.visits| && w.visits[i].dir == d) <==> ReachedFrom(t, starts, d) {
      if ReachedFrom(t, starts, d) {
        VisitedIsReached(t, starts, w, d);
      }
    }
  }

  lemma NothingRefused(t: Tree, w: Snapshot)
    requires w.Valid(t) && w.problems == []
    ensures CallsGoBack(t, w.done) && NoDuplicates(w.done)
  {
  }

  lemma NoCallBack(t: Tree, done: seq<Dir>, u: Dir, v: Dir)
    requires CallsGoBack(t, done) && NoDuplicates(done) && u in done
    ensures !(Edge(t, u, v) && Reaches(t, v, u))
  {
    if Edge(t, u, v) && Reaches(t, v, u) {
      var k :| 0 <= k < |done| && done[k] == u;
      var q :| IsPath(t, q) && q[0] == v && q[|q| - 1] == u;
      var p := [u] + q;
      forall i | 0 <= i < |p| - 1 ensures Edge(t, p[i], p[i + 1]) {
        if i > 0 {
          assert Edge(t, q[i - 1], q[i]);
        }
      }
      PathDescends(t, done, p, k);
      assert false;
    }
  }

  /** A finished walk that refused nothing met no cycle. */
  lemma NoProblemNoCycle(t: Tree, starts: seq<ModuleDir>, w: Snapshot)
    requires w.Valid(t) && w.path == {} && w.problems == []
    requires forall i :: 0 <= i < |starts| ==> starts[i].dir in w.visited
    ensures !CycleReached(t, starts)
  {
    NothingRefused(t, w);
    forall u, v | ReachedFrom(t, starts, u) ensures !(Edge(t, u, v) && Reaches(t, v, u)) {
      VisitedIsReached(t, starts, w, u);
      NoCallBack(t, w.done, u, v);
    }
  }

  /** Each refusal names a call, made from a reached directory, whose target
      reaches its caller: a call on a cycle. */
  ghost predicate RefusalsAreCycles(t: Tree, starts: seq<ModuleDir>, visits: seq<ModuleDir>, problems: seq<Cycle>) {
    forall i :: 0 <= i < |problems| ==>
      && ReachedFrom(t, starts, problems[i].caller)
      && NamesCall(t, visits, problems[i])
      && Reaches(t, problems[i].target, problems[i].caller)
  }

  lemma RefusalsReached(t: Tree, starts: seq<ModuleDir>, w: Snapshot)
    requires w.ProblemsAreCycles(t)
    requires forall d :: d in w.visited ==> ReachedFrom(t, starts, d)
    ensures RefusalsAreCycles(t, starts, w.visits, w.problems)
  {
  }

  lemma ProblemMeansCycle(t: Tree, starts: seq<ModuleDir>, visits: seq<ModuleDir>, problems: seq<Cycle>)
    requires RefusalsAreCycles(t, starts, visits, problems) && problems != []
    ensures CycleReached(t, starts)
  {
    NamedCallIsEdge(t, visits, problems[0]);
  }

  /** The walk terminates on every tree, cyclic or not. It visits each
      directory the starts reach once and no other, and refuses exactly when a
      cycle is reached. */
  method RehearsalWalk(t: Tree, starts: seq<ModuleDir>) returns (problems: seq<Cycle>, visits: seq<ModuleDir>)
    ensures problems != [] <==> CycleReached(t, starts)
    ensures RefusalsAreCycles(t, starts, visits, problems)
    ensures VisitsExactly(t, starts, visits) && Chained(t, starts, visits)
    ensures starts != [] ==> visits != [] && visits[0] == starts[0]
    ensures |starts| == 1 ==> AllCalledFrom(t, visits, 1)
  {
    var w := new Walker(t);
    w.WalkAll(starts);
    problems, visits := w.problems, w.visits;
    WalkedVisitsExactly(t, starts, w.Snap());
    RefusalsReached(t, starts, w.Snap());
    if problems == [] {
      NoProblemNoCycle(t, starts, w.Snap());
    } else {
      ProblemMeansCycle(t, starts, visits, problems);
    }
  }

  /** What prepare copies: every module directory the root's blocks reach,
      each once and never the root, or a refusal. */
  datatype Sources = Refused | Listed(dirs: seq<Dir>)

  method LocalModuleSources(t: Tree, root: Dir) returns (r: Sources)
    ensures r.Refused? <==>
        CycleReached(t, [ModuleDir("", root, Start)])
        || exists d :: d in t.faulty && Reaches(t, root, d)
    ensures r.Listed? ==> NoDuplicates(r.dirs)
    ensures r.Listed? ==> forall d :: d in r.dirs <==> d != root && Reaches(t, root, d)
  {
    var starts := [ModuleDir("", root, Start)];
    var problems, visits := RehearsalWalk(t, starts);
    var dirs: seq<Dir>, faults := [], 0;
    for n := 0 to |visits|
      invariant |dirs| == if n == 0 then 0 else n - 1
      invariant forall i :: 0 <= i < |dirs| ==> dirs[i] == visits[i + 1].dir
      invariant faults > 0 <==> exists i :: 0 <= i < n && visits[i].dir in t.faulty
      invariant faults >= 0
    {
      assert n > 0 ==> CalledFrom(t, visits, n);
      if visits[n].origin.Called? {
        dirs := dirs + [visits[n].dir];
      }
      if visits[n].dir in t.faulty {
        faults := faults + 1;
      }
    }
    forall d ensures ReachedFrom(t, starts, d) <==> Reaches(t, root, d) {
      assert starts[0].dir == root;
    }
    if problems != [] || faults > 0 {
      r := Refused;
    } else {
      forall d | d != root && Reaches(t, root, d) ensures d in dirs {
        var i :| 0 <= i < |visits| && visits[i].dir == d;
        assert dirs[i - 1] == d;
      }
      r := Listed(dirs);
    }
  }

  /** Every directory prepare would copy is one the gate visits, whatever
      further start directories the manifest adds, and the root is too. */
  method GateVisits(t: Tree, root: Dir, manifest: seq<ModuleDir>) returns (problems: seq<Cycle>, gated: seq<ModuleDir>)
    ensures VisitsExactly(t, [ModuleDir("", root, Start)] + manifest, gated)
    ensures forall d :: Reaches(t, root, d) ==> exists i :: 0 <= i < |gated| && gated[i].dir == d
    ensures CycleReached(t, [ModuleDir("", root, Start)]) ==> problems != []
  {
    var starts := [ModuleDir("", root, Start)] + manifest;
    problems, gated := RehearsalWalk(t, starts);
    forall d | Reaches(t, root, d) ensures ReachedFrom(t, starts, d) {
      assert starts[0].dir == root;
    }
    MoreStartsReachMore(t, [ModuleDir("", root, Start)], manifest);
  }

  lemma MoreStartsReachMore(t: Tree, starts: seq<ModuleDir>, more: seq<ModuleDir>)
    ensures forall d :: ReachedFrom(t, starts, d) ==> ReachedFrom(t, starts + more, d)
    ensures CycleReached(t, starts) ==> CycleReached(t, starts + more)
  {
    forall d | ReachedFrom(t, starts, d) ensures ReachedFrom(t, starts + more, d) {
      var i :| 0 <= i < |starts| && Reaches(t, starts[i].dir, d);
      assert (starts + more)[i] == starts[i];
    }
  }
}
