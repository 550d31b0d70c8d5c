/** Merging a sweep's pitfalls into the corpus it started from. */
module PitfallMerge {
  import opened Wrappers

  datatype Entry = Entry(
    resource: string, rule: string, source: string, observedKey: string,
    lastSeen: string, discoveredFrom: string)

  const LIVE := "live"
  const NUL: char := '\0'

  /** RFC 3339 parsing; None is a text that does not parse. */
  type Clock = string -> Option<int>

  /** newerLastSeen: an unreadable candidate never wins, and an unreadable
      current value always loses to a readable one. */
  predicate Newer(clock: Clock, current: string, candidate: string) {
    clock(candidate).Some? && (clock(current).None? || clock(current).value < clock(candidate).value)
  }

  function Identity(p: Entry): string {
    if p.source == LIVE && p.observedKey != "" then p.observedKey else p.rule
  }

  /** mergeKey: live entries carry their source, and are known by their observed key. */
  function MergeKey(p: Entry): string {
    if p.source != LIVE then p.resource + [NUL] + p.rule
    else p.resource + [NUL] + Identity(p) + [NUL] + LIVE
  }

  datatype State = State(
    out: seq<Entry>, idx: map<string, nat>, added: nat, refreshed: nat, bySource: map<string, nat>)

  function Refresh(was: Entry, p: Entry): Entry {
    if p.source == LIVE then was.(lastSeen := p.lastSeen, rule := p.rule, discoveredFrom := p.discoveredFrom)
    else was.(lastSeen := p.lastSeen)
  }

  /** The entry a kept post entry would refresh, if it is newer and of its source. */
  predicate Refreshes(clock: Clock, was: Entry, p: Entry) {
    was.source == p.source && Newer(clock, was.lastSeen, p.lastSeen)
  }

  predicate InRange(st: State) {
    forall k :: k in st.idx ==> st.idx[k] < |st.out|
  }

  /** One post entry merged. */
  function Step(clock: Clock, keep: set<string>, st: State, p: Entry): (st': State)
    requires InRange(st)
    ensures InRange(st')
  {
    var k := MergeKey(p);
    if p.source !in keep then st
    else if k in st.idx then
      var i := st.idx[k];
      if Refreshes(clock, st.out[i], p)
      then st.(out := st.out[i := Refresh(st.out[i], p)], refreshed := st.refreshed + 1)
      else st
    else
      var n := if p.source in st.bySource then st.bySource[p.source] else 0;
      State(st.out + [p], st.idx[k := |st.out|], st.added + 1, st.refreshed, st.bySource[p.source := n + 1])
  }

  function Steps(clock: Clock, keep: set<string>, st: State, post: seq<Entry>): (st': State)
    requires InRange(st)
    ensures InRange(st')
    decreases |post|
  {
    if post == [] then st
    else Step(clock, keep, Steps(clock, keep, st, post[..|post| - 1]), post[|post| - 1])
  }

  /** A corpus's index: the last entry with each key. */
  function IndexOf(out: seq<Entry>): (idx: map<string, nat>)
    ensures forall k :: k in idx ==> idx[k] < |out|
  {
    if out == [] then map[] else IndexOf(out[..|out| - 1])[MergeKey(out[|out| - 1]) := |out| - 1]
  }

  /** Each key of the index is its entry's, and no later entry's. */
  ghost predicate Indexes(idx: map<string, nat>, out: seq<Entry>) {
    && (forall k :: k in idx ==> idx[k] < |out| && MergeKey(out[idx[k]]) == k)
    && (forall i :: 0 <= i < |out| ==> MergeKey(out[i]) in idx && i <= idx[MergeKey(out[i])])
  }

  lemma {:induction false} IndexOfIndexes(out: seq<Entry>)
    ensures Indexes(IndexOf(out), out)
    decreases |out|
  {
    if out != [] {
      var init, e := out[..|out| - 1], out[|out| - 1];
      IndexOfIndexes(init);
      IndexMore(IndexOf(init), init, e);
      assert out == init + [e];
    }
  }

  lemma IndexMore(idx: map<string, nat>, out: seq<Entry>, e: Entry)
    requires Indexes(idx, out)
    ensures Indexes(idx[MergeKey(e) := |out|], out + [e])
  {
    var key := MergeKey(e);
    assert forall i :: 0 <= i < |out| ==> (out + [e])[i] == out[i];
  }

  lemma IndexSame(idx: map<string, nat>, out: seq<Entry>, i: nat, e: Entry)
    requires Indexes(idx, out) && i < |out| && MergeKey(e) == MergeKey(out[i])
    ensures Indexes(idx, out[i := e])
  {
    var key := MergeKey(e);
    assert forall j :: 0 <= j < |out| ==> MergeKey(out[i := e][j]) == MergeKey(out[j]);
  }

  function Initial(pre: seq<Entry>): State {
    State(pre, IndexOf(pre), 0, 0, map[])
  }

  function Merged(clock: Clock, keep: set<string>, pre: seq<Entry>, post: seq<Entry>): State {
    Steps(clock, keep, Initial(pre), post)
  }

  /** How many entries of a source. */
  function CountSource(es: seq<Entry>, source: string): nat {
    if es == [] then 0
    else CountSource(es[..|es| - 1], source) + if es[|es| - 1].source == source then 1 else 0
  }

  method BuildIndex(pre: seq<Entry>) returns (idx: map<string, nat>)
    ensures idx == IndexOf(pre)
  {
    idx := map[];
    for i := 0 to |pre|
      invariant idx == IndexOf(pre[..i])
    {
      assert pre[..i + 1][..i] == pre[..i];
      idx := idx[MergeKey(pre[i]) := i];
    }
    assert pre[..|pre|] == pre;
  }

  /** One turn of the merge loop. */
  method MergeOne(clock: Clock, keep: set<string>, st: State, p: Entry) returns (st': State)
    requires InRange(st)
    ensures st' == Step(clock, keep, st, p)
  {
    st' := st;
    if p.source !in keep {
      return;
    }
    var k := MergeKey(p);
    if k in st.idx {
      var i := st.idx[k];
      if st.out[i].source == p.source && Newer(clock, st.out[i].lastSeen, p.lastSeen) {
        var e := st.out[i].(lastSeen := p.lastSeen);
        if p.source == LIVE {
          e := e.(rule := p.rule, discoveredFrom := p.discoveredFrom);
        }
        st' := st.(out := st.out[i := e], refreshed := st.refreshed + 1);
      }
      return;
    }
    var n := if p.source in st.bySource then st.bySource[p.source] else 0;
    st' := st.(out := st.out + [p], idx := st.idx[k := |st.out|], added := st.added + 1,
               bySource := st.bySource[p.source := n + 1]);
  }

  /** merge: the index of pre, then every post entry in turn. */
  method Merge(clock: Clock, keep: set<string>, pre: seq<Entry>, post: seq<Entry>)
    returns (out: seq<Entry>, added: nat, refreshed: nat, bySource: map<string, nat>)
    ensures var st := Merged(clock, keep, pre, post);
            (out, added, refreshed, bySource) == (st.out, st.added, st.refreshed, st.bySource)
  {
    var idx := BuildIndex(pre);
    var st := State(pre, idx, 0, 0, map[]);
    for n := 0 to |post|
      invariant InRange(st) && st == Merged(clock, keep, pre, post[..n])
    {
      assert post[..n + 1][..n] == post[..n];
      st := MergeOne(clock, keep, st, post[n]);
    }
    assert post[..|post|] == post;
    out, added, refreshed, bySource := st.out, st.added, st.refreshed, st.bySource;
  }

  // ----- What a merge keeps -----

  /** An entry after a merge: itself, or refreshed by something newer. */
  predicate Descends(clock: Clock, was: Entry, now: Entry) {
    && now.resource == was.resource && now.source == was.source && now.observedKey == was.observedKey
    && (now.lastSeen == was.lastSeen || Newer(clock, was.lastSeen, now.lastSeen))
    && (now.source != LIVE || now.lastSeen == was.lastSeen ==>
        now.rule == was.rule && now.discoveredFrom == was.discoveredFrom)
  }

  ghost predicate Conserved(clock: Clock, keep: set<string>, pre: seq<Entry>, st: State) {
    && |pre| <= |st.out| && st.added == |st.out| - |pre|
    && (forall i :: 0 <= i < |pre| ==> Descends(clock, pre[i], st.out[i]))
    && (forall i :: |pre| <= i < |st.out| ==> st.out[i].source in keep)
    && (forall s :: (if s in st.bySource then st.bySource[s] else 0) == CountSource(st.out[|pre|..], s))
  }

  lemma {:induction false} CountSourceUpdate(es: seq<Entry>, i: nat, e: Entry, s: string)
    requires i < |es| && e.source == es[i].source
    ensures CountSource(es[i := e], s) == CountSource(es, s)
    decreases |es|
  {
    var last := |es| - 1;
    if i < last {
      assert es[i := e][..last] == es[..last][i := e];
      CountSourceUpdate(es[..last], i, e, s);
    } else {
      assert es[i := e][..last] == es[..last];
    }
  }

  lemma NewerTrans(clock: Clock, a: string, b: string, c: string)
    requires a == b || Newer(clock, a, b)
    requires Newer(clock, b, c)
    ensures Newer(clock, a, c)
  {
  }

  lemma {:induction false} RefreshConserves(clock: Clock, keep: set<string>, pre: seq<Entry>, st: State, i: nat, p: Entry)
    requires i < |st.out| && Conserved(clock, keep, pre, st) && Refreshes(clock, st.out[i], p)
    ensures Conserved(clock, keep, pre, st.(out := st.out[i := Refresh(st.out[i], p)], refreshed := st.refreshed + 1))
  {
    var e := Refresh(st.out[i], p);
    var out := st.out[i := e];
    if i >= |pre| {
      assert out[|pre|..] == st.out[|pre|..][i - |pre| := e];
      forall s ensures CountSource(out[|pre|..], s) == CountSource(st.out[|pre|..], s) {
        CountSourceUpdate(st.out[|pre|..], i - |pre|, e, s);
      }
    } else {
      NewerTrans(clock, pre[i].lastSeen, st.out[i].lastSeen, p.lastSeen);
      assert Descends(clock, pre[i], e);
      assert out[|pre|..] == st.out[|pre|..];
    }
  }

  lemma {:induction false} AppendConserves(clock: Clock, keep: set<string>, pre: seq<Entry>, st: State, st': State, p: Entry)
    requires Conserved(clock, keep, pre, st) && p.source in keep
    requires st'.out == st.out + [p] && st'.added == st.added + 1
    requires st'.bySource == st.bySource[p.source := (if p.source in st.bySource then st.bySource[p.source] else 0) + 1]
    ensures Conserved(clock, keep, pre, st')
  {
    assert st'.out[|pre|..] == st.out[|pre|..] + [p];
    assert st'.out[|pre|..][..|st.out| - |pre|] == st.out[|pre|..];
    forall i | 0 <= i < |pre| ensures Descends(clock, pre[i], st'.out[i]) {
      assert st'.out[i] == st.out[i];
    }
  }

  lemma {:induction false} StepConserves(clock: Clock, keep: set<string>, pre: seq<Entry>, st: State, p: Entry)
    requires InRange(st) && Conserved(clock, keep, pre, st)
    ensures Conserved(clock, keep, pre, Step(clock, keep, st, p))
  {
    var k := MergeKey(p);
    if p.source in keep {
      if k !in st.idx {
        AppendConserves(clock, keep, pre, st, Step(clock, keep, st, p), p);
      } else if Refreshes(clock, st.out[st.idx[k]], p) {
        RefreshConserves(clock, keep, pre, st, st.idx[k], p);
      }
    }
  }

  /** Nothing of pre is lost or reordered, last_seen never goes back, and the
      counts are exactly what was appended, in all and by source. */
  lemma {:induction false} MergeConserves(clock: Clock, keep: set<string>, pre: seq<Entry>, post: seq<Entry>)
    ensures Conserved(clock, keep, pre, Merged(clock, keep, pre, post))
    decreases |post|
  {
    if post == [] {
      assert pre[|pre|..] == [];
    } else {
      MergeConserves(clock, keep, pre, post[..|post| - 1]);
      StepConserves(clock, keep, pre, Merged(clock, keep, pre, post[..|post| - 1]), post[|post| - 1]);
    }
  }

  // ----- Idempotence -----

  /** Refreshing q from p leaves q's key alone. */
  predicate Aligned(q: Entry, p: Entry) {
    q.source == LIVE && p.source == LIVE && q.observedKey == "" && MergeKey(q) == MergeKey(p) ==> q.rule == p.rule
  }

  /** Merging p, whenever it comes, cannot re-key q: it leaves q's key alone, or
      is not newer than q and so never refreshes it. */
  predicate Harmless(clock: Clock, keep: set<string>, q: Entry, p: Entry) {
    p.source in keep ==> Aligned(q, p) || !Newer(clock, q.lastSeen, p.lastSeen)
  }

  /** No kept post entry is newer than a keyless live entry whose rule it would replace. */
  ghost predicate KeysStable(clock: Clock, keep: set<string>, es: seq<Entry>, post: seq<Entry>) {
    forall q, p :: q in es && p in post ==> Harmless(clock, keep, q, p)
  }

  /** Merging p refreshes an entry and leaves it under another key than p's. */
  predicate Rekeys(clock: Clock, keep: set<string>, st: State, p: Entry)
    requires InRange(st)
  {
    && p.source in keep && MergeKey(p) in st.idx
    && var q := st.out[st.idx[MergeKey(p)]];
       Refreshes(clock, q, p) && MergeKey(Refresh(q, p)) != MergeKey(p)
  }

  predicate NeverRekeys(clock: Clock, keep: set<string>, st: State, post: seq<Entry>)
    requires InRange(st)
    decreases |post|
  {
    post == [] ||
    (var init := post[..|post| - 1];
     NeverRekeys(clock, keep, st, init) && !Rekeys(clock, keep, Steps(clock, keep, st, init), post[|post| - 1]))
  }

  /** Every entry is still under its own key. */
  ghost predicate Indexed(st: State) {
    Indexes(st.idx, st.out)
  }

  /** A kept post entry has nothing left to give. */
  predicate Settled(clock: Clock, keep: set<string>, st: State, p: Entry)
    requires InRange(st)
  {
    p.source in keep ==> MergeKey(p) in st.idx && !Refreshes(clock, st.out[st.idx[MergeKey(p)]], p)
  }

  lemma {:induction false} StepIndexed(clock: Clock, keep: set<string>, st: State, p: Entry)
    requires Indexed(st) && !Rekeys(clock, keep, st, p)
    ensures Indexed(Step(clock, keep, st, p))
  {
    var k := MergeKey(p);
    if p.source in keep && k !in st.idx {
      IndexMore(st.idx, st.out, p);
    } else if p.source in keep && Refreshes(clock, st.out[st.idx[k]], p) {
      IndexSame(st.idx, st.out, st.idx[k], Refresh(st.out[st.idx[k]], p));
    }
  }

  lemma {:induction false} StepSettles(clock: Clock, keep: set<string>, st: State, p: Entry, q: Entry)
    requires InRange(st)
    ensures Settled(clock, keep, Step(clock, keep, st, p), p)
    ensures Settled(clock, keep, st, q) ==> Settled(clock, keep, Step(clock, keep, st, p), q)
  {
    var k := MergeKey(p);
    if p.source in keep && k in st.idx && Refreshes(clock, st.out[st.idx[k]], p) {
      var i := st.idx[k];
      if Newer(clock, p.lastSeen, q.lastSeen) {
        NewerTrans(clock, st.out[i].lastSeen, p.lastSeen, q.lastSeen);
      }
    }
  }

  lemma {:induction false} StepsIndexed(clock: Clock, keep: set<string>, st: State, post: seq<Entry>)
    requires Indexed(st) && NeverRekeys(clock, keep, st, post)
    ensures Indexed(Steps(clock, keep, st, post))
    decreases |post|
  {
    if post != [] {
      StepsIndexed(clock, keep, st, post[..|post| - 1]);
      StepIndexed(clock, keep, Steps(clock, keep, st, post[..|post| - 1]), post[|post| - 1]);
    }
  }

  /** After a merge every kept post entry is settled where the merge's own index
      has it, re-keyed or not. */
  lemma {:induction false} StepsSettle(clock: Clock, keep: set<string>, st: State, post: seq<Entry>)
    requires InRange(st)
    ensures forall i :: 0 <= i < |post| ==> Settled(clock, keep, Steps(clock, keep, st, post), post[i])
    decreases |post|
  {
    if post != [] {
      var init, p := post[..|post| - 1], post[|post| - 1];
      StepsSettle(clock, keep, st, init);
      forall i | 0 <= i < |post| ensures Settled(clock, keep, Steps(clock, keep, st, post), post[i]) {
        StepSettles(clock, keep, Steps(clock, keep, st, init), p, post[i]);
        if i < |init| {
          assert Settled(clock, keep, Steps(clock, keep, st, init), init[i]);
        }
      }
    }
  }

  // ----- What a merge takes over -----

  /** e was seen no earlier than p, by the clock; where p's time cannot be read, this asks nothing. */
  predicate SeenBy(clock: Clock, e: Entry, p: Entry) {
    clock(p.lastSeen).Some? ==> clock(e.lastSeen).Some? && clock(p.lastSeen).value <= clock(e.lastSeen).value
  }

  /** After a merge every kept post entry is under an entry which, where it has
      the post entry's source, was last seen no earlier than the post entry. */
  lemma MergeReaches(clock: Clock, keep: set<string>, pre: seq<Entry>, post: seq<Entry>, i: nat)
    requires i < |post| && post[i].source in keep
    ensures var st := Merged(clock, keep, pre, post);
            var k := MergeKey(post[i]);
            && k in st.idx && st.idx[k] < |st.out|
            && (st.out[st.idx[k]].source == post[i].source ==> SeenBy(clock, st.out[st.idx[k]], post[i]))
  {
    StepsSettle(clock, keep, Initial(pre), post);
    assert Settled(clock, keep, Merged(clock, keep, pre, post), post[i]);
  }

  /** Where e has its time from, and, where it is live, its wording and evidence with it. */
  predicate TellsAs(e: Entry, origin: Entry) {
    && e.source == origin.source && e.lastSeen == origin.lastSeen
    && (e.source == LIVE ==> e.rule == origin.rule && e.discoveredFrom == origin.discoveredFrom)
  }

  ghost predicate Told(e: Entry, origins: seq<Entry>) {
    exists origin :: origin in origins && TellsAs(e, origin)
  }

  lemma ToldByMore(e: Entry, some: seq<Entry>, more: seq<Entry>)
    requires Told(e, some) && forall o :: o in some ==> o in more
    ensures Told(e, more)
  {
    var o :| o in some && TellsAs(e, o);
    assert o in more;
  }

  /** Every entry of a merge has its time, and a live one its wording and
      evidence with it, from one entry that was merged. */
  lemma {:induction false} MergeTellsAsOne(clock: Clock, keep: set<string>, pre: seq<Entry>, post: seq<Entry>)
    ensures forall j :: 0 <= j < |Merged(clock, keep, pre, post).out| ==> Told(Merged(clock, keep, pre, post).out[j], pre + post)
    decreases |post|
  {
    var out := Merged(clock, keep, pre, post).out;
    if post == [] {
      forall j | 0 <= j < |pre| ensures Told(pre[j], pre + post) {
        assert pre[j] in pre + post && TellsAs(pre[j], pre[j]);
      }
    } else {
      var init, p := post[..|post| - 1], post[|post| - 1];
      var before := Merged(clock, keep, pre, init).out;
      MergeTellsAsOne(clock, keep, pre, init);
      assert p in pre + post;
      forall j | 0 <= j < |out| ensures Told(out[j], pre + post) {
        if j < |before| && out[j] == before[j] {
          ToldByMore(out[j], pre + init, pre + post);
        } else {
          assert TellsAs(out[j], p);
        }
      }
    }
  }

  lemma {:induction false} SettledIsStill(clock: Clock, keep: set<string>, st: State, post: seq<Entry>)
    requires InRange(st) && forall i :: 0 <= i < |post| ==> Settled(clock, keep, st, post[i])
    ensures Steps(clock, keep, st, post) == st
    decreases |post|
  {
    if post != [] {
      SettledIsStill(clock, keep, st, post[..|post| - 1]);
      assert Settled(clock, keep, st, post[|post| - 1]);
    }
  }

  /** A merge that counts nothing did nothing, and had nothing to do. */
  lemma {:induction false} CountsTell(clock: Clock, keep: set<string>, st: State, post: seq<Entry>)
    requires InRange(st)
    ensures var end := Steps(clock, keep, st, post);
            && end.added >= st.added && end.refreshed >= st.refreshed
            && (end.added == st.added && end.refreshed == st.refreshed ==>
                  end == st && forall i :: 0 <= i < |post| ==> Settled(clock, keep, st, post[i]))
    decreases |post|
  {
    if post != [] {
      CountsTell(clock, keep, st, post[..|post| - 1]);
      assert forall i :: 0 <= i < |post| - 1 ==> post[i] == post[..|post| - 1][i];
    }
  }

  /** Exactly when a merge adds and refreshes nothing: every kept post entry is
      in the corpus by its key, under an entry it is not newer than. Asked of the
      result of a merge, this is when merging the same post again is still. */
  lemma {:induction false} StillExactlyWhen(clock: Clock, keep: set<string>, out: seq<Entry>, post: seq<Entry>)
    ensures var st := Merged(clock, keep, out, post);
            st.added == 0 && st.refreshed == 0 <==>
            forall i :: 0 <= i < |post| ==> Settled(clock, keep, Initial(out), post[i])
  {
    CountsTell(clock, keep, Initial(out), post);
    if forall i :: 0 <= i < |post| ==> Settled(clock, keep, Initial(out), post[i]) {
      SettledIsStill(clock, keep, Initial(out), post);
    }
  }

  lemma SameIndex(st: State)
    requires Indexed(st)
    ensures st.idx == IndexOf(st.out)
  {
    var idx := IndexOf(st.out);
    IndexOfIndexes(st.out);
    forall k ensures k in st.idx <==> k in idx {
      if k in st.idx {
        assert MergeKey(st.out[st.idx[k]]) in idx;
      }
      if k in idx {
        assert MergeKey(st.out[idx[k]]) in st.idx;
      }
    }
    forall k | k in idx ensures st.idx[k] == idx[k] {
      assert MergeKey(st.out[st.idx[k]]) == k && MergeKey(st.out[idx[k]]) == k;
    }
  }

  /** When no refresh of the first merge re-keys its entry, merging the result
      with the same post again adds nothing, refreshes nothing and changes nothing. */
  lemma {:induction false} MergeIsIdempotent(clock: Clock, keep: set<string>, pre: seq<Entry>, post: seq<Entry>)
    requires NeverRekeys(clock, keep, Initial(pre), post)
    ensures var out := Merged(clock, keep, pre, post).out;
            Merged(clock, keep, out, post) == State(out, IndexOf(out), 0, 0, map[])
  {
    var st := Merged(clock, keep, pre, post);
    IndexOfIndexes(pre);
    StepsIndexed(clock, keep, Initial(pre), post);
    StepsSettle(clock, keep, Initial(pre), post);
    SameIndex(st);
    var again := Initial(st.out);
    forall i | 0 <= i < |post| ensures Settled(clock, keep, again, post[i]) {
      assert Settled(clock, keep, st, post[i]);
    }
    SettledIsStill(clock, keep, again, post);
  }

  /** The entry a merge put p under is no longer the one its key finds. */
  predicate Displaced(st: State, p: Entry) {
    var k, idx := MergeKey(p), IndexOf(st.out);
    k in st.idx && (k !in idx || idx[k] != st.idx[k])
  }

  /** Merging the same post again is still exactly when every kept entry that the
      first merge displaced finds another by its key, and is not newer than it. */
  lemma {:induction false} IdempotentExactlyWhen(clock: Clock, keep: set<string>, pre: seq<Entry>, post: seq<Entry>)
    ensures var st := Merged(clock, keep, pre, post);
            var again := Merged(clock, keep, st.out, post);
            again.added == 0 && again.refreshed == 0 <==>
            forall i :: 0 <= i < |post| && Displaced(st, post[i]) ==> Settled(clock, keep, Initial(st.out), post[i])
  {
    var st := Merged(clock, keep, pre, post);
    StillExactlyWhen(clock, keep, st.out, post);
    StepsSettle(clock, keep, Initial(pre), post);
    forall i | 0 <= i < |post| && !Displaced(st, post[i]) ensures Settled(clock, keep, Initial(st.out), post[i]) {
      assert Settled(clock, keep, st, post[i]);
    }
  }

  // ----- When keys are stable -----

  predicate NulFree(s: string) {
    NUL !in s
  }

  predicate PlainText(p: Entry) {
    NulFree(p.resource) && NulFree(p.rule) && NulFree(p.observedKey)
  }

  function UpToNul(s: string): string {
    if s == "" || s[0] == NUL then "" else [s[0]] + UpToNul(s[1..])
  }

  lemma {:induction false} UpToFirstNul(a: string, b: string)
    requires NulFree(a)
    ensures UpToNul(a + [NUL] + b) == a
    decreases |a|
  {
    var s := a + [NUL] + b;
    if a == "" {
      assert s[0] == NUL;
    } else {
      assert s[0] == a[0] && s[1..] == a[1..] + [NUL] + b;
      UpToFirstNul(a[1..], b);
    }
  }

  /** A text up to its first NUL is determined by the whole, and so is the rest. */
  lemma FirstNul(a: string, b: string, c: string, d: string)
    requires NulFree(a) && NulFree(c) && a + [NUL] + b == c + [NUL] + d
    ensures a == c && b == d
  {
    UpToFirstNul(a, b);
    UpToFirstNul(c, d);
    assert b == (a + [NUL] + b)[|a| + 1..] && d == (c + [NUL] + d)[|c| + 1..];
  }

  /** What follows the resource in a key: a NUL in it marks a live entry. */
  function AfterResource(p: Entry): string {
    if p.source == LIVE then Identity(p) + [NUL] + LIVE else p.rule
  }

  lemma AfterResourceMarksLive(p: Entry)
    requires PlainText(p)
    ensures MergeKey(p) == p.resource + [NUL] + AfterResource(p)
    ensures NUL in AfterResource(p) <==> p.source == LIVE
  {
    if p.source == LIVE {
      assert AfterResource(p)[|Identity(p)|] == NUL;
    }
  }

  /** Keys tell NUL-free entries apart by resource, identity and being live. */
  lemma MergeKeyInjective(p: Entry, q: Entry)
    requires PlainText(p) && PlainText(q)
    ensures MergeKey(p) == MergeKey(q) <==>
      p.resource == q.resource && Identity(p) == Identity(q) && (p.source == LIVE <==> q.source == LIVE)
  {
    AfterResourceMarksLive(p);
    AfterResourceMarksLive(q);
    if MergeKey(p) == MergeKey(q) {
      FirstNul(p.resource, AfterResource(p), q.resource, AfterResource(q));
      if p.source == LIVE {
        FirstNul(Identity(p), LIVE, Identity(q), LIVE);
      }
    }
  }

  /** A live entry known by an observed key that is the whole rule of a keyless
      live entry of its resource, and worded differently. */
  predicate Collides(q: Entry, p: Entry) {
    && q.source == LIVE && p.source == LIVE && q.resource == p.resource
    && q.observedKey == "" && p.observedKey != "" && p.observedKey == q.rule && p.rule != q.rule
  }

  /** A refresh from an aligned entry keeps its key, and leaves harmless whatever
      was: an entry only gets newer. */
  lemma AlignedRefresh(clock: Clock, keep: set<string>, q: Entry, p: Entry)
    requires MergeKey(q) == MergeKey(p) && Aligned(q, p) && Refreshes(clock, q, p)
    ensures MergeKey(Refresh(q, p)) == MergeKey(p)
    ensures forall r :: Harmless(clock, keep, q, r) ==> Harmless(clock, keep, Refresh(q, p), r)
  {
    forall r | Harmless(clock, keep, q, r) ensures Harmless(clock, keep, Refresh(q, p), r) {
      assert Aligned(q, r) ==> Aligned(Refresh(q, p), r);
      if Newer(clock, p.lastSeen, r.lastSeen) {
        NewerTrans(clock, q.lastSeen, p.lastSeen, r.lastSeen);
      }
    }
  }

  /** Stable keys are never re-keyed: a condition on the entries themselves,
      before any merge. */
  lemma {:induction false} StableNeverRekeys(clock: Clock, keep: set<string>, st: State, done: seq<Entry>, post: seq<Entry>)
    requires Indexed(st) && KeysStable(clock, keep, st.out, post) && KeysStable(clock, keep, post, post) && done <= post
    ensures NeverRekeys(clock, keep, st, done)
    ensures Indexed(Steps(clock, keep, st, done)) && KeysStable(clock, keep, Steps(clock, keep, st, done).out, post)
    decreases |done|
  {
    if done != [] {
      var init, p := done[..|done| - 1], done[|done| - 1];
      StableNeverRekeys(clock, keep, st, init, post);
      var now := Steps(clock, keep, st, init);
      assert p == post[|done| - 1];
      if p.source in keep && MergeKey(p) in now.idx {
        var i := now.idx[MergeKey(p)];
        var q := now.out[i];
        assert Harmless(clock, keep, q, p);
        if Refreshes(clock, q, p) {
          AlignedRefresh(clock, keep, q, p);
          assert forall r :: r in now.out[i := Refresh(q, p)] ==> r == Refresh(q, p) || r in now.out;
        }
      }
      StepIndexed(clock, keep, now, p);
    }
  }

  /** On NUL-free texts, keys are stable exactly when no kept post entry collides
      with an entry it is newer than. */
  lemma StableWhen(clock: Clock, keep: set<string>, es: seq<Entry>, post: seq<Entry>)
    requires forall e :: e in es + post ==> PlainText(e)
    ensures KeysStable(clock, keep, es, post) <==>
            forall q, p :: q in es && p in post && p.source in keep ==> !(Collides(q, p) && Newer(clock, q.lastSeen, p.lastSeen))
  {
    forall q, p | q in es && p in post ensures Aligned(q, p) <==> !Collides(q, p) {
      assert q in es + post && p in es + post;
      MergeKeyInjective(q, p);
    }
    forall q, p | q in es && p in post
      ensures Harmless(clock, keep, q, p) <==> (p.source in keep ==> !(Collides(q, p) && Newer(clock, q.lastSeen, p.lastSeen)))
    {
    }
  }

  /** Without stable keys the second merge appends the entry again: the first
      refreshed it under a key that no longer names it. */
  lemma UnstableKeysAddAgain(clock: Clock)
    requires clock("1") == Some(1) && clock("2") == Some(2)
    ensures var pre, post := [Entry("r", "k", LIVE, "", "1", "")], [Entry("r", "new", LIVE, "k", "2", "")];
            var out := Merged(clock, {LIVE}, pre, post).out;
            Merged(clock, {LIVE}, out, post).added == 1
  {
    var q, p := Entry("r", "k", LIVE, "", "1", ""), Entry("r", "new", LIVE, "k", "2", "");
    var pre, post := [q], [p];
    assert MergeKey(q) == MergeKey(p);
    assert pre[..0] == [] && post[..0] == [];
    assert IndexOf(pre) == map[MergeKey(p) := 0];
    assert Steps(clock, {LIVE}, Initial(pre), []) == Initial(pre);
    var out := Merged(clock, {LIVE}, pre, post).out;
    var r := Entry("r", "new", LIVE, "", "2", "");
    assert out == [r];
    assert PlainText(r) && PlainText(p);
    MergeKeyInjective(r, p);
    assert out[..0] == [] && IndexOf(out) == map[MergeKey(r) := 0];
    assert Steps(clock, {LIVE}, Initial(out), []) == Initial(out);
  }
}
