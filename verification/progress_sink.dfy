/** The writer that turns a command's output into one event a line. */
module ProgressSinks {
  import opened Wrappers

  newtype Byte = x: int | 0 <= x < 256

  type Bytes = seq<Byte>

  const NL: Byte := 10
  const CR: Byte := 13

  // ----- What a stream's lines are -----

  datatype Parts = Parts(lines: seq<Bytes>, rest: Bytes)

  /** The stream cut after every newline. */
  ghost function Split(s: Bytes): Parts {
    if s == [] then Parts([], [])
    else
      var p, b := Split(s[..|s| - 1]), s[|s| - 1];
      if b == NL then Parts(p.lines + [p.rest], []) else Parts(p.lines, p.rest + [b])
  }

  ghost function Join(p: Parts): Bytes
    decreases |p.lines|
  {
    if p.lines == [] then p.rest
    else Join(Parts(p.lines[..|p.lines| - 1], [])) + p.lines[|p.lines| - 1] + [NL] + p.rest
  }

  predicate OneLine(s: Bytes) {
    NL !in s
  }

  lemma {:induction false} SplitJoins(s: Bytes)
    ensures Join(Split(s)) == s
    decreases |s|
  {
    if s != [] {
      var init, b := s[..|s| - 1], s[|s| - 1];
      SplitJoins(init);
      JoinGrows(Split(init).lines, Split(init).rest, [b]);
      JoinEnds(Split(init).lines, Split(init).rest);
      assert s == init + [b];
    }
  }

  lemma {:induction false} SplitLines(s: Bytes)
    ensures OneLine(Split(s).rest) && forall l :: l in Split(s).lines ==> OneLine(l)
    decreases |s|
  {
    if s != [] {
      SplitLines(s[..|s| - 1]);
    }
  }

  /** Cutting loses nothing, and leaves no newline inside a part. */
  lemma SplitIsWhole(s: Bytes)
    ensures Join(Split(s)) == s
    ensures OneLine(Split(s).rest) && forall l :: l in Split(s).lines ==> OneLine(l)
  {
    SplitJoins(s);
    SplitLines(s);
  }

  lemma JoinGrows(lines: seq<Bytes>, rest: Bytes, more: Bytes)
    ensures Join(Parts(lines, rest + more)) == Join(Parts(lines, rest)) + more
  {
    if lines != [] {
      var head := Join(Parts(lines[..|lines| - 1], [])) + lines[|lines| - 1] + [NL];
      assert head + (rest + more) == head + rest + more;
    }
  }

  lemma {:induction false} JoinEnds(lines: seq<Bytes>, rest: Bytes)
    ensures Join(Parts(lines + [rest], [])) == Join(Parts(lines, rest)) + [NL]
  {
    assert (lines + [rest])[..|lines|] == lines;
    JoinGrows(lines, [], rest);
    assert [] + rest == rest;
    var head := Join(Parts(lines, []));
    assert head + rest + [NL] + [] == head + rest + [NL];
  }

  /** The cut is the only one whose parts hold no newline. */
  lemma {:induction false} SplitIsOnly(p: Parts)
    requires OneLine(p.rest) && forall l :: l in p.lines ==> OneLine(l)
    ensures Split(Join(p)) == p
    decreases |p.lines|, |p.rest|
  {
    if p.rest != [] {
      var init, b := p.rest[..|p.rest| - 1], p.rest[|p.rest| - 1];
      SplitIsOnly(Parts(p.lines, init));
      JoinGrows(p.lines, init, [b]);
      assert p.rest == init + [b];
      SplitSnoc(Join(Parts(p.lines, init)), b);
    } else if p.lines != [] {
      var n := |p.lines| - 1;
      var lines, last := p.lines[..n], p.lines[n];
      assert p.lines == lines + [last];
      SplitIsOnly(Parts(lines, last));
      JoinEnds(lines, last);
      SplitSnoc(Join(Parts(lines, last)), NL);
    }
  }

  lemma SplitSnoc(s: Bytes, b: Byte)
    ensures Split(s + [b]) ==
            var p := Split(s); if b == NL then Parts(p.lines + [p.rest], []) else Parts(p.lines, p.rest + [b])
  {
    assert (s + [b])[..|s|] == s;
  }

  /** What is written later is cut after what came before it. */
  lemma {:induction false} SplitAppend(a: Bytes, b: Bytes)
    ensures Split(a + b) ==
            var p, q := Split(a), Split(Split(a).rest + b); Parts(p.lines + q.lines, q.rest)
    decreases |b|
  {
    var p := Split(a);
    if b == [] {
      assert a + b == a && p.rest + b == p.rest;
      SplitIsWhole(a);
      SplitIsOnly(Parts([], p.rest));
    } else {
      var init, c := b[..|b| - 1], b[|b| - 1];
      SplitAppend(a, init);
      assert a + b == a + init + [c] && p.rest + b == p.rest + init + [c];
      SplitSnoc(a + init, c);
      SplitSnoc(p.rest + init, c);
    }
  }

  /** A line cut off the front. */
  lemma SplitAtNewline(line: Bytes, rest: Bytes)
    requires OneLine(line)
    ensures Split(line + [NL] + rest) == var q := Split(rest); Parts([line] + q.lines, q.rest)
  {
    var head := line + [NL];
    SplitIsOnly(Parts([], line));
    SplitSnoc(line, NL);
    assert Split(head) == Parts([line], []);
    SplitAppend(head, rest);
    assert Split(head).rest + rest == rest;
  }

  /** bytes.TrimRight of carriage returns. */
  function TrimCR(s: Bytes): (t: Bytes)
    ensures t <= s && (t == [] || t[|t| - 1] != CR) && forall i :: |t| <= i < |s| ==> s[i] == CR
  {
    if s != [] && s[|s| - 1] == CR then TrimCR(s[..|s| - 1]) else s
  }

  // ----- Events -----

  datatype Event = Event(kind: string, subject: string, line: Bytes)

  /** Each line trimmed, and dropped when nothing is left of it. */
  function LineEvents(kind: string, subject: string, lines: seq<Bytes>): seq<Event> {
    if lines == [] then []
    else
      var before := LineEvents(kind, subject, lines[..|lines| - 1]);
      var line := TrimCR(lines[|lines| - 1]);
      if line == [] then before else before + [Event(kind, subject, line)]
  }

  lemma {:induction false} LineEventsAppend(kind: string, subject: string, a: seq<Bytes>, b: seq<Bytes>)
    ensures LineEvents(kind, subject, a + b) == LineEvents(kind, subject, a) + LineEvents(kind, subject, b)
    decreases |b|
  {
    if b == [] {
      assert a + b == a;
    } else {
      var init, l := b[..|b| - 1], b[|b| - 1];
      assert (a + b)[..|a + b| - 1] == a + init;
      LineEventsAppend(kind, subject, a, init);
    }
  }

  /** line[n..] is carriage returns, and line[..n] does not end in one. */
  predicate TrimmedTo(line: Bytes, n: nat) {
    && n <= |line|
    && (forall i :: n <= i < |line| ==> line[i] == 13)
    && (n > 0 ==> line[n - 1] != 13)
  }

  /** Each line, wherever it stands, sends itself less the carriage returns it
      ends in, as one event, or nothing when it holds nothing else. */
  lemma {:induction false} EachLineSends(kind: string, subject: string, lines: seq<Bytes>, k: nat)
    requires k < |lines|
    ensures exists n: nat :: TrimmedTo(lines[k], n) &&
              LineEvents(kind, subject, lines) ==
              LineEvents(kind, subject, lines[..k])
              + (if n == 0 then [] else [Event(kind, subject, lines[k][..n])])
              + LineEvents(kind, subject, lines[k + 1..])
  {
    var line := TrimCR(lines[k]);
    assert TrimmedTo(lines[k], |line|) && lines[k][..|line|] == line;
    LineEventsAppend(kind, subject, lines[..k + 1], lines[k + 1..]);
    assert lines[..k + 1][..k] == lines[..k] && lines == lines[..k + 1] + lines[k + 1..];
    assert LineEvents(kind, subject, lines[..k + 1]) ==
           LineEvents(kind, subject, lines[..k]) + if |line| == 0 then [] else [Event(kind, subject, lines[k][..|line|])];
  }

  /** The last, unfinished line: as it is, when there is one. */
  function TailEvents(kind: string, subject: string, rest: Bytes): seq<Event> {
    if rest == [] then [] else [Event(kind, subject, rest)]
  }

  /** What a stream written and closed sends. */
  ghost function StreamEvents(kind: string, subject: string, s: Bytes): seq<Event> {
    LineEvents(kind, subject, Split(s).lines) + TailEvents(kind, subject, Split(s).rest)
  }

  /** What a sink that has seen some bytes holds back, and what it has sent:
      the unfinished line, which holds no newline; and the finished ones, which
      depend on the bytes and not on how they came. */
  ghost predicate Sunk(to: Option<(string, string)>, seen: Bytes, before: seq<Event>, partial: Bytes, sent: seq<Event>) {
    && partial == Split(seen).rest && OneLine(partial)
    && sent == before + Sent(to, Split(seen).lines)
  }

  /** The events of some lines, when there is a hub to send them to. */
  ghost function Sent(to: Option<(string, string)>, lines: seq<Bytes>): seq<Event> {
    if to.None? then [] else LineEvents(to.value.0, to.value.1, lines)
  }

  lemma WriteKeepsSunk(
    to: Option<(string, string)>, seen: Bytes, before: seq<Event>, partial: Bytes, sent: seq<Event>,
    p: Bytes, raw: seq<Bytes>, rest: Bytes)
    requires Sunk(to, seen, before, partial, sent)
    requires Split(partial + p) == Parts(raw, rest) && OneLine(rest)
    ensures Sunk(to, seen + p, before, rest, sent + Sent(to, raw))
  {
    SplitAppend(seen, p);
    if to.Some? {
      LineEventsAppend(to.value.0, to.value.1, Split(seen).lines, raw);
    }
    Assoc(before, Sent(to, Split(seen).lines), Sent(to, raw));
  }

  lemma Assoc<T>(a: seq<T>, b: seq<T>, c: seq<T>)
    ensures a + b + c == a + (b + c)
  {
  }

  lemma SentAt(to: Option<(string, string)>, early: seq<Event>, lines: seq<Bytes>, k: nat)
    requires k < |lines|
    ensures early + Sent(to, lines[..k + 1]) == early + Sent(to, lines[..k]) + OneSent(to, TrimCR(lines[k]))
  {
    assert lines[..k + 1][..k] == lines[..k];
    Assoc(early, Sent(to, lines[..k]), OneSent(to, TrimCR(lines[k])));
  }

  /** What emit sends for one line. */
  ghost function OneSent(to: Option<(string, string)>, line: Bytes): seq<Event> {
    if to.None? then [] else TailEvents(to.value.0, to.value.1, line)
  }

  class ProgressSink {
    const hasHub: bool
    const kind: string
    const subject: string
    var partial: Bytes
    // What the hub was given, in order.
    var sent: seq<Event>

    /** The bytes since the sink was new or closed, and what was sent before them. */
    ghost var seen: Bytes
    ghost var before: seq<Event>

    ghost function To(): Option<(string, string)> {
      if hasHub then Some((kind, subject)) else None
    }

    ghost predicate Valid()
      reads this
    {
      Sunk(To(), seen, before, partial, sent)
    }

    constructor (hasHub: bool, kind: string, subject: string)
      ensures Valid() && seen == [] && before == [] && sent == []
      ensures this.hasHub == hasHub && this.kind == kind && this.subject == subject
    {
      this.hasHub, this.kind, this.subject := hasHub, kind, subject;
      partial, sent, seen, before := [], [], [], [];
    }

    method Emit(line: Bytes)
      modifies this`sent
      ensures sent == old(sent) + OneSent(To(), line)
    {
      if !hasHub || line == [] {
        return;
      }
      sent := sent + [Event(kind, subject, line)];
    }

    /** The lines of one write, outside the lock. */
    method EmitAll(lines: seq<Bytes>, ghost raw: seq<Bytes>)
      requires |lines| == |raw| && forall i :: 0 <= i < |raw| ==> lines[i] == TrimCR(raw[i])
      modifies this`sent
      ensures sent == old(sent) + Sent(To(), raw)
    {
      var k := 0;
      ghost var early := sent;
      while k < |lines|
        invariant 0 <= k <= |lines|
        invariant sent == early + Sent(To(), raw[..k])
      {
        SentAt(To(), early, raw, k);
        Emit(lines[k]);
        k := k + 1;
      }
      assert raw[..k] == raw;
    }

    method Write(p: Bytes) returns (n: nat)
      requires Valid()
      modifies this`partial, this`sent, this`seen
      ensures Valid() && n == |p|
      ensures seen == old(seen) + p
    {
      ghost var held := partial;
      ghost var raw;
      var lines;
      raw, lines, partial := CutLines(partial + p);
      WriteKeepsSunk(To(), seen, before, held, sent, p, raw, partial);
      EmitAll(lines, raw);
      seen := seen + p;
      n := |p|;
    }

    /** The stream's last, unfinished line goes out, and the sink starts afresh. */
    method Close()
      requires Valid()
      modifies this
      ensures Valid() && seen == [] && partial == [] && before == sent
      ensures sent == if hasHub then old(before) + StreamEvents(kind, subject, old(seen)) else old(before)
    {
      var tail := partial;
      partial := [];
      if tail != [] {
        Emit(tail);
      }
      seen, before := [], sent;
    }
  }

  /** The finished lines of a buffer, trimmed, and what is held back. */
  method CutLines(buffer: Bytes) returns (ghost raw: seq<Bytes>, lines: seq<Bytes>, rest: Bytes)
    ensures Split(buffer) == Parts(raw, rest) && OneLine(rest)
    ensures |lines| == |raw| && forall i :: 0 <= i < |raw| ==> lines[i] == TrimCR(raw[i])
  {
    raw, lines, rest := [], [], buffer;
    while true
      invariant Split(buffer) == Parts(raw + Split(rest).lines, Split(rest).rest)
      invariant |lines| == |raw| && forall i :: 0 <= i < |raw| ==> lines[i] == TrimCR(raw[i])
      decreases |rest|
    {
      var idx := IndexByte(rest, NL);
      if idx < 0 {
        break;
      }
      CutFront(rest, idx);
      assert raw + ([rest[..idx]] + Split(rest[idx + 1..]).lines) == raw + [rest[..idx]] + Split(rest[idx + 1..]).lines;
      raw, lines, rest := raw + [rest[..idx]], lines + [TrimCR(rest[..idx])], rest[idx + 1..];
    }
    SplitIsOnly(Parts([], rest));
    assert raw + [] == raw;
  }

  lemma CutFront(s: Bytes, idx: nat)
    requires idx < |s| && s[idx] == NL && OneLine(s[..idx])
    ensures Split(s) == var q := Split(s[idx + 1..]); Parts([s[..idx]] + q.lines, q.rest)
  {
    assert s == s[..idx] + [NL] + s[idx + 1..];
    SplitAtNewline(s[..idx], s[idx + 1..]);
  }

  /** bytes.IndexByte. */
  method IndexByte(s: Bytes, b: Byte) returns (idx: int)
    ensures idx < 0 <==> b !in s
    ensures idx >= 0 ==> idx < |s| && s[idx] == b && b !in s[..idx]
  {
    idx := 0;
    while idx < |s|
      invariant 0 <= idx <= |s| && b !in s[..idx]
    {
      if s[idx] == b {
        return;
      }
      idx := idx + 1;
    }
    assert s[..|s|] == s;
    idx := -1;
  }

  function Concat(chunks: seq<Bytes>): Bytes {
    if chunks == [] then [] else Concat(chunks[..|chunks| - 1]) + chunks[|chunks| - 1]
  }

  /** However a stream is chunked, a sink that is written it and closed sends
      the same events. */
  method SendStream(chunks: seq<Bytes>, kind: string, subject: string) returns (events: seq<Event>)
    ensures events == StreamEvents(kind, subject, Concat(chunks))
  {
    var sink := new ProgressSink(true, kind, subject);
    for i := 0 to |chunks|
      invariant sink.Valid() && sink.hasHub && sink.kind == kind && sink.subject == subject
      invariant sink.seen == Concat(chunks[..i]) && sink.before == []
    {
      var n := sink.Write(chunks[i]);
      assert chunks[..i + 1][..i] == chunks[..i];
    }
    assert chunks[..|chunks|] == chunks;
    sink.Close();
    events := sink.sent;
  }
}
