/** The version-pin rewriter: a brace-matching scan that gives every google
    provider entry a version. */
module VersionPin {
  /** What the scan looks for, what an entry must name, and what is put before
      the closing brace of an entry that does not name it. */
  datatype Rule = Rule(marker: string, word: string, pin: string)

  /** The marker ends in the brace it opens; the pin names the word and has no brace. */
  ghost predicate WellMade(r: Rule) {
    r.marker != "" && r.marker[|r.marker| - 1] == '{' && NoBraces(r.pin) && Contains(r.pin, r.word)
  }

  // ----- Searching -----

  predicate At(s: string, m: string, i: nat) {
    i + |m| <= |s| && s[i..i + |m|] == m
  }

  /** m starts in s at r, and nowhere from i to r. */
  ghost predicate FirstFrom(s: string, m: string, i: nat, r: nat) {
    i <= r && At(s, m, r) && forall j :: i <= j < r ==> !At(s, m, j)
  }

  ghost predicate Contains(s: string, m: string) {
    exists i: nat :: At(s, m, i)
  }

  /** strings.Index, from i. */
  method Index(s: string, m: string, i: nat) returns (r: int)
    requires i <= |s|
    ensures r == -1 ==> forall j: nat :: i <= j ==> !At(s, m, j)
    ensures r != -1 ==> r >= 0 && FirstFrom(s, m, i, r)
  {
    r := i;
    while r + |m| <= |s|
      invariant i <= r
      invariant forall j: nat :: i <= j < r ==> !At(s, m, j)
    {
      if s[r..r + |m|] == m {
        return;
      }
      r := r + 1;
    }
    r := -1;
  }

  lemma AtShifted(a: string, s: string, m: string, i: nat)
    ensures At(a + s, m, |a| + i) <==> At(s, m, i)
  {
    if i + |m| <= |s| {
      assert (a + s)[|a| + i..|a| + i + |m|] == s[i..i + |m|];
    }
  }

  lemma AtLocal(s: string, rest: string, m: string, i: nat)
    requires i + |m| <= |s|
    ensures At(s + rest, m, i) <==> At(s, m, i)
  {
    assert (s + rest)[i..i + |m|] == s[i..i + |m|];
  }

  lemma AtSlice(s: string, from: nat, to: nat, m: string, j: nat)
    requires from + j + |m| <= to <= |s|
    ensures At(s[from..to], m, j) <==> At(s, m, from + j)
  {
    var u := s[from..to];
    var x, y := u[j..j + |m|], s[from + j..from + j + |m|];
    assert forall k :: 0 <= k < |m| ==> x[k] == y[k];
  }

  lemma ContainedIn(a: string, b: string, c: string, m: string)
    requires Contains(b, m)
    ensures Contains(a + b + c, m)
  {
    var i: nat :| At(b, m, i);
    AtShifted(a, b, m, i);
    AtLocal(a + b, c, m, |a| + i);
  }

  // ----- Braces -----

  /** The depth after s, begun at depth one, while it is not closed. */
  function Depth(s: string): (r: nat)
  {
    if s == "" then 1 else Next(s[|s| - 1], Depth(s[..|s| - 1]))
  }

  /** Depth zero is closed, and stays so. */
  function Next(c: char, d: nat): nat {
    if d == 0 then 0 else if c == '{' then d + 1 else if c == '}' then d - 1 else d
  }

  /** What stands inside a pair of braces: nothing in it closes the first, and
      every brace it opens it closes. */
  predicate Balanced(inner: string) {
    Depth(inner) == 1
  }

  lemma DepthOf(s: string, c: char)
    ensures Depth(s + [c]) == Next(c, Depth(s))
  {
    assert (s + [c])[..|s|] == s;
  }

  lemma {:induction false} ClosedStays(a: string, b: string)
    requires Depth(a) == 0
    ensures Depth(a + b) == 0
    decreases |b|
  {
    if b == "" {
      assert a + b == a;
    } else {
      var b' := b[..|b| - 1];
      ClosedStays(a, b');
      DepthOf(a + b', b[|b| - 1]);
      assert a + b == a + b' + [b[|b| - 1]];
    }
  }

  /** Of two balanced insides of the same text, neither is the longer. */
  lemma OneInside(x: string, y: string, p: string, q: string)
    requires Balanced(x) && Depth(y) > 0 && x + "}" + p == y + q
    ensures |y| <= |x|
  {
    if |x| < |y| {
      var z := x + "}";
      assert z == (x + "}" + p)[..|z|] == (y + q)[..|z|] == y[..|z|];
      var more := y[|z|..];
      assert y == z + more;
      DepthOf(x, '}');
      ClosedStays(z, more);
    }
  }

  predicate NoBraces(s: string) {
    forall i :: 0 <= i < |s| ==> s[i] != '{' && s[i] != '}'
  }

  /** Text without braces keeps the depth. */
  lemma {:induction false} DepthPadded(a: string, b: string)
    requires NoBraces(b)
    ensures Depth(a + b) == Depth(a)
    decreases |b|
  {
    if b == "" {
      assert a + b == a;
    } else {
      var b' := b[..|b| - 1];
      DepthPadded(a, b');
      DepthOf(a + b', b[|b| - 1]);
      assert a + b == a + b' + [b[|b| - 1]];
    }
  }

  predicate Blank(c: char) {
    c == ' ' || c == '\n' || c == '\t'
  }

  /** strings.TrimRight of blanks, newlines and tabs. */
  function TrimRight(s: string): string {
    if s != "" && Blank(s[|s| - 1]) then TrimRight(s[..|s| - 1]) else s
  }

  lemma {:induction false} TrimKeepsDepth(s: string)
    ensures Depth(TrimRight(s)) == Depth(s)
    decreases |s|
  {
    if s != "" && Blank(s[|s| - 1]) {
      TrimKeepsDepth(s[..|s| - 1]);
    }
  }

  // ----- Entries -----

  /** A closed entry: the marker, what stands inside, and its closing brace. */
  function Entry(rule: Rule, inner: string): string {
    rule.marker + inner + "}"
  }

  /** The inside, given a version at its end when the entry names none. */
  ghost function Fix(rule: Rule, inner: string): string {
    if Contains(Entry(rule, inner), rule.word) then inner else TrimRight(inner) + rule.pin
  }

  /** What an entry's inside becomes: itself where the entry names the word, and
      otherwise all of it but the spaces, newlines and tabs it ends in, then the pin. */
  ghost predicate GivenPin(rule: Rule, inner: string, out: string) {
    if Contains(rule.marker + inner + "}", rule.word) then out == inner
    else exists k :: 0 <= k <= |inner| && KeptTo(inner, k) && out == inner[..k] + rule.pin
  }

  /** inner[k..] is spaces, newlines and tabs, and inner[..k] does not end in one. */
  ghost predicate KeptTo(inner: string, k: nat)
    requires k <= |inner|
  {
    && (forall j :: k <= j < |inner| ==> inner[j] == ' ' || inner[j] == '\n' || inner[j] == '\t')
    && (k > 0 ==> inner[k - 1] != ' ' && inner[k - 1] != '\n' && inner[k - 1] != '\t')
  }

  lemma {:induction false} TrimKeepsTo(s: string)
    ensures |TrimRight(s)| <= |s| && TrimRight(s) == s[..|TrimRight(s)|] && KeptTo(s, |TrimRight(s)|)
    decreases |s|
  {
    if s != "" && Blank(s[|s| - 1]) {
      var s' := s[..|s| - 1];
      TrimKeepsTo(s');
      var k := |TrimRight(s')|;
      assert s'[..k] == s[..k];
      forall j | k <= j < |s| ensures s[j] == ' ' || s[j] == '\n' || s[j] == '\t' {
        assert j < |s'| ==> s[j] == s'[j];
      }
      assert k > 0 ==> s[k - 1] == s'[k - 1];
    }
  }

  lemma FixGivesPin(rule: Rule, inner: string)
    ensures GivenPin(rule, inner, Fix(rule, inner))
  {
    TrimKeepsTo(inner);
  }

  /** A fixed entry is balanced and names the word: fixing it again changes nothing. */
  lemma FixedIsNamed(rule: Rule, inner: string)
    requires WellMade(rule) && Balanced(inner)
    ensures Balanced(Fix(rule, inner)) && Contains(Entry(rule, Fix(rule, inner)), rule.word)
    ensures Fix(rule, Fix(rule, inner)) == Fix(rule, inner)
  {
    if !Contains(Entry(rule, inner), rule.word) {
      var trimmed := TrimRight(inner);
      TrimKeepsDepth(inner);
      DepthPadded(trimmed, rule.pin);
      ContainedIn(rule.marker + trimmed, rule.pin, "}", rule.word);
      assert Entry(rule, Fix(rule, inner)) == rule.marker + trimmed + rule.pin + "}";
    }
  }

  /** One closed entry, its inside, and what lies between it and the one before. */
  datatype Piece = Piece(gap: string, inner: string)

  function Printed(rule: Rule, p: Piece): string {
    p.gap + Entry(rule, p.inner)
  }

  function Print(rule: Rule, ps: seq<Piece>): string {
    if ps == [] then "" else Print(rule, ps[..|ps| - 1]) + Printed(rule, ps[|ps| - 1])
  }

  /** The marker of the entry is the first after the entry before, and its last
      brace is the one that closes it. */
  ghost predicate WellCut(rule: Rule, p: Piece) {
    FirstFrom(p.gap + rule.marker, rule.marker, 0, |p.gap|) && Balanced(p.inner)
  }

  /** The scan ends here: there is no marker, or the first is never closed. */
  ghost predicate NoEntry(rule: Rule, tail: string) {
    forall at: nat :: FirstFrom(tail, rule.marker, 0, at) ==> Depth(tail[at + |rule.marker|..]) > 0
  }

  /** The entries a scan of t meets, and the tail it copies. */
  ghost predicate Cuts(rule: Rule, t: string, ps: seq<Piece>, tail: string) {
    && t == Print(rule, ps) + tail
    && (forall p :: p in ps ==> WellCut(rule, p))
    && NoEntry(rule, tail)
  }

  ghost function FixPiece(rule: Rule, p: Piece): Piece {
    Piece(p.gap, Fix(rule, p.inner))
  }

  ghost function FixAll(rule: Rule, ps: seq<Piece>): (fs: seq<Piece>) {
    seq(|ps|, i requires 0 <= i < |ps| => FixPiece(rule, ps[i]))
  }

  ghost predicate Named(rule: Rule, p: Piece) {
    Contains(Entry(rule, p.inner), rule.word)
  }

  // ----- A text has one cut -----

  lemma FirstInText(gap: string, m: string, rest: string, t: string)
    requires FirstFrom(gap + m, m, 0, |gap|) && t == gap + m + rest
    ensures FirstFrom(t, m, 0, |gap|)
  {
    forall j: nat | j <= |gap| ensures At(t, m, j) <==> At(gap + m, m, j) {
      AtLocal(gap + m, rest, m, j);
    }
  }

  lemma OneFirst(t: string, m: string, i: nat, r: nat, q: nat)
    requires FirstFrom(t, m, i, r) && FirstFrom(t, m, i, q)
    ensures r == q
  {
  }

  lemma CutOff(a: string, b: string, c: string, d: string)
    requires a + b == c + d && |a| == |c|
    ensures a == c && b == d
  {
    assert a == (a + b)[..|a|] && c == (c + d)[..|c|];
    assert b == (a + b)[|a|..] && d == (c + d)[|c|..];
  }

  lemma {:induction false} PrintHead(rule: Rule, ps: seq<Piece>)
    requires ps != []
    ensures Print(rule, ps) == Printed(rule, ps[0]) + Print(rule, ps[1..])
    decreases |ps|
  {
    var n := |ps| - 1;
    if n == 0 {
      assert ps[1..] == [] && ps[..0] == [];
    } else {
      PrintHead(rule, ps[..n]);
      assert ps[..n][1..] == ps[1..][..n - 1];
    }
  }

  /** The first piece of a text decides where its marker and closing brace are. */
  lemma SamePiece(rule: Rule, p: Piece, rest: string, q: Piece, rest': string)
    requires WellCut(rule, p) && WellCut(rule, q)
    requires Printed(rule, p) + rest == Printed(rule, q) + rest'
    ensures p == q && rest == rest'
  {
    var m := rule.marker;
    var after, after' := p.inner + ("}" + rest), q.inner + ("}" + rest');
    var t := p.gap + m + after;
    assert t == Printed(rule, p) + rest && q.gap + m + after' == Printed(rule, q) + rest';
    FirstInText(p.gap, m, after, t);
    FirstInText(q.gap, m, after', t);
    OneFirst(t, m, 0, |p.gap|, |q.gap|);
    CutOff(p.gap + m, after, q.gap + m, after');
    CutOff(p.gap, m, q.gap, m);
    SameInside(p.inner, rest, q.inner, rest');
  }

  lemma SameInside(x: string, rest: string, y: string, rest': string)
    requires Balanced(x) && Balanced(y) && x + ("}" + rest) == y + ("}" + rest')
    ensures x == y && rest == rest'
  {
    assert x + "}" + rest == x + ("}" + rest) && y + "}" + rest' == y + ("}" + rest');
    OneInside(x, y, rest, "}" + rest');
    OneInside(y, x, rest', "}" + rest);
    CutOff(x, "}" + rest, y, "}" + rest');
    CutOff("}", rest, "}", rest');
  }

  /** A piece cannot start where the scan ends. */
  lemma NoPiece(rule: Rule, p: Piece, rest: string, tail: string)
    requires WellCut(rule, p) && tail == Printed(rule, p) + rest
    ensures !NoEntry(rule, tail)
  {
    var after := p.inner + "}" + rest;
    assert tail == p.gap + rule.marker + after;
    FirstInText(p.gap, rule.marker, after, tail);
    CutOff(tail[..|p.gap| + |rule.marker|], tail[|p.gap| + |rule.marker|..], p.gap + rule.marker, after);
    DepthOf(p.inner, '}');
    ClosedStays(p.inner + "}", rest);
  }

  /** A text is cut in one way only. */
  lemma {:induction false} OneCut(rule: Rule, t: string, ps: seq<Piece>, tail: string, qs: seq<Piece>, tail': string)
    requires Cuts(rule, t, ps, tail) && Cuts(rule, t, qs, tail')
    ensures ps == qs && tail == tail'
    decreases |ps|
  {
    assert ps == [] ==> t == tail;
    assert qs == [] ==> t == tail';
    if ps != [] {
      PrintHead(rule, ps);
      var rest := Print(rule, ps[1..]) + tail;
      assert t == Printed(rule, ps[0]) + rest;
      if qs == [] {
        NoPiece(rule, ps[0], rest, tail');
      } else {
        PrintHead(rule, qs);
        var rest' := Print(rule, qs[1..]) + tail';
        assert t == Printed(rule, qs[0]) + rest';
        SamePiece(rule, ps[0], rest, qs[0], rest');
        OneCut(rule, rest, ps[1..], tail, qs[1..], tail');
      }
    } else if qs != [] {
      PrintHead(rule, qs);
      assert tail == Printed(rule, qs[0]) + (Print(rule, qs[1..]) + tail');
      NoPiece(rule, qs[0], Print(rule, qs[1..]) + tail', tail);
    }
  }

  // ----- What pinning keeps -----

  /** The rewritten text is cut where the old one was: each entry the scan met
      is an entry still, closed by its own brace, and names a version; every
      byte between entries, and the tail, are as they were. */
  lemma PinKeepsTheCut(rule: Rule, t: string, ps: seq<Piece>, tail: string)
    requires WellMade(rule) && Cuts(rule, t, ps, tail)
    ensures Cuts(rule, Print(rule, FixAll(rule, ps)) + tail, FixAll(rule, ps), tail)
    ensures forall p :: p in FixAll(rule, ps) ==> Named(rule, p)
    ensures FixAll(rule, FixAll(rule, ps)) == FixAll(rule, ps)
  {
    var fs := FixAll(rule, ps);
    forall i | 0 <= i < |ps| ensures WellCut(rule, fs[i]) && Named(rule, fs[i]) && FixPiece(rule, fs[i]) == fs[i] {
      assert ps[i] in ps;
      FixedIsNamed(rule, ps[i].inner);
    }
  }

  // ----- The scan, as it runs -----

  /** Where the brace at braceStart is closed, or -1. */
  method MatchBrace(text: string, braceStart: nat) returns (end: int)
    requires braceStart < |text| && text[braceStart] == '{'
    ensures end != -1 ==> braceStart < end < |text| && text[end] == '}' && Balanced(text[braceStart + 1..end])
    ensures end == -1 ==> Depth(text[braceStart + 1..]) > 0
  {
    var depth := 0;
    end := -1;
    var j := braceStart;
    while j < |text|
      invariant braceStart <= j <= |text| && depth >= 0
      invariant j == braceStart ==> depth == 0
      invariant j > braceStart ==> depth > 0 && depth == Depth(text[braceStart + 1..j])
    {
      if j > braceStart {
        DepthOf(text[braceStart + 1..j], text[j]);
        assert text[braceStart + 1..j] + [text[j]] == text[braceStart + 1..j + 1];
      } else {
        assert text[braceStart + 1..j + 1] == "";
      }
      if text[j] == '{' {
        depth := depth + 1;
      } else if text[j] == '}' {
        depth := depth - 1;
        if depth == 0 {
          end := j;
          return;
        }
      }
      j := j + 1;
    }
    assert text[braceStart + 1..j] == text[braceStart + 1..];
  }

  /** What the scan found from i on, as a piece. */
  lemma FoundPiece(rule: Rule, text: string, i: nat, start: nat, end: nat)
    requires FirstFrom(text, rule.marker, i, start)
    requires start + |rule.marker| <= end < |text| && text[end] == '}'
    requires Balanced(text[start + |rule.marker|..end])
    ensures var p := Piece(text[i..start], text[start + |rule.marker|..end]);
            && WellCut(rule, p)
            && text[i..end + 1] == Printed(rule, p)
            && text[start..end + 1] == Entry(rule, p.inner)
  {
    var m := rule.marker;
    HeadIs(text, i, start, m);
    var head := text[i..start + |m|];
    AtSlice(text, i, start + |m|, m, start - i);
    forall j: nat | j < start - i ensures !At(head, m, j) {
      assert !At(text, m, i + j);
      AtSlice(text, i, start + |m|, m, j);
    }
    FoundSlices(text, i, start, start + |m|, end);
  }

  lemma HeadIs(text: string, i: nat, start: nat, m: string)
    requires i <= start && At(text, m, start)
    ensures text[i..start + |m|] == text[i..start] + m
  {
    assert text[i..start + |m|] == text[i..start] + text[start..start + |m|];
  }

  lemma FoundSlices(text: string, i: nat, start: nat, after: nat, end: nat)
    requires i <= start <= after <= end < |text| && text[end] == '}'
    ensures text[start..end + 1] == text[start..after] + text[after..end] + "}"
    ensures text[i..end + 1] == text[i..start] + text[start..end + 1]
  {
  }

  /** Where the scan stops, the rest has no closed entry at its first marker. */
  lemma FoundTail(rule: Rule, text: string, i: nat)
    requires i <= |text|
    requires forall at: nat :: FirstFrom(text, rule.marker, i, at) ==> Depth(text[at + |rule.marker|..]) > 0
    ensures NoEntry(rule, text[i..])
  {
    var m, tail := rule.marker, text[i..];
    forall at: nat | FirstFrom(tail, m, 0, at) ensures Depth(tail[at + |m|..]) > 0 {
      FirstInTail(text, m, i, at);
      assert tail[at + |m|..] == text[i + at + |m|..];
    }
  }

  lemma FirstInTail(text: string, m: string, i: nat, at: nat)
    requires i <= |text| && FirstFrom(text[i..], m, 0, at)
    ensures FirstFrom(text, m, i, i + at)
  {
    assert text[i..|text|] == text[i..];
    AtSlice(text, i, |text|, m, at);
    forall j: nat | i <= j < i + at ensures !At(text, m, j) {
      assert !At(text[i..], m, j - i);
      AtSlice(text, i, |text|, m, j - i);
    }
  }

  lemma FixSnoc(rule: Rule, ps: seq<Piece>, p: Piece)
    ensures FixAll(rule, ps + [p]) == FixAll(rule, ps) + [FixPiece(rule, p)]
  {
  }

  lemma PrintSnoc(rule: Rule, ps: seq<Piece>, p: Piece)
    ensures Print(rule, ps + [p]) == Print(rule, ps) + Printed(rule, p)
  {
    assert (ps + [p])[..|ps|] == ps;
  }

  /** Decides Contains. */
  method Names(s: string, m: string) returns (found: bool)
    ensures found <==> Contains(s, m)
  {
    var r := Index(s, m, 0);
    found := r != -1;
  }

  /** How far the scan has come: text[..i] is the pieces it met, and out those rewritten. */
  ghost predicate ScannedTo(rule: Rule, text: string, i: nat, ps: seq<Piece>, out: string, modified: bool) {
    && i <= |text|
    && Print(rule, ps) == text[..i] && out == Print(rule, FixAll(rule, ps))
    && (forall p :: p in ps ==> WellCut(rule, p))
    && (!modified <==> forall p :: p in ps ==> Named(rule, p))
    && (!modified ==> out == text[..i])
  }

  /** One turn of the scan. */
  lemma TurnKeeps(rule: Rule, text: string, i: nat, ps: seq<Piece>, out: string, modified: bool, end: nat, p: Piece)
    requires ScannedTo(rule, text, i, ps, out, modified) && i <= end < |text|
    requires WellCut(rule, p) && text[i..end + 1] == Printed(rule, p)
    ensures ScannedTo(rule, text, end + 1, ps + [p], out + Printed(rule, FixPiece(rule, p)), modified || !Named(rule, p))
  {
    FixSnoc(rule, ps, p);
    PrintSnoc(rule, ps, p);
    PrintSnoc(rule, FixAll(rule, ps), FixPiece(rule, p));
    assert text[..i] + text[i..end + 1] == text[..end + 1];
    assert forall q :: q in ps + [p] <==> q in ps || q == p;
  }

  /** The first entry from i on: where its marker starts and its brace closes,
      or -1 when the scan ends here. */
  method FindEntry(rule: Rule, text: string, i: nat) returns (start: int, end: int)
    requires WellMade(rule) && i < |text|
    ensures end == -1 ==> NoEntry(rule, text[i..])
    ensures end != -1 ==>
              && i <= start && start + |rule.marker| <= end < |text| && At(text, rule.marker, start)
              && WellCut(rule, Piece(text[i..start], text[start + |rule.marker|..end]))
              && text[i..end + 1] == Printed(rule, Piece(text[i..start], text[start + |rule.marker|..end]))
              && text[start..end + 1] == Entry(rule, text[start + |rule.marker|..end])
  {
    start := Index(text, rule.marker, i);
    end := -1;
    if start != -1 {
      LastOf(text, start, rule.marker);
      end := MatchBrace(text, start + |rule.marker| - 1);
    }
    if end == -1 {
      StopsHere(rule, text, i, start);
    } else {
      FoundPiece(rule, text, i, start, end);
    }
  }

  lemma PieceIsFixed(rule: Rule, p: Piece)
    ensures Named(rule, p) ==> Printed(rule, FixPiece(rule, p)) == Printed(rule, p)
    ensures !Named(rule, p) ==>
              Printed(rule, FixPiece(rule, p)) == p.gap + (rule.marker + (TrimRight(p.inner) + rule.pin) + "}")
  {
  }

  /** What is written for the text up to an entry's end, and whether the entry
      was given a version. */
  method Rewrite(rule: Rule, text: string, i: nat, start: nat, end: nat) returns (piece: string, fixed: bool)
    requires rule.marker != "" && i <= start && start + |rule.marker| <= end < |text| && At(text, rule.marker, start)
    requires var p := Piece(text[i..start], text[start + |rule.marker|..end]);
             text[i..end + 1] == Printed(rule, p) && text[start..end + 1] == Entry(rule, p.inner)
    ensures var p := Piece(text[i..start], text[start + |rule.marker|..end]);
            piece == Printed(rule, FixPiece(rule, p)) && (fixed <==> !Named(rule, p))
  {
    var braceStart := start + |rule.marker| - 1;
    PieceIsFixed(rule, Piece(text[i..start], text[braceStart + 1..end]));
    var names := Names(text[start..end + 1], rule.word);
    fixed := !names;
    if fixed {
      var inner := TrimRight(text[braceStart + 1..end]);
      piece := text[i..start] + (text[start..braceStart + 1] + (inner + rule.pin) + "}");
    } else {
      piece := text[i..end + 1];
    }
  }

  /** One file's text: the entries the scan meets are fixed and nothing else
      changes. The scan index only moves forward. */
  method PinText(rule: Rule, text: string) returns (out: string, modified: bool, ghost ps: seq<Piece>, ghost tail: string)
    requires WellMade(rule)
    ensures Cuts(rule, text, ps, tail) && out == Print(rule, FixAll(rule, ps)) + tail
    ensures forall p: Piece :: p in ps ==> GivenPin(rule, p.inner, FixPiece(rule, p).inner) && FixPiece(rule, p).gap == p.gap
    ensures !modified <==> forall p :: p in ps ==> Named(rule, p)
    ensures !modified ==> out == text
  {
    forall inner ensures GivenPin(rule, inner, Fix(rule, inner)) {
      FixGivesPin(rule, inner);
    }
    var i := 0;
    out, modified, ps := "", false, [];
    while i < |text|
      invariant i >= 0 && ScannedTo(rule, text, i, ps, out, modified)
      decreases |text| - i
    {
      var start, end := FindEntry(rule, text, i);
      if end == -1 {
        ScanEnds(rule, text, i, ps, out, modified);
        return out + text[i..], modified, ps, text[i..];
      }
      ghost var p := Piece(text[i..start], text[start + |rule.marker|..end]);
      TurnKeeps(rule, text, i, ps, out, modified, end, p);
      var piece, fixed := Rewrite(rule, text, i, start, end);
      out, modified := out + piece, modified || fixed;
      i, ps := end + 1, ps + [p];
    }
    tail := "";
    ScanEnds(rule, text, i, ps, out, modified);
    assert text[i..] == tail && out == out + tail;
  }

  lemma ScanEnds(rule: Rule, text: string, i: nat, ps: seq<Piece>, out: string, modified: bool)
    requires ScannedTo(rule, text, i, ps, out, modified) && (i < |text| ==> NoEntry(rule, text[i..]))
    requires rule.marker != ""
    ensures Cuts(rule, text, ps, text[i..])
    ensures !modified ==> out + text[i..] == text
  {
    Glue(text, i);
    assert i == |text| ==> text[i..] == "" && NoEntry(rule, "");
  }

  lemma StopsHere(rule: Rule, text: string, i: nat, start: int)
    requires i <= |text|
    requires start == -1 ==> forall j: nat :: i <= j ==> !At(text, rule.marker, j)
    requires start != -1 ==>
               start >= 0 && FirstFrom(text, rule.marker, i, start) && Depth(text[start + |rule.marker|..]) > 0
    ensures NoEntry(rule, text[i..])
  {
    forall at: nat | FirstFrom(text, rule.marker, i, at) ensures Depth(text[at + |rule.marker|..]) > 0 {
      OneFirst(text, rule.marker, i, start, at);
    }
    FoundTail(rule, text, i);
  }

  lemma Glue(text: string, i: nat)
    requires i <= |text|
    ensures text[..i] + text[i..] == text
  {
  }

  lemma LastOf(text: string, at: nat, m: string)
    requires m != "" && At(text, m, at)
    ensures text[at + |m| - 1] == m[|m| - 1]
  {
    assert text[at..at + |m|][|m| - 1] == text[at + |m| - 1];
  }

  /** Pinning is idempotent on every text: the second run changes nothing. */
  method PinTwice(rule: Rule, text: string) returns (once: string, twice: string, modified: bool)
    requires WellMade(rule)
    ensures twice == once && !modified
  {
    ghost var ps, tail, qs, tail';
    var changed;
    once, changed, ps, tail := PinText(rule, text);
    twice, modified, qs, tail' := PinText(rule, once);
    PinKeepsTheCut(rule, text, ps, tail);
    OneCut(rule, once, FixAll(rule, ps), tail, qs, tail');
  }

  // ----- The google provider -----

  const GOOGLE := Rule("google = {", "version", "\n      " + "version" + " = \"~> 5.0\"\n    ")

  lemma MadeAround(marker: string, word: string, a: string, b: string)
    requires marker != "" && marker[|marker| - 1] == '{' && NoBraces(a) && NoBraces(word) && NoBraces(b)
    ensures WellMade(Rule(marker, word, a + word + b))
  {
    assert At(word, word, 0);
    ContainedIn(a, word, b, word);
  }

  lemma GoogleIsWellMade()
    ensures WellMade(GOOGLE)
  {
    MadeAround("google = {", "version", "\n      ", " = \"~> 5.0\"\n    ");
  }

  /** Some scan of the text, rewritten. By OneCut there is only one. */
  ghost predicate IsPinned(rule: Rule, text: string, out: string) {
    exists ps, tail :: Cuts(rule, text, ps, tail) && out == Print(rule, FixAll(rule, ps)) + tail
  }

  /** Every file, in any order. */
  method EnsureVersionPin(rule: Rule, files: map<string, string>) returns (pinned: map<string, string>)
    requires WellMade(rule)
    ensures pinned.Keys == files.Keys
    ensures forall name :: name in files ==> IsPinned(rule, files[name], pinned[name])
  {
    pinned := files;
    var todo := files.Keys;
    while todo != {}
      invariant todo <= files.Keys && pinned.Keys == files.Keys
      invariant forall name :: name in todo ==> pinned[name] == files[name]
      invariant forall name :: name in files && name !in todo ==> IsPinned(rule, files[name], pinned[name])
      decreases |todo|
    {
      var name :| name in todo;
      todo := todo - {name};
      ghost var ps, tail;
      var out, modified;
      out, modified, ps, tail := PinText(rule, files[name]);
      if modified {
        pinned := pinned[name := out];
      }
    }
  }

  /** The google entries of a text, each given its version unless it has one. */
  ghost predicate GooglePinned(text: string, out: string) {
    exists ps, tail ::
      && Cuts(GOOGLE, text, ps, tail) && out == Print(GOOGLE, FixAll(GOOGLE, ps)) + tail
      && forall p: Piece :: p in ps ==> GoogleGiven(p.inner, FixPiece(GOOGLE, p).inner)
  }

  ghost predicate GoogleGiven(inner: string, out: string) {
    if Contains("google = {" + inner + "}", "version") then out == inner
    else exists k :: 0 <= k <= |inner| && KeptTo(inner, k) && out == inner[..k] + "\n      version = \"~> 5.0\"\n    "
  }

  lemma GooglePin()
    ensures GOOGLE.pin == "\n      version = \"~> 5.0\"\n    "
  {
  }

  lemma FixGivesGoogle(inner: string)
    ensures GoogleGiven(inner, Fix(GOOGLE, inner))
  {
    GooglePin();
    FixGivesPin(GOOGLE, inner);
  }

  lemma PinnedIsGooglePinned(text: string, out: string)
    requires IsPinned(GOOGLE, text, out)
    ensures GooglePinned(text, out)
  {
    var ps, tail :| Cuts(GOOGLE, text, ps, tail) && out == Print(GOOGLE, FixAll(GOOGLE, ps)) + tail;
    forall p: Piece | p in ps ensures GoogleGiven(p.inner, FixPiece(GOOGLE, p).inner) {
      FixGivesGoogle(p.inner);
    }
  }

  /** ensureGoogleVersionPin. */
  method EnsureGoogleVersionPin(files: map<string, string>) returns (pinned: map<string, string>)
    ensures pinned.Keys == files.Keys
    ensures forall name :: name in files ==>
        IsPinned(GOOGLE, files[name], pinned[name]) && GooglePinned(files[name], pinned[name])
  {
    GoogleIsWellMade();
    pinned := EnsureVersionPin(GOOGLE, files);
    forall name | name in files ensures GooglePinned(files[name], pinned[name]) {
      PinnedIsGooglePinned(files[name], pinned[name]);
    }
  }

  /** The rewritten text is a function of the text, and pinned already. */
  lemma PinnedIsPinned(rule: Rule, text: string, out: string, again: string)
    requires WellMade(rule) && IsPinned(rule, text, out) && IsPinned(rule, out, again)
    ensures again == out
    ensures forall other :: IsPinned(rule, text, other) ==> other == out
  {
    var ps, tail :| Cuts(rule, text, ps, tail) && out == Print(rule, FixAll(rule, ps)) + tail;
    PinKeepsTheCut(rule, text, ps, tail);
    var qs, tail' :| Cuts(rule, out, qs, tail') && again == Print(rule, FixAll(rule, qs)) + tail';
    OneCut(rule, out, FixAll(rule, ps), tail, qs, tail');
    forall other | IsPinned(rule, text, other) ensures other == out {
      var rs, end :| Cuts(rule, text, rs, end) && other == Print(rule, FixAll(rule, rs)) + end;
      OneCut(rule, text, ps, tail, rs, end);
    }
  }
}
