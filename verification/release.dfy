/** The lock rule: exact releases, the versions a bounded provider may have, and
    what an init may change. */
module Release {
  import opened Wrappers
  import opened Sorting

  // ----- Decimal numbers -----

  const MAX_INT64: int := 0x7fff_ffff_ffff_ffff
  const MIN_INT64: int := -0x8000_0000_0000_0000

  predicate Digit(c: char) {
    '0' <= c <= '9'
  }

  predicate Digits(s: string) {
    forall i :: 0 <= i < |s| ==> Digit(s[i])
  }

  function Value(s: string): nat
    requires Digits(s)
  {
    if s == "" then 0 else 10 * Value(s[..|s| - 1]) + (s[|s| - 1] as int - '0' as int)
  }

  function DigitChar(d: nat): (c: char)
    requires d < 10
    ensures Digit(c)
  {
    '0' + d as char
  }

  /** strconv.Itoa of a natural number. */
  function Itoa(n: nat): (s: string)
    ensures s != "" && Digits(s)
  {
    if n < 10 then [DigitChar(n)] else Itoa(n / 10) + [DigitChar(n % 10)]
  }

  /** strconv.Atoi: an optional sign, then digits, within 64 bits. */
  function Atoi(s: string): Option<int> {
    var signed := s != "" && (s[0] == '-' || s[0] == '+');
    var digits := if signed then s[1..] else s;
    if digits == "" || !Digits(digits) then None
    else
      var size: int := Value(digits);
      var n := if signed && s[0] == '-' then -size else size;
      if MIN_INT64 <= n <= MAX_INT64 then Some(n) else None
  }

  lemma {:induction false} ValueOfItoa(n: nat)
    ensures Value(Itoa(n)) == n
    decreases n
  {
    var s := Itoa(n);
    if n < 10 {
      assert s[..0] == "";
    } else {
      ValueOfItoa(n / 10);
      assert s[..|s| - 1] == Itoa(n / 10);
    }
  }

  /** Reading back a printed number in range gives it. */
  lemma AtoiOfItoa(n: nat)
    requires n <= MAX_INT64
    ensures Atoi(Itoa(n)) == Some(n)
  {
    ValueOfItoa(n);
    assert Digit(Itoa(n)[0]);
  }

  // ----- Dotted versions -----

  function Join(parts: seq<string>): string
    requires parts != []
  {
    if |parts| == 1 then parts[0] else parts[0] + "." + Join(parts[1..])
  }

  predicate NoDot(s: string) {
    '.' !in s
  }

  /** strings.Split at every dot. */
  function Split(s: string): (parts: seq<string>)
    ensures parts != []
  {
    if s == "" then [""]
    else
      var rest := Split(s[1..]);
      if s[0] == '.' then [""] + rest else [[s[0]] + rest[0]] + rest[1..]
  }

  /** One character more in the first part. */
  lemma JoinCons(c: char, parts: seq<string>)
    requires parts != []
    ensures Join([[c] + parts[0]] + parts[1..]) == [c] + Join(parts)
  {
    var more := [[c] + parts[0]] + parts[1..];
    assert more[1..] == parts[1..];
    if |parts| > 1 {
      assert [c] + parts[0] + "." + Join(parts[1..]) == [c] + (parts[0] + "." + Join(parts[1..]));
    }
  }

  lemma {:induction false} SplitJoins(s: string)
    ensures Join(Split(s)) == s
    decreases |s|
  {
    if s != "" {
      var rest := Split(s[1..]);
      SplitJoins(s[1..]);
      if s[0] == '.' {
        assert ([""] + rest)[1..] == rest;
      } else {
        JoinCons(s[0], rest);
      }
    }
  }

  lemma {:induction false} JoinSplits(parts: seq<string>)
    requires parts != [] && forall i :: 0 <= i < |parts| ==> NoDot(parts[i])
    ensures Split(Join(parts)) == parts
    decreases |parts|, |parts[0]|
  {
    var s := Join(parts);
    if parts[0] == "" {
      if |parts| > 1 {
        JoinSplits(parts[1..]);
        assert s[1..] == Join(parts[1..]);
      }
    } else {
      var c, tail := parts[0][0], parts[0][1..];
      var less := [tail] + parts[1..];
      assert less[1..] == parts[1..] && parts[0] == [c] + tail;
      assert forall i :: 0 < i < |less| ==> less[i] == parts[i];
      JoinSplits(less);
      JoinCons(c, less);
      assert parts == [[c] + less[0]] + less[1..];
      assert s[0] == c && s[1..] == Join(less);
    }
  }

  // ----- Releases -----

  type Triple = r: seq<int> | |r| == 3 witness [0, 0, 0]

  predicate InRange(r: Triple) {
    forall i :: 0 <= i < 3 ==> 0 <= r[i] <= MAX_INT64
  }

  function Print(r: Triple): string
    requires InRange(r)
  {
    Join([Itoa(r[0]), Itoa(r[1]), Itoa(r[2])])
  }

  /** Three parts, each the plain print of a number in range. */
  lemma PrintSplits(r: Triple)
    requires InRange(r)
    ensures Split(Print(r)) == [Itoa(r[0]), Itoa(r[1]), Itoa(r[2])]
  {
    JoinSplits([Itoa(r[0]), Itoa(r[1]), Itoa(r[2])]);
  }

  /** A string with another number of parts is no print. */
  lemma NotThreeParts(version: string)
    requires |Split(version)| != 3
    ensures forall r: Triple :: InRange(r) ==> version != Print(r)
  {
    forall r: Triple | InRange(r) ensures version != Print(r) {
      PrintSplits(r);
    }
  }

  /** Nor is one with a part that is not the plain print of a number in range. */
  lemma NotANumber(version: string, i: nat)
    requires |Split(version)| == 3 && i < 3
    requires var n := Atoi(Split(version)[i]); n.None? || n.value < 0 || Split(version)[i] != Itoa(n.value)
    ensures forall r: Triple :: InRange(r) ==> version != Print(r)
  {
    forall r: Triple | InRange(r) ensures version != Print(r) {
      PrintSplits(r);
      AtoiOfItoa(r[i]);
    }
  }

  /** Three plain prints, joined, are the string. */
  lemma ThreeNumbers(version: string, r: Triple)
    requires InRange(r) && |Split(version)| == 3
    requires forall i :: 0 <= i < 3 ==> Split(version)[i] == Itoa(r[i])
    ensures version == Print(r)
  {
    SplitJoins(version);
    assert Split(version) == [Itoa(r[0]), Itoa(r[1]), Itoa(r[2])];
  }

  /** Parsing accepts exactly the prints of triples in range, and undoes the print. */
  method ParseRelease(version: string) returns (release: Triple, ok: bool)
    ensures ok ==> InRange(release) && version == Print(release)
    ensures !ok ==> forall r: Triple :: InRange(r) ==> version != Print(r)
  {
    release := [0, 0, 0];
    var parts := Split(version);
    if |parts| != |release| {
      NotThreeParts(version);
      return release, false;
    }
    for i := 0 to 3
      invariant forall k :: 0 <= k < i ==> 0 <= release[k] <= MAX_INT64 && parts[k] == Itoa(release[k])
      invariant forall k :: i <= k < 3 ==> release[k] == 0
    {
      var n := Atoi(parts[i]);
      if n.None? || n.value < 0 || parts[i] != Itoa(n.value) {
        NotANumber(version, i);
        return release, false;
      }
      release := release[i := n.value];
    }
    ThreeNumbers(version, release);
    ok := true;
  }

  /** A version has one triple at most. */
  lemma PrintIsInjective(r: Triple, q: Triple)
    requires InRange(r) && InRange(q) && Print(r) == Print(q)
    ensures r == q
  {
    PrintSplits(r);
    PrintSplits(q);
    forall i | 0 <= i < 3 ensures r[i] == q[i] {
      assert Itoa(r[i]) == Itoa(q[i]) by {
        assert [Itoa(r[0]), Itoa(r[1]), Itoa(r[2])] == [Itoa(q[0]), Itoa(q[1]), Itoa(q[2])];
      }
      AtoiOfItoa(r[i]);
      AtoiOfItoa(q[i]);
    }
  }

  /** slices.Compare. */
  function Compare(a: seq<int>, b: seq<int>): int {
    if a == [] then (if b == [] then 0 else -1)
    else if b == [] then 1
    else if a[0] != b[0] then (if a[0] < b[0] then -1 else 1)
    else Compare(a[1..], b[1..])
  }

  /** The releases a provider bounded at `bound` may be locked at. */
  predicate Within(r: Triple, bound: Triple) {
    r[0] == bound[0] && (r[1] < bound[1] || (r[1] == bound[1] && r[2] <= bound[2]))
  }

  lemma CompareOfTriples(r: Triple, bound: Triple)
    ensures r[0] == bound[0] && Compare(r, bound) <= 0 <==> Within(r, bound)
  {
    assert Compare(r[1..][1..][1..], bound[1..][1..][1..]) == 0;
    assert Compare(r[1..][1..], bound[1..][1..]) <= 0 <==> r[2] <= bound[2];
    assert Compare(r[1..], bound[1..]) <= 0 <==> r[1] < bound[1] || (r[1] == bound[1] && r[2] <= bound[2]);
  }

  /** What is admitted is closed downward within the major. */
  lemma WithinGoesDown(r: Triple, q: Triple, bound: Triple)
    requires Within(r, bound) && q[0] == r[0] && Compare(q, r) <= 0
    ensures Within(q, bound)
  {
    CompareOfTriples(q, r);
  }

  datatype ReleaseProblem = NotARelease | Later

  /** What the lock says of a version: nothing for a provider without a bound, or
      for a release of the bound's major that is no later. */
  ghost predicate VersionAdmitted(bound: Option<Triple>, version: string) {
    bound.Some? ==> exists r: Triple :: InRange(r) && version == Print(r) && Within(r, bound.value)
  }

  method VersionProblem(bound: Option<Triple>, version: string) returns (problem: Option<ReleaseProblem>)
    requires bound.Some? ==> InRange(bound.value)
    ensures problem.None? <==> VersionAdmitted(bound, version)
    ensures problem == Some(NotARelease) <==>
            bound.Some? && forall r: Triple :: InRange(r) ==> version != Print(r)
  {
    if bound.None? {
      return None;
    }
    var table := bound.value;
    var locked, ok := ParseRelease(version);
    if !ok {
      return Some(NotARelease);
    }
    CompareOfTriples(locked, table);
    if locked[0] != table[0] || Compare(locked, table) > 0 {
      forall r: Triple | InRange(r) && version == Print(r) ensures !Within(r, table) {
        PrintIsInjective(r, locked);
      }
      return Some(Later);
    }
    problem := None;
  }

  // ----- The lock -----

  /** A lock entry the gate can read, or one it refuses. */
  datatype Entry = Entry(typ: string, version: string) | Unreadable

  /** The provider types whose arguments the gate's path table names, and the
      releases it speaks for. */
  predicate Bounds(bounds: map<string, Triple>) {
    forall typ :: typ in bounds ==> InRange(bounds[typ])
  }

  const BOUNDS: map<string, Triple> := map["aws" := [5, 100, 0], "local" := [2, 9, 1], "archive" := [2, 8, 1]]

  function BoundOf(bounds: map<string, Triple>, typ: string): Option<Triple> {
    if typ in bounds then Some(bounds[typ]) else None
  }

  /** No entry is refused, no provider is pinned at two versions, a version is
      one its provider's bound admits, and aws is there. */
  ghost predicate LockAdmitted(bounds: map<string, Triple>, attributes: nat, entries: seq<Entry>) {
    && attributes == 0
    && (forall e :: e in entries ==> e.Entry?)
    && (forall e, f :: e in entries && f in entries && e.Entry? && f.Entry? && e.typ == f.typ ==> e.version == f.version)
    && (forall e :: e in entries && e.Entry? ==> VersionAdmitted(BoundOf(bounds, e.typ), e.version))
    && (exists e :: e in entries && e.Entry? && e.typ == "aws")
  }

  datatype LockProblem = AttributeInLock | EntryRefused | VersionsDiffer(typ: string) | VersionRefused(typ: string) | NoAws

  /** All the versions the entries pin a type at. */
  function Pinned(entries: seq<Entry>, typ: string): set<string> {
    set e | e in entries && e.Entry? && e.typ == typ :: e.version
  }

  lemma PinnedSnoc(entries: seq<Entry>, e: Entry, typ: string)
    ensures Pinned(entries + [e], typ) == Pinned(entries, typ) + if e.Entry? && e.typ == typ then {e.version} else {}
  {
    var all := entries + [e];
    forall v | v in Pinned(entries, typ) ensures v in Pinned(all, typ) {
      var f :| f in entries && f.Entry? && f.typ == typ && f.version == v;
      assert f in all;
    }
    assert e in all;
  }

  /** What the lock's entries come to: every version of each type, and the last. */
  ghost predicate Gathered(entries: seq<Entry>, all: map<string, set<string>>, versions: map<string, string>) {
    versions.Keys == all.Keys && forall typ :: GatheredOf(Pinned(entries, typ), all, versions, typ)
  }

  predicate GatheredOf(pinned: set<string>, all: map<string, set<string>>, versions: map<string, string>, typ: string) {
    && (typ in all <==> pinned != {})
    && (typ in all ==> typ in versions && all[typ] == pinned && versions[typ] in pinned)
  }

  function Plus(all: map<string, set<string>>, typ: string, version: string): map<string, set<string>> {
    all[typ := (if typ in all then all[typ] else {}) + {version}]
  }

  lemma GatherOne(entries: seq<Entry>, all: map<string, set<string>>, versions: map<string, string>, e: Entry)
    requires Gathered(entries, all, versions)
    ensures if e.Unreadable? then Gathered(entries + [e], all, versions)
            else Gathered(entries + [e], Plus(all, e.typ, e.version), versions[e.typ := e.version])
  {
    var all' := if e.Unreadable? then all else Plus(all, e.typ, e.version);
    var versions' := if e.Unreadable? then versions else versions[e.typ := e.version];
    forall typ ensures GatheredOf(Pinned(entries + [e], typ), all', versions', typ) {
      PinnedSnoc(entries, e, typ);
      assert GatheredOf(Pinned(entries, typ), all, versions, typ);
    }
  }

  ghost predicate Readable(entries: seq<Entry>) {
    forall e :: e in entries ==> e.Entry?
  }

  /** The first pass over the lock, entry by entry. */
  method Gather(attributes: nat, entries: seq<Entry>)
      returns (all: map<string, set<string>>, versions: map<string, string>, problems: seq<LockProblem>)
    ensures Gathered(entries, all, versions)
    ensures problems == [] <==> attributes == 0 && Readable(entries)
  {
    problems := seq(attributes, _ => AttributeInLock);
    versions, all := map[], map[];
    for i := 0 to |entries|
      invariant problems == [] <==> attributes == 0 && Readable(entries[..i])
      invariant Gathered(entries[..i], all, versions)
    {
      assert entries[..i + 1] == entries[..i] + [entries[i]];
      GatherOne(entries[..i], all, versions, entries[i]);
      assert Readable(entries[..i + 1]) <==> Readable(entries[..i]) && entries[i].Entry?;
      match entries[i]
      case Unreadable =>
        problems := problems + [EntryRefused];
      case Entry(typ, version) =>
        all := Plus(all, typ, version);
        versions := versions[typ := version];
    }
    assert entries[..|entries|] == entries;
  }

  /** One type's entries are in order: they pin one version, which is admitted. */
  ghost predicate TypeAdmitted(bounds: map<string, Triple>, typ: string, versions: set<string>, version: string) {
    versions == {version} && VersionAdmitted(BoundOf(bounds, typ), version)
  }

  method TypeProblem(bounds: map<string, Triple>, typ: string, versions: set<string>, version: string)
      returns (problem: Option<LockProblem>)
    requires Bounds(bounds) && version in versions
    ensures problem.None? <==> TypeAdmitted(bounds, typ, versions, version)
  {
    assert versions == (versions - {version}) + {version};
    if |versions| > 1 {
      return Some(VersionsDiffer(typ));
    }
    assert versions - {version} == {};
    var why := VersionProblem(BoundOf(bounds, typ), version);
    problem := if why.None? then None else Some(VersionRefused(typ));
  }

  /** The lock's pass: no problem exactly when the lock is admitted, and then
      each type's version is the one all its entries pin. */
  method Lock(bounds: map<string, Triple>, attributes: nat, entries: seq<Entry>)
      returns (versions: map<string, string>, problems: seq<LockProblem>)
    requires Bounds(bounds) && forall e :: e in entries && e.Entry? ==> e.version != ""
    ensures problems == [] <==> LockAdmitted(bounds, attributes, entries)
    ensures problems == [] ==> forall e :: e in entries && e.Entry? ==> e.typ in versions && versions[e.typ] == e.version
    ensures problems == [] ==> VersionsAdmitted(bounds, versions) && "aws" in versions
  {
    var all;
    all, versions, problems := Gather(attributes, entries);
    var todo := all.Keys;
    ghost var read := problems == [];
    while todo != {}
      invariant todo <= all.Keys
      invariant problems == [] <==>
                read && forall typ :: typ in all && typ !in todo ==> TypeAdmitted(bounds, typ, all[typ], versions[typ])
      decreases |todo|
    {
      var typ :| typ in todo;
      todo := todo - {typ};
      assert GatheredOf(Pinned(entries, typ), all, versions, typ);
      var problem := TypeProblem(bounds, typ, all[typ], versions[typ]);
      if problem.Some? {
        problems := problems + [problem.value];
      }
    }
    AdmittedByType(bounds, attributes, entries, all, versions);
    if "aws" !in versions || versions["aws"] == "" {
      problems := problems + [NoAws];
    }
  }

  ghost predicate VersionsAdmitted(bounds: map<string, Triple>, versions: map<string, string>) {
    forall typ :: typ in versions ==> VersionAdmitted(BoundOf(bounds, typ), versions[typ])
  }

  lemma AdmittedByType(
    bounds: map<string, Triple>, attributes: nat, entries: seq<Entry>, all: map<string, set<string>>, versions: map<string, string>)
    requires Gathered(entries, all, versions) && forall e :: e in entries && e.Entry? ==> e.version != ""
    ensures LockAdmitted(bounds, attributes, entries) <==>
            && attributes == 0 && Readable(entries)
            && (forall typ :: typ in all ==> TypeAdmitted(bounds, typ, all[typ], versions[typ]))
            && "aws" in versions && versions["aws"] != ""
    ensures (forall typ :: typ in all ==> TypeAdmitted(bounds, typ, all[typ], versions[typ])) ==>
              forall e :: e in entries && e.Entry? ==> e.typ in versions && versions[e.typ] == e.version
  {
    forall e | e in entries && e.Entry? ensures e.typ in all && e.version in all[e.typ] {
      assert e.version in Pinned(entries, e.typ);
      assert GatheredOf(Pinned(entries, e.typ), all, versions, e.typ);
    }
    forall typ | typ in all ensures versions[typ] in all[typ] {
      assert GatheredOf(Pinned(entries, typ), all, versions, typ);
    }
    forall typ, v | typ in all && v in all[typ] ensures Entry(typ, v) in entries {
      assert GatheredOf(Pinned(entries, typ), all, versions, typ);
      assert v in Pinned(entries, typ);
    }
    if LockAdmitted(bounds, attributes, entries) {
      forall typ | typ in all ensures TypeAdmitted(bounds, typ, all[typ], versions[typ]) {
        assert Entry(typ, versions[typ]) in entries;
        assert forall v :: v in all[typ] ==> Entry(typ, v) in entries;
      }
      var e :| e in entries && e.Entry? && e.typ == "aws";
      assert Entry("aws", versions["aws"]) in entries;
    }
    if "aws" in versions {
      assert Entry("aws", versions["aws"]) in entries;
    }
  }

  /** One release of aws, 5.100.0 or before, and providers without a bound, each at one version. */
  ghost predicate AwsAlone(entries: seq<Entry>) {
    && (exists e :: e in entries && e.Entry? && e.typ == "aws")
    && (forall e, f :: e in entries && f in entries && e.Entry? && f.Entry? && e.typ == f.typ ==> e.version == f.version)
    && forall e :: e in entries ==>
         e.Entry? && (e.typ == "aws" || e.typ !in BOUNDS) && (e.typ == "aws" ==> AwsRelease(e.version))
  }

  ghost predicate AwsRelease(version: string) {
    exists r: Triple :: InRange(r) && version == Print(r) && r[0] == 5 && (r[1] < 100 || (r[1] == 100 && r[2] == 0))
  }

  /** The lock against the table the gate has: what passes pins aws, at a 5.x
      release no later than the one the table speaks for. */
  method GateLock(attributes: nat, entries: seq<Entry>) returns (versions: map<string, string>, problems: seq<LockProblem>)
    requires forall e :: e in entries && e.Entry? ==> e.version != ""
    ensures problems == [] <==> LockAdmitted(BOUNDS, attributes, entries)
    ensures problems == [] ==>
              "aws" in versions && exists r: Triple ::
                InRange(r) && versions["aws"] == Print(r) && r[0] == 5 && (r[1] < 100 || (r[1] == 100 && r[2] == 0))
    // Any such release of aws alone passes, and so does a provider without a bound beside it.
    ensures attributes == 0 && AwsAlone(entries) ==> problems == []
  {
    versions, problems := Lock(BOUNDS, attributes, entries);
    assert BoundOf(BOUNDS, "aws") == Some([5, 100, 0]);
  }

  // ----- What an init may change -----

  datatype Change = Change(typ: string, from: string, to: string)

  function VersionIn(versions: map<string, string>, typ: string): string {
    if typ in versions then versions[typ] else ""
  }

  function Named(from: string): string {
    if from == "" then "none" else from
  }

  /** The types of a lock, in order. */
  method SortedTypes(versions: map<string, string>) returns (types: seq<string>)
    ensures Sorted(types) && Distinct(types) && forall typ :: typ in types <==> typ in versions
  {
    types := [];
    var todo := versions.Keys;
    while todo != {}
      invariant todo <= versions.Keys && Distinct(types)
      invariant forall typ :: typ in types <==> typ in versions && typ !in todo
      decreases |todo|
    {
      var typ :| typ in todo;
      todo := todo - {typ};
      types := types + [typ];
    }
    SortKeeps(types);
    types := Sort(types);
  }

  predicate Changed(before: map<string, string>, after: map<string, string>, c: Change) {
    && c.typ in after && VersionIn(before, c.typ) != after[c.typ]
    && c == Change(c.typ, Named(VersionIn(before, c.typ)), after[c.typ])
  }

  lemma Earlier(types: seq<string>, n: nat, typ: string)
    requires Sorted(types) && Distinct(types) && n < |types| && typ in types[..n]
    ensures typ != types[n] && Leq(typ, types[n])
  {
    var k :| 0 <= k < n && types[k] == typ;
  }

  /** Every type pinned afterwards at another version than before, once, in order of type. */
  method LockChanges(before: map<string, string>, after: map<string, string>) returns (changes: seq<Change>)
    ensures forall c :: c in changes <==> Changed(before, after, c)
    ensures forall i, j :: 0 <= i < j < |changes| ==> changes[i].typ != changes[j].typ && Leq(changes[i].typ, changes[j].typ)
  {
    changes := [];
    var types := SortedTypes(after);
    for n := 0 to |types|
      invariant forall c :: c in changes <==> Changed(before, after, c) && c.typ in types[..n]
      invariant forall i, j :: 0 <= i < j < |changes| ==> changes[i].typ != changes[j].typ && Leq(changes[i].typ, changes[j].typ)
    {
      var typ := types[n];
      var from, to := VersionIn(before, typ), after[typ];
      assert types[..n + 1] == types[..n] + [typ];
      if from != to {
        forall i | 0 <= i < |changes| ensures changes[i].typ != typ && Leq(changes[i].typ, typ) {
          assert changes[i] in changes;
          Earlier(types, n, changes[i].typ);
        }
        changes := changes + [Change(typ, Named(from), to)];
      }
    }
    assert types[..|types|] == types;
  }

  /** An init that changes nothing by that measure pins nothing the first lock
      did not admit. */
  method InitKeepsTheLock(bounds: map<string, Triple>, before: map<string, string>, after: map<string, string>)
      returns (changes: seq<Change>)
    requires forall typ :: typ in after ==> after[typ] != ""
    ensures changes == [] <==> forall typ :: typ in after ==> typ in before && before[typ] == after[typ]
    ensures changes == [] && VersionsAdmitted(bounds, before) ==> VersionsAdmitted(bounds, after)
  {
    changes := LockChanges(before, after);
    if changes == [] {
      forall typ | typ in after ensures typ in before && before[typ] == after[typ] {
        assert !Changed(before, after, Change(typ, Named(VersionIn(before, typ)), after[typ]));
      }
    } else {
      assert Changed(before, after, changes[0]);
    }
  }
}
