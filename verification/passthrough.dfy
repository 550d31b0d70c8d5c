/** The rehearsal's passthrough arguments, against the grammar tofu reads them by. */
module Passthrough {
  import opened Wrappers

  // ----- The grammar of Go's flag package -----

  /** The flags a command defines: bools, which need no value, and the rest. */
  datatype FlagSet = FlagSet(bools: set<string>, values: set<string>)

  datatype Flag = Flag(name: string, value: Option<string>)

  datatype Parsed = Parsed(flags: seq<Flag>, rest: seq<string>) | Bad

  /** Text before the first '=', and after it when there is one. */
  function Cut(s: string): (r: (string, Option<string>))
    ensures '=' !in r.0
    ensures s == if r.1.Some? then r.0 + "=" + r.1.value else r.0
  {
    if s == "" then ("", None)
    else if s[0] == '=' then ("", Some(s[1..]))
    else
      var (name, value) := Cut(s[1..]);
      ([s[0]] + name, value)
  }

  function Prepend(flags: seq<Flag>, p: Parsed): Parsed {
    if p.Bad? then Bad else Parsed(flags + p.flags, p.rest)
  }

  /** What one step of the parser makes of the first arguments: a flag, written
      in `count` of them; the end of the flags; or an error. */
  datatype Step = Take(flag: Flag, count: nat) | Stop(rest: seq<string>) | Wrong

  /** FlagSet.parseOne. */
  function ParseOne(fs: FlagSet, args: seq<string>): (step: Step)
    ensures step.Take? ==> 0 < step.count <= |args|
  {
    if args == [] || |args[0]| < 2 || args[0][0] != '-' then Stop(args)
    else if args[0] == "--" then Stop(args[1..])
    else
      var body := if args[0][1] == '-' then args[0][2..] else args[0][1..];
      if body == "" || body[0] == '-' || body[0] == '=' then Wrong
      else
        var (name, value) := Cut(body);
        if name in fs.bools then Take(Flag(name, value), 1)
        else if name !in fs.values then Wrong
        else if value.Some? then Take(Flag(name, value), 1)
        else if |args| == 1 then Wrong
        else Take(Flag(name, Some(args[1])), 2)
  }

  /** FlagSet.Parse: flags up to the first argument that is not one, or to "--". */
  function Parse(fs: FlagSet, args: seq<string>): Parsed
    decreases |args|
  {
    match ParseOne(fs, args)
    case Take(flag, count) => Prepend([flag], Parse(fs, args[count..]))
    case Stop(rest) => Parsed([], rest)
    case Wrong => Bad
  }

  /** A command that defines more flags, and these ones alike. */
  predicate Extends(tofu: FlagSet, fs: FlagSet) {
    fs.bools <= tofu.bools && fs.values <= tofu.values && fs.values !! tofu.bools
  }

  /** Arguments that parse under the flags allowed parse to the same flags and
      the same positionals under all that tofu defines. */
  lemma {:induction false} ParsesTheSame(tofu: FlagSet, fs: FlagSet, args: seq<string>)
    requires Extends(tofu, fs) && Parse(fs, args).Parsed?
    ensures Parse(tofu, args) == Parse(fs, args)
    decreases |args|
  {
    var step := ParseOne(fs, args);
    assert ParseOne(tofu, args) == step;
    if step.Take? {
      ParsesTheSame(tofu, fs, args[step.count..]);
    }
  }

  /** Every flag a parse yields is defined, and one that takes a value has one. */
  lemma {:induction false} ParsesDefined(fs: FlagSet, args: seq<string>)
    requires Parse(fs, args).Parsed?
    ensures forall f :: f in Parse(fs, args).flags ==> f.name in fs.bools || (f.name in fs.values && f.value.Some?)
    decreases |args|
  {
    var step := ParseOne(fs, args);
    if step.Take? {
      ParsesDefined(fs, args[step.count..]);
    }
  }

  lemma PrependPrepend(a: seq<Flag>, b: seq<Flag>, p: Parsed)
    ensures Prepend(a, Prepend(b, p)) == Prepend(a + b, p)
  {
    if p.Parsed? {
      assert a + (b + p.flags) == a + b + p.flags;
    }
  }

  // ----- Writing a flag -----

  function Written(f: Flag): string {
    "-" + f.name + if f.value.Some? then "=" + f.value.value else ""
  }

  predicate Writable(fs: FlagSet, f: Flag) {
    f.value.Some? && f.name != "" && f.name[0] != '-' && '=' !in f.name && f.name in fs.bools + fs.values
  }

  lemma {:induction false} CutWritten(name: string, value: string)
    requires '=' !in name
    ensures Cut(name + "=" + value) == (name, Some(value))
    decreases |name|
  {
    var s := name + "=" + value;
    if name == "" {
      assert s[0] == '=' && s[1..] == value;
    } else {
      assert s[1..] == name[1..] + "=" + value;
      CutWritten(name[1..], value);
      assert name == [s[0]] + name[1..];
    }
  }

  /** A flag written with its value, before any arguments, parses to itself and
      leaves the parse of the others alone. */
  lemma WrittenParses(fs: FlagSet, f: Flag, args: seq<string>)
    requires Writable(fs, f)
    ensures Parse(fs, [Written(f)] + args) == Prepend([f], Parse(fs, args))
  {
    var all := [Written(f)] + args;
    var s := Written(f);
    var body := f.name + "=" + f.value.value;
    assert s == "-" + body;
    assert s[0] == '-' && s[1..] == body && s[1] == f.name[0];
    CutWritten(f.name, f.value.value);
    assert ParseOne(fs, all) == Take(f, 1);
    assert all[1..] == args;
  }

  // ----- The check -----

  /** What the check lets through: what Go's parser takes under the allowed
      flags, unless the first positional is a lone dash, or an out value is
      refused. */
  ghost predicate Admitted(fs: FlagSet, refusedOuts: set<string>, args: seq<string>) {
    var p := Parse(fs, args);
    && p.Parsed?
    && (p.rest == [] || p.rest[0] != "-")
    && OutsPass(refusedOuts, p.flags)
  }

  ghost predicate OutsPass(refusedOuts: set<string>, flags: seq<Flag>) {
    forall f :: f in flags && f.name == "out" && f.value.Some? ==> f.value.value !in refusedOuts
  }

  /** How far the check has come, and what the parser makes of it: `tail` is
      its parse of the arguments still to come. */
  ghost predicate Read(whole: Parsed, args: seq<string>, i: nat, flags: seq<Flag>, positionals: seq<string>, tail: Parsed) {
    && i <= |args|
    && |positionals| <= i
    && positionals == args[i - |positionals|..i]
    && whole == Prepend(flags, if positionals == [] then tail else Parsed([], args[i - |positionals|..]))
    && (positionals != [] ==> !Dashed(positionals[0]))
  }

  predicate Dashed(arg: string) {
    arg != "" && arg[0] == '-'
  }

  function TrimDash(s: string): string {
    if Dashed(s) then s[1..] else s
  }

  /** One flag, and how many arguments it is written in; none when it is refused. */
  method ReadFlag(fs: FlagSet, refusedOuts: set<string>, args: seq<string>, i: nat) returns (n: nat, ghost f: Flag)
    requires i < |args| && Dashed(args[i]) && args[i] != "--" && "out" !in fs.bools
    ensures var step := ParseOne(fs, args[i..]);
            if n == 0 then args[i] == "-" || step.Wrong? || (step.Take? && step.flag == f && !OutsPass(refusedOuts, [f]))
            else i + n <= |args| && step == Take(f, n) && OutsPass(refusedOuts, [f])
  {
    var arg := args[i];
    var (name, given) := Cut(TrimDash(TrimDash(arg)));
    NextStep(fs, args, i);
    f := Flag(name, given);
    if name == "" || Dashed(name) {
      n := 0;
    } else if name in fs.bools {
      n := 1;
    } else if name !in fs.values || (given.None? && i + 1 == |args|) {
      n := 0;
    } else {
      var value := if given.Some? then given.value else args[i + 1];
      f := Flag(name, Some(value));
      n := if name == "out" && value in refusedOuts then 0 else if given.Some? then 1 else 2;
    }
  }

  /** One turn of the check's loop. */
  method ReadArg(
    fs: FlagSet, refusedOuts: set<string>, args: seq<string>, i: nat, positionals: seq<string>, ghost flags: seq<Flag>)
      returns (ok: bool, next: nat, positionals': seq<string>, ghost flags': seq<Flag>)
    requires i < |args| && args[i] != "--" && "out" !in fs.bools && ReadTo(fs, refusedOuts, args, i, flags, positionals)
    ensures if ok then i < next <= |args| && ReadTo(fs, refusedOuts, args, next, flags', positionals')
            else !Admitted(fs, refusedOuts, args)
  {
    if positionals != [] || !Dashed(args[i]) {
      PositionalRead(fs, refusedOuts, args, i, flags, positionals);
      return true, i + 1, positionals + [args[i]], flags;
    }
    ghost var f;
    var n: nat;
    n, f := ReadFlag(fs, refusedOuts, args, i);
    if n == 0 {
      RefusedHere(fs, refusedOuts, args, i, flags, f);
    } else {
      FlagRead(fs, refusedOuts, args, i, flags, f, n);
    }
    return n > 0, i + n, positionals, flags + [f];
  }

  /** The check admits exactly what is Admitted, and returns the positionals
      Go's parser leaves. */
  method Check(fs: FlagSet, refusedOuts: set<string>, args: seq<string>) returns (r: Option<seq<string>>)
    requires "--" !in args && "out" !in fs.bools
    ensures r.Some? <==> Admitted(fs, refusedOuts, args)
    ensures r.Some? ==> r.value == Parse(fs, args).rest
  {
    var positionals: seq<string> := [];
    var i := 0;
    ghost var flags: seq<Flag> := [];
    BeginRead(fs, refusedOuts, args);
    while i < |args|
      invariant 0 <= i <= |args| && ReadTo(fs, refusedOuts, args, i, flags, positionals)
      decreases |args| - i
    {
      var ok;
      ok, i, positionals, flags := ReadArg(fs, refusedOuts, args, i, positionals, flags);
      if !ok {
        return None;
      }
    }
    EndRead(fs, refusedOuts, args, flags, positionals);
    r := Some(positionals);
  }

  ghost predicate ReadTo(
    fs: FlagSet, refusedOuts: set<string>, args: seq<string>, i: nat, flags: seq<Flag>, positionals: seq<string>)
    requires i <= |args|
  {
    Read(Parse(fs, args), args, i, flags, positionals, Parse(fs, args[i..])) && OutsPass(refusedOuts, flags)
  }

  lemma BeginRead(fs: FlagSet, refusedOuts: set<string>, args: seq<string>)
    ensures ReadTo(fs, refusedOuts, args, 0, [], [])
  {
    assert args[0..] == args;
  }

  lemma EndRead(fs: FlagSet, refusedOuts: set<string>, args: seq<string>, flags: seq<Flag>, positionals: seq<string>)
    requires ReadTo(fs, refusedOuts, args, |args|, flags, positionals)
    ensures Admitted(fs, refusedOuts, args) && Parse(fs, args).rest == positionals
  {
    assert args[|args|..] == [];
    assert flags + [] == flags;
  }

  /** The parser's next step, in the check's terms. */
  lemma NextStep(fs: FlagSet, args: seq<string>, i: nat)
    requires i < |args| && Dashed(args[i]) && args[i] != "--"
    ensures var (name, given) := Cut(TrimDash(TrimDash(args[i])));
            ParseOne(fs, args[i..]) ==
            if args[i] == "-" then Stop(args[i..])
            else if name == "" || Dashed(name) then Wrong
            else if name in fs.bools then Take(Flag(name, given), 1)
            else if name !in fs.values then Wrong
            else if given.Some? then Take(Flag(name, given), 1)
            else if i + 1 == |args| then Wrong
            else Take(Flag(name, Some(args[i + 1])), 2)
    ensures args[i] == "-" ==> Cut(TrimDash(TrimDash(args[i]))).0 == ""
  {
    var s := args[i];
    if |s| >= 2 {
      var body := if s[1] == '-' then s[2..] else s[1..];
      assert TrimDash(s) == s[1..];
      assert s[1] == '-' ==> s[1..][1..] == s[2..];
      assert s[1] == '-' && |s| == 2 ==> s == "--";
      var (name, given) := Cut(body);
      assert body != "" && name != "" ==> name[0] == body[0];
    }
  }

  lemma PositionalRead(
    fs: FlagSet, refusedOuts: set<string>, args: seq<string>, i: nat, flags: seq<Flag>, positionals: seq<string>)
    requires i < |args| && ReadTo(fs, refusedOuts, args, i, flags, positionals)
    requires positionals == [] ==> !Dashed(args[i])
    ensures ReadTo(fs, refusedOuts, args, i + 1, flags, positionals + [args[i]])
  {
    if positionals == [] {
      StopsHere(fs, args, i);
    }
    ReadOn(Parse(fs, args), args, i, flags, positionals, Parse(fs, args[i..]), Parse(fs, args[i + 1..]));
  }

  lemma StopsHere(fs: FlagSet, args: seq<string>, i: nat)
    requires i < |args| && !Dashed(args[i])
    ensures Parse(fs, args[i..]) == Parsed([], args[i..])
  {
    assert args[i..][0] == args[i];
  }

  lemma ReadOn(whole: Parsed, args: seq<string>, i: nat, flags: seq<Flag>, positionals: seq<string>, tail: Parsed, next: Parsed)
    requires i < |args| && Read(whole, args, i, flags, positionals, tail)
    requires positionals == [] ==> tail == Parsed([], args[i..]) && !Dashed(args[i])
    ensures Read(whole, args, i + 1, flags, positionals + [args[i]], next)
  {
    assert args[i - |positionals|..i] + [args[i]] == args[i - |positionals|..i + 1];
  }

  lemma FlagRead(fs: FlagSet, refusedOuts: set<string>, args: seq<string>, i: nat, flags: seq<Flag>, f: Flag, n: nat)
    requires i + n <= |args| && ReadTo(fs, refusedOuts, args, i, flags, [])
    requires ParseOne(fs, args[i..]) == Take(f, n) && OutsPass(refusedOuts, [f])
    ensures ReadTo(fs, refusedOuts, args, i + n, flags + [f], [])
  {
    assert args[i..][n..] == args[i + n..];
    PrependPrepend(flags, [f], Parse(fs, args[i + n..]));
    assert f in [f];
  }

  lemma RefusedHere(fs: FlagSet, refusedOuts: set<string>, args: seq<string>, i: nat, flags: seq<Flag>, f: Flag)
    requires i < |args| && ReadTo(fs, refusedOuts, args, i, flags, [])
    requires var step := ParseOne(fs, args[i..]);
             args[i] == "-" || step.Wrong? || (step.Take? && step.flag == f && !OutsPass(refusedOuts, [f]))
    ensures !Admitted(fs, refusedOuts, args)
  {
    var step := ParseOne(fs, args[i..]);
    if step.Take? {
      var tail := Parse(fs, args[i..][step.count..]);
      PrependPrepend(flags, [f], tail);
      assert tail.Parsed? ==> f in Parse(fs, args).flags;
    }
  }

  // ----- The whole command line -----

  datatype Action = Action(words: seq<string>, flags: FlagSet, positionals: nat, inject: bool)

  datatype VarFile = NoFile | At(path: string) | Unknown

  datatype Argv = Argv(argv: seq<string>) | Refused

  /** -input=false, then the var file when there is one. */
  function Injected(a: Action, file: VarFile): seq<Flag> {
    if !a.inject then []
    else [Flag("input", Some("false"))] + if file.At? then [Flag("var-file", Some(file.path))] else []
  }

  function WriteAll(flags: seq<Flag>): seq<string> {
    if flags == [] then [] else [Written(flags[0])] + WriteAll(flags[1..])
  }

  lemma WriteAllHead(flags: seq<Flag>, args: seq<string>)
    requires flags != []
    ensures WriteAll(flags) + args == [Written(flags[0])] + (WriteAll(flags[1..]) + args)
  {
  }

  lemma {:induction false} AllWrittenParse(fs: FlagSet, flags: seq<Flag>, args: seq<string>)
    requires forall f :: f in flags ==> Writable(fs, f)
    ensures Parse(fs, WriteAll(flags) + args) == Prepend(flags, Parse(fs, args))
    decreases |flags|
  {
    if flags == [] {
      assert WriteAll(flags) + args == args;
    } else {
      var rest := WriteAll(flags[1..]) + args;
      AllWrittenParse(fs, flags[1..], args);
      WriteAllHead(flags, args);
      WrittenParses(fs, flags[0], rest);
      assert flags == [flags[0]] + flags[1..];
      PrependPrepend([flags[0]], flags[1..], Parse(fs, args));
    }
  }

  /** What the command line is when it is let through: the action's words, what
      is injected, and the user's arguments as written. */
  ghost predicate LetThrough(a: Action, file: VarFile, refusedOuts: set<string>, args: seq<string>) {
    && "--" !in args
    && Admitted(a.flags, refusedOuts, args)
    && |Parse(a.flags, args).rest| == a.positionals
    && (a.inject ==> !file.Unknown?)
  }

  method PassthroughArgs(a: Action, file: VarFile, refusedOuts: set<string>, args: seq<string>) returns (r: Argv)
    requires "out" !in a.flags.bools
    ensures r.Argv? <==> LetThrough(a, file, refusedOuts, args)
    ensures r.Argv? ==> r.argv == a.words + WriteAll(Injected(a, file)) + args
  {
    if "--" in args {
      return Refused;
    }
    var positionals := Check(a.flags, refusedOuts, args);
    if positionals.None? || |positionals.value| != a.positionals {
      return Refused;
    }
    var argv := a.words;
    if a.inject {
      if file.Unknown? {
        return Refused;
      }
      argv := argv + WriteAll(Injected(a, file));
    }
    r := Argv(argv + args);
  }

  /** The parser as a whole: a flag whose value its type does not take is an error too. */
  function ParseValues(fs: FlagSet, takes: Flag -> bool, args: seq<string>): Parsed {
    var p := Parse(fs, args);
    if p.Parsed? && forall f :: f in p.flags ==> takes(f) then p else Bad
  }

  /** By the flag grammar a command line that is let through is the flags injected,
      then the user's flags, each of them on the action's list, and the positionals
      the check counted; or it is refused, exactly for a value a flag does not take. */
  lemma ParserReads(
    a: Action, tofu: FlagSet, takes: Flag -> bool, file: VarFile, refusedOuts: set<string>, args: seq<string>)
    requires LetThrough(a, file, refusedOuts, args) && Extends(tofu, a.flags)
    requires a.inject ==> "input" in tofu.bools && "var-file" in tofu.values
    ensures var user := Parse(a.flags, args);
            var argv := WriteAll(Injected(a, file)) + args;
            && Parse(tofu, argv) == Parsed(Injected(a, file) + user.flags, user.rest)
            && ParseValues(tofu, takes, argv) ==
               (if forall f :: f in Injected(a, file) + user.flags ==> takes(f) then Parse(tofu, argv) else Bad)
            && |user.rest| == a.positionals
            && forall f :: f in user.flags ==> f.name in a.flags.bools + a.flags.values
  {
    ParsesTheSame(tofu, a.flags, args);
    ParsesDefined(a.flags, args);
    AllWrittenParse(tofu, Injected(a, file), args);
  }

  // ----- The allowlist -----

  const TALK := {"lock", "no-color", "compact-warnings", "consolidate-warnings", "consolidate-errors"}

  /** Every passthrough action. */
  function ActionNamed(name: string): Option<Action> {
    match name
    case "plan" =>
      Some(Action(["plan"],
                  FlagSet(TALK + {"destroy", "refresh-only", "refresh", "detailed-exitcode", "concise"},
                          {"out", "target", "exclude", "replace", "lock-timeout", "parallelism"}), 0, true))
    case "apply" =>
      Some(Action(["apply"],
                  FlagSet(TALK + {"auto-approve", "refresh-only", "refresh", "concise"},
                          {"target", "exclude", "replace", "lock-timeout", "parallelism"}), 0, true))
    case "destroy" =>
      Some(Action(["destroy"],
                  FlagSet(TALK + {"auto-approve", "refresh", "concise"},
                          {"target", "exclude", "lock-timeout", "parallelism"}), 0, true))
    case "import" => Some(Action(["import"], FlagSet(TALK, {"lock-timeout"}), 2, true))
    case "state mv" => Some(Action(["state", "mv"], FlagSet({"dry-run", "lock"}, {"lock-timeout"}), 2, false))
    case _ => None
  }

  /** No action lets the user set what is injected, and none takes `out` without a value. */
  lemma InjectedIsNotTheUsers(name: string)
    requires ActionNamed(name).Some?
    ensures var fs := ActionNamed(name).value.flags;
            && "input" !in fs.bools + fs.values && "var-file" !in fs.bools + fs.values && "var" !in fs.bools + fs.values
            && "out" !in fs.bools
  {
  }

  /** No flag is both a bool and one that takes a value. */
  lemma KindsAreApart(name: string)
    requires ActionNamed(name).Some?
    ensures ActionNamed(name).value.flags.bools !! ActionNamed(name).value.flags.values
  {
  }

  /** By the flag grammar, what tofu is run with sets input and var-file once, as
      injected: no user flag has those names. */
  lemma InjectedHolds(name: string, tofu: FlagSet, file: VarFile, refusedOuts: set<string>, args: seq<string>)
    requires ActionNamed(name).Some? && ActionNamed(name).value.inject
    requires var a := ActionNamed(name).value;
             LetThrough(a, file, refusedOuts, args) && Extends(tofu, a.flags) && "input" in tofu.bools && "var-file" in tofu.values
    ensures var a := ActionNamed(name).value;
            var p := Parse(tofu, WriteAll(Injected(a, file)) + args);
            && p.Parsed? && !file.Unknown?
            && |p.flags| >= 1 && p.flags[0] == Flag("input", Some("false"))
            && (file.At? ==> |p.flags| >= 2 && p.flags[1] == Flag("var-file", Some(file.path)))
            && forall i :: 0 <= i < |p.flags| ==>
                 && (p.flags[i].name == "input" <==> i == 0)
                 && (p.flags[i].name == "var-file" <==> i == 1 && file.At?)
                 && p.flags[i].name != "var"
  {
    var a := ActionNamed(name).value;
    ParserReads(a, tofu, _ => true, file, refusedOuts, args);
    InjectedIsNotTheUsers(name);
    var user := Parse(a.flags, args).flags;
    var p := Parse(tofu, WriteAll(Injected(a, file)) + args);
    var injected := Injected(a, file);
    InjectedNames();
    assert forall i :: 0 <= i < |injected| ==> p.flags[i] == injected[i];
    forall i | |injected| <= i < |p.flags|
      ensures p.flags[i].name != "input" && p.flags[i].name != "var-file" && p.flags[i].name != "var"
    {
      assert p.flags[i] == user[i - |injected|];
      assert p.flags[i] in user;
    }
  }

  lemma InjectedNames()
    ensures "input" != "var-file" && "input" != "var" && "var-file" != "var"
  {
    assert |"input"| == 5 && |"var"| == 3 && |"var-file"| == 8;
  }

  /** The arguments injected, as they are written. */
  lemma InjectedArgs(a: Action, file: VarFile)
    ensures WriteAll(Injected(a, file)) ==
            if !a.inject then []
            else ["-input=false"] + if file.At? then ["-var-file=" + file.path] else []
  {
    var input := Flag("input", Some("false"));
    if a.inject && file.At? {
      InputWritten();
      VarFileWritten(file.path);
      WrittenPair(input, Flag("var-file", Some(file.path)));
    } else if a.inject {
      InputWritten();
      assert [input][1..] == [];
    }
  }

  lemma WrittenPair(f: Flag, g: Flag)
    ensures WriteAll([f] + [g]) == [Written(f)] + [Written(g)]
  {
    assert ([f] + [g])[1..] == [g] && [g][1..] == [];
    assert WriteAll([g]) == [Written(g)] + WriteAll([]);
  }

  lemma InputWritten()
    ensures Written(Flag("input", Some("false"))) == "-input=false"
  {
    assert "-" + "input" + ("=" + "false") == "-input=false";
  }

  lemma VarFileWritten(path: string)
    ensures Written(Flag("var-file", Some(path))) == "-var-file=" + path
  {
    assert "-" + "var-file" + ("=" + path) == "-var-file=" + path;
  }

  /** A lone dash is a positional to the flag grammar and refused here. */
  lemma LoneDashRefused(fs: FlagSet, refusedOuts: set<string>)
    ensures Parse(fs, ["-"]) == Parsed([], ["-"]) && !Admitted(fs, refusedOuts, ["-"])
  {
  }

  /** Of the arguments whose flags parse and set no out that is refused, the ones
      refused are those in which every argument before a lone dash was read as a
      flag or a flag's value. */
  lemma {:induction false} OnlyLoneDashRefused(fs: FlagSet, refusedOuts: set<string>, args: seq<string>)
    requires "--" !in args && Parse(fs, args).Parsed? && OutsPass(refusedOuts, Parse(fs, args).flags)
    ensures !Admitted(fs, refusedOuts, args) <==>
            exists i :: 0 <= i < |args| && args[i] == "-" && Parse(fs, args).rest == args[i..]
  {
    RestIsTail(fs, args);
    var rest := Parse(fs, args).rest;
    if rest != [] && rest[0] == "-" {
      var i := |args| - |rest|;
      assert args[i] == rest[0];
    }
  }

  /** What a parse without a terminator leaves is the end of what it was given. */
  lemma {:induction false} RestIsTail(fs: FlagSet, args: seq<string>)
    requires "--" !in args && Parse(fs, args).Parsed?
    ensures IsTail(Parse(fs, args).rest, args)
    decreases |args|
  {
    var step := ParseOne(fs, args);
    if step.Take? {
      var tail := args[step.count..];
      assert forall a :: a in tail ==> a in args;
      RestIsTail(fs, tail);
      TailOfTail(args, step.count, Parse(fs, tail).rest);
    } else {
      StopIsWhole(fs, args);
    }
  }

  predicate IsTail(rest: seq<string>, args: seq<string>) {
    |rest| <= |args| && rest == args[|args| - |rest|..]
  }

  lemma StopIsWhole(fs: FlagSet, args: seq<string>)
    requires "--" !in args && ParseOne(fs, args).Stop?
    ensures ParseOne(fs, args).rest == args
  {
    assert args != [] ==> args[0] in args;
  }

  lemma TailOfTail(args: seq<string>, n: nat, rest: seq<string>)
    requires n <= |args| && IsTail(rest, args[n..])
    ensures IsTail(rest, args)
  {
  }
}
