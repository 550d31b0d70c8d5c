/** A stack as its files, override files among them: what tofu makes of them,
    and when the gate's verdict holds of that. */
module AwsFiles {
  import opened Wrappers
  import opened Hcl
  import opened AwsGate
  import opened AwsPlan

  datatype File = File(name: string, blocks: seq<Block>)

  /** A top-level block, and whether its file is an override file. */
  datatype Placed = Placed(block: Block, override: bool)

  predicate HasSuffix(name: string, suffix: string) {
    |suffix| <= |name| && name[|name| - |suffix|..] == suffix
  }

  /** The files tofu merges over the others. */
  predicate IsOverride(name: string) {
    name == "override.tf" || HasSuffix(name, "_override.tf")
  }

  /** The blocks of a stack's files, which come in name order. */
  function Place(files: seq<File>): seq<Placed> {
    if files == [] then []
    else
      var last := files[|files| - 1];
      Place(files[..|files| - 1]) + seq(|last.blocks|, i requires 0 <= i < |last.blocks| => Placed(last.blocks[i], IsOverride(last.name)))
  }

  /** What the gate reads: every block alike, in name order. */
  function Blocks(stack: seq<Placed>): seq<Block> {
    if stack == [] then [] else Blocks(stack[..|stack| - 1]) + [stack[|stack| - 1].block]
  }

  /** The blocks of the override files, or of the others. */
  function Only(stack: seq<Placed>, override: bool): seq<Block> {
    if stack == [] then []
    else Only(stack[..|stack| - 1], override) + if stack[|stack| - 1].override == override then [stack[|stack| - 1].block] else []
  }

  // ----- Merging, as tofu does it -----

  function Without(blocks: seq<Block>, over: seq<Block>): seq<Block> {
    if blocks == [] then []
    else Without(blocks[..|blocks| - 1], over)
         + if HasType(over, blocks[|blocks| - 1].typ) then [] else [blocks[|blocks| - 1]]
  }

  predicate HasType(blocks: seq<Block>, typ: string) {
    exists i :: 0 <= i < |blocks| && blocks[i].typ == typ
  }

  /** An override's attributes win, and its nested blocks replace those of their types. */
  function MergeBody(base: Body, over: Body): Body {
    Body(base.attrs + over.attrs, Without(base.blocks, over.blocks) + over.blocks)
  }

  predicate SameAddress(a: Block, b: Block) {
    a.typ == b.typ && a.labels == b.labels
  }

  /** The last block with o's address. */
  function Find(base: seq<Block>, o: Block): (r: Option<nat>)
    ensures r.Some? ==> r.value < |base| && SameAddress(base[r.value], o)
  {
    if base == [] then None
    else if SameAddress(base[|base| - 1], o) then Some(|base| - 1)
    else Find(base[..|base| - 1], o)
  }

  /** A variable or a resource of an override file merges over the one it names,
      and naming none is an error. Other blocks create nothing here. */
  predicate Merges(o: Block) {
    o.typ == "variable" || o.typ == "resource"
  }

  function MergeBlock(base: Block, o: Block): Block {
    Block(base.typ, base.labels, MergeBody(base.body, o.body))
  }

  function MergeOne(base: seq<Block>, o: Block): Option<seq<Block>> {
    if !Merges(o) then Some(base + [o])
    else
      var i := Find(base, o);
      if i.None? then None else Some(base[i.value := MergeBlock(base[i.value], o)])
  }

  /** The overrides, in name order. */
  function MergeAll(base: seq<Block>, over: seq<Block>): Option<seq<Block>> {
    if over == [] then Some(base)
    else
      var before := MergeAll(base, over[..|over| - 1]);
      if before.None? then None else MergeOne(before.value, over[|over| - 1])
  }

  function Merged(stack: seq<Placed>): Option<seq<Block>> {
    MergeAll(Only(stack, false), Only(stack, true))
  }

  /** Everything the stack creates, or None when evaluating it fails. */
  function PlanStack(stack: seq<Placed>, account: Account): Option<seq<Instance>> {
    var merged := Merged(stack);
    if merged.None? then None else Plan(merged.value, account)
  }

  // ----- Merged blocks stay admitted -----

  lemma {:induction false} CountAppend(a: seq<Block>, b: seq<Block>, t: string)
    ensures CountBlocks(a + b, t) == CountBlocks(a, t) + CountBlocks(b, t)
    decreases |b|
  {
    if b == [] {
      assert a + b == a;
    } else {
      assert (a + b)[..|a + b| - 1] == a + b[..|b| - 1];
      CountAppend(a, b[..|b| - 1], t);
    }
  }

  lemma {:induction false} CountWithout(blocks: seq<Block>, over: seq<Block>, t: string)
    ensures CountBlocks(Without(blocks, over), t) <= if HasType(over, t) then 0 else CountBlocks(blocks, t)
    decreases |blocks|
  {
    if blocks != [] {
      var last := blocks[|blocks| - 1];
      CountWithout(blocks[..|blocks| - 1], over, t);
      CountAppend(Without(blocks[..|blocks| - 1], over), if HasType(over, last.typ) then [] else [last], t);
      assert CountBlocks([last], t) == if last.typ == t then 1 else 0 by {
        assert [last][..0] == [];
      }
    }
  }

  lemma {:induction false} CountsNoType(blocks: seq<Block>, t: string)
    requires !HasType(blocks, t)
    ensures CountBlocks(blocks, t) == 0
    decreases |blocks|
  {
    if blocks != [] {
      var init := blocks[..|blocks| - 1];
      forall i | 0 <= i < |init| ensures init[i].typ != t {
        assert blocks[i].typ != t;
      }
      assert blocks[|blocks| - 1].typ != t;
      CountsNoType(init, t);
    }
  }

  /** Of each type a merged body holds at most as many as one of the two bodies did. */
  lemma CountMerged(base: Body, over: Body, t: string)
    ensures CountBlocks(MergeBody(base, over).blocks, t) <= CountBlocks(over.blocks, t)
            || CountBlocks(MergeBody(base, over).blocks, t) <= CountBlocks(base.blocks, t)
  {
    CountAppend(Without(base.blocks, over.blocks), over.blocks, t);
    CountWithout(base.blocks, over.blocks, t);
    if !HasType(over.blocks, t) {
      CountsNoType(over.blocks, t);
    }
  }

  lemma {:induction false} WithoutFrom(blocks: seq<Block>, over: seq<Block>)
    ensures forall b :: b in Without(blocks, over) ==> b in blocks
    decreases |blocks|
  {
    if blocks != [] {
      WithoutFrom(blocks[..|blocks| - 1], over);
    }
  }

  /** Every nested block of a merged body is one of the two bodies'. */
  lemma MergedFrom(base: Body, over: Body, i: nat)
    requires i < |MergeBody(base, over).blocks|
    ensures var b := MergeBody(base, over).blocks[i];
            (exists k :: 0 <= k < |base.blocks| && base.blocks[k] == b) || (exists k :: 0 <= k < |over.blocks| && over.blocks[k] == b)
  {
    WithoutFrom(base.blocks, over.blocks);
    var b := MergeBody(base, over).blocks[i];
    assert b in Without(base.blocks, over.blocks) || b in over.blocks;
  }

  lemma {:induction false} MergedBodyAdmitted(base: Body, over: Body, rules: Rules, defaults: map<string, Value>, region: string)
    requires BodyAdmitted(base, rules, true, defaults, region) && BodyAdmitted(over, rules, true, defaults, region)
    ensures BodyAdmitted(MergeBody(base, over), rules, true, defaults, region)
  {
    var m := MergeBody(base, over);
    assert AttrsAdmitted(m.attrs, rules, true, defaults, region) by {
      forall a | a in m.attrs ensures AttrAdmitted(a, m.attrs[a], rules, true, defaults, region) {
        if a in over.attrs {
          assert AttrAdmitted(a, over.attrs[a], rules, true, defaults, region);
        } else {
          assert AttrAdmitted(a, base.attrs[a], rules, true, defaults, region);
        }
      }
    }
    forall i | 0 <= i < |m.blocks| ensures NestedAdmitted(m.blocks[i], rules, true, defaults, region) {
      MergedFrom(base, over, i);
    }
    assert MostAdmitted(m.blocks, rules, true) by {
      forall t | Bounded(t, rules, true) ensures CountBlocks(m.blocks, t) <= rules[t].most {
        CountMerged(base, over, t);
      }
    }
  }

  lemma {:induction false} MergedCalls(base: Block, o: Block)
    requires SameAddress(base, o) && CallsAdmitted(base) && CallsAdmitted(o)
    ensures CallsAdmitted(MergeBlock(base, o))
  {
    var m := MergeBlock(base, o);
    forall a | a in m.body.attrs
      ensures (m.typ == "variable" && a == "type") || Exempt(m, a, m.body.attrs[a]) || CallsOnly(m.body.attrs[a], PURE_FUNCTIONS)
    {
      if a in o.body.attrs {
        assert Exempt(m, a, m.body.attrs[a]) == Exempt(o, a, o.body.attrs[a]);
      } else {
        assert Exempt(m, a, m.body.attrs[a]) == Exempt(base, a, base.body.attrs[a]);
      }
    }
    forall i | 0 <= i < |m.body.blocks| ensures CallsAdmitted(m.body.blocks[i]) {
      MergedFrom(base.body, o.body, i);
    }
  }

  lemma {:induction false} MergedNoDenied(base: Block, o: Block)
    requires NoDeniedNested(base) && NoDeniedNested(o)
    ensures NoDeniedNested(MergeBlock(base, o))
  {
    var m := MergeBlock(base, o);
    forall i | 0 <= i < |m.body.blocks|
      ensures m.body.blocks[i].typ !in DENIED_NESTED_BLOCKS && NoDeniedNested(m.body.blocks[i])
    {
      MergedFrom(base.body, o.body, i);
    }
  }

  predicate IsServer(b: Block) {
    b.typ == "resource" && b.labels != [] && b.labels[0] == "aws_instance"
  }

  /** Merging one admitted block over another leaves an admitted block; a server
      is never merged, since the gate counts the override as a second one. */
  lemma {:induction false} MergedAdmitted(base: Block, o: Block, defaults: map<string, Value>, input: Inputs)
    requires SameAddress(base, o) && !IsServer(o)
    requires BlockAdmitted(base, defaults, input) && BlockAdmitted(o, defaults, input)
    ensures BlockAdmitted(MergeBlock(base, o), defaults, input)
  {
    MergedNoDenied(base, o);
    MergedCalls(base, o);
    if base.typ == "resource" {
      MergedBodyAdmitted(base.body, o.body, RulesOf(base.labels[0]).value, defaults, input.region);
    }
  }

  lemma {:induction false} MergeAllAdmitted(base: seq<Block>, over: seq<Block>, defaults: map<string, Value>, input: Inputs)
    requires AllAdmitted(base, defaults, input) && AllAdmitted(over, defaults, input)
    requires MergeAll(base, over).Some? && forall i :: 0 <= i < |over| ==> !IsServer(over[i])
    ensures AllAdmitted(MergeAll(base, over).value, defaults, input)
    decreases |over|
  {
    if over != [] {
      var init, o := over[..|over| - 1], over[|over| - 1];
      MergeAllAdmitted(base, init, defaults, input);
      var before, after := MergeAll(base, init).value, MergeAll(base, over).value;
      assert BlockAdmitted(o, defaults, input);
      if Merges(o) {
        MergedAdmitted(before[Find(before, o).value], o, defaults, input);
      }
    }
  }

  // ----- How many resources a merged stack declares -----

  lemma {:induction false} CountDeclaredAppend(a: seq<Block>, b: Block, t: string)
    ensures CountDeclared(a + [b], t) == CountDeclared(a, t) + CountDeclared([b], t)
  {
    assert (a + [b])[..|a|] == a && [b][..0] == [];
  }

  lemma {:induction false} CountDeclaredMerged(base: seq<Block>, i: nat, b: Block, t: string)
    requires i < |base| && SameAddress(base[i], b)
    ensures CountDeclared(base[i := b], t) == CountDeclared(base, t)
    decreases |base|
  {
    var n := |base| - 1;
    if i < n {
      CountDeclaredMerged(base[..n], i, b, t);
      assert base[i := b][..n] == base[..n][i := b];
    } else {
      assert base[i := b][..n] == base[..n];
    }
  }

  lemma {:induction false} CountsOne(base: seq<Block>, i: nat, t: string)
    requires i < |base| && CountDeclared([base[i]], t) == 1
    ensures CountDeclared(base, t) > 0
    decreases |base|
  {
    var n := |base| - 1;
    assert [base[i]][..0] == [];
    if i < n {
      CountsOne(base[..n], i, t);
    }
  }

  /** Merging declares no resource, and an override of a type needs one to merge over. */
  lemma {:induction false} MergeAllCounts(base: seq<Block>, over: seq<Block>, t: string)
    requires MergeAll(base, over).Some?
    ensures CountDeclared(MergeAll(base, over).value, t) == CountDeclared(base, t)
    ensures CountDeclared(over, t) > 0 ==> CountDeclared(base, t) > 0
    decreases |over|
  {
    if over != [] {
      var init, o := over[..|over| - 1], over[|over| - 1];
      MergeAllCounts(base, init, t);
      var before := MergeAll(base, init).value;
      assert [o][..0] == [];
      if Merges(o) {
        var i := Find(before, o).value;
        assert [before[i]][..0] == [];
        CountDeclaredMerged(before, i, MergeBlock(before[i], o), t);
        if CountDeclared([o], t) == 1 {
          CountsOne(before, i, t);
        }
      } else {
        CountDeclaredAppend(before, o, t);
      }
    }
  }

  lemma {:induction false} CountSplits(stack: seq<Placed>, t: string)
    ensures CountDeclared(Blocks(stack), t) == CountDeclared(Only(stack, false), t) + CountDeclared(Only(stack, true), t)
    decreases |stack|
  {
    if stack != [] {
      var init, last := stack[..|stack| - 1], stack[|stack| - 1];
      CountSplits(init, t);
      CountDeclaredAppend(Blocks(init), last.block, t);
      CountDeclaredAppend(Only(init, last.override), last.block, t);
      assert Only(init, !last.override) + [] == Only(init, !last.override);
    }
  }

  lemma {:induction false} OnlyAdmitted(stack: seq<Placed>, override: bool, defaults: map<string, Value>, input: Inputs)
    requires AllAdmitted(Blocks(stack), defaults, input)
    ensures AllAdmitted(Only(stack, override), defaults, input)
    decreases |stack|
  {
    if stack != [] {
      var init, last := stack[..|stack| - 1], stack[|stack| - 1];
      var blocks := Blocks(stack);
      assert blocks[|blocks| - 1] == last.block;
      forall i | 0 <= i < |Blocks(init)| ensures BlockAdmitted(Blocks(init)[i], defaults, input) {
        assert blocks[i] == Blocks(init)[i];
      }
      OnlyAdmitted(init, override, defaults, input);
    }
  }

  /** An admitted stack that merges has its one server in an ordinary file. */
  lemma NoServerOverridden(stack: seq<Placed>)
    requires Merged(stack).Some? && CountDeclared(Blocks(stack), "aws_instance") == 1
    ensures forall i :: 0 <= i < |Only(stack, true)| ==> !IsServer(Only(stack, true)[i])
  {
    CountSplits(stack, "aws_instance");
    MergeAllCounts(Only(stack, false), Only(stack, true), "aws_instance");
    forall i | 0 <= i < |Only(stack, true)| ensures !IsServer(Only(stack, true)[i]) {
      var b := Only(stack, true)[i];
      if IsServer(b) {
        assert [b][..0] == [];
        CountsOne(Only(stack, true), i, "aws_instance");
      }
    }
  }

  /** What the gate admits of the files it admits of the merged stack. */
  lemma MergedStackAdmitted(stack: seq<Placed>, input: Inputs)
    requires StackAdmitted(Blocks(stack), input) && Merged(stack).Some?
    ensures AllAdmitted(Merged(stack).value, Defaults(Blocks(stack)), input)
    ensures CountDeclared(Merged(stack).value, "aws_instance") == 1 && CountDeclared(Merged(stack).value, "aws_eip") <= 1
  {
    var base, over := Only(stack, false), Only(stack, true);
    NoServerOverridden(stack);
    OnlyAdmitted(stack, false, Defaults(Blocks(stack)), input);
    OnlyAdmitted(stack, true, Defaults(Blocks(stack)), input);
    MergeAllAdmitted(base, over, Defaults(Blocks(stack)), input);
    CountSplits(stack, "aws_instance");
    CountSplits(stack, "aws_eip");
    MergeAllCounts(base, over, "aws_instance");
    MergeAllCounts(base, over, "aws_eip");
  }

  // ----- Which default is a variable's value -----

  predicate IsVariable(b: Block, x: string) {
    b.typ == "variable" && b.labels != [] && b.labels[0] == x
  }

  /** The block gives x a default. */
  predicate Gives(b: Block, x: string) {
    IsVariable(b, x) && "default" in b.body.attrs
  }

  function DefaultOf(b: Block): Expr
    requires "default" in b.body.attrs
  {
    b.body.attrs["default"]
  }

  /** The last default x is given. */
  function LastDefault(blocks: seq<Block>, x: string): Option<Expr> {
    if blocks == [] then None
    else if Gives(blocks[|blocks| - 1], x) then Some(DefaultOf(blocks[|blocks| - 1]))
    else LastDefault(blocks[..|blocks| - 1], x)
  }

  /** The default the gate takes is one it can evaluate, and not null. */
  predicate GivesValue(b: Block, x: string) {
    Gives(b, x) && Eval(DefaultOf(b), None).Some? && Eval(DefaultOf(b), None) != Some(Null)
  }

  function LastValue(blocks: seq<Block>, x: string): Option<Value> {
    if blocks == [] then None
    else if GivesValue(blocks[|blocks| - 1], x) then Eval(DefaultOf(blocks[|blocks| - 1]), None)
    else LastValue(blocks[..|blocks| - 1], x)
  }

  /** The gate's default is the last it can take, in name order. */
  lemma {:induction false} GateTakesLast(blocks: seq<Block>, x: string)
    ensures x in Defaults(blocks) <==> LastValue(blocks, x).Some?
    ensures x in Defaults(blocks) ==> LastValue(blocks, x) == Some(Defaults(blocks)[x])
    decreases |blocks|
  {
    if blocks != [] {
      GateTakesLast(blocks[..|blocks| - 1], x);
    }
  }

  ghost predicate OneVariableEach(blocks: seq<Block>) {
    forall x, i, j :: 0 <= i < j < |blocks| ==> !(IsVariable(blocks[i], x) && IsVariable(blocks[j], x))
  }

  /** Where evaluating succeeds, each variable is declared once, and its value is its default's. */
  lemma {:induction false} ValueIsDefault(blocks: seq<Block>, x: string)
    requires PlanVars(blocks).Some?
    ensures OneVariableEach(blocks)
    ensures var vars := PlanVars(blocks).value;
            && (x in vars <==> LastDefault(blocks, x).Some?)
            && (x in vars ==> Eval(LastDefault(blocks, x).value, None) == Some(vars[x]))
    decreases |blocks|
  {
    if blocks != [] {
      var n := |blocks| - 1;
      ValueIsDefault(blocks[..n], x);
      forall y, i, j | 0 <= i < j < |blocks| ensures !(IsVariable(blocks[i], y) && IsVariable(blocks[j], y)) {
        if j == n {
          assert blocks[..n][i] == blocks[i];
          assert IsVariable(blocks[i], y) ==> y in DeclaredVars(blocks[..n]);
        } else {
          assert !(IsVariable(blocks[..n][i], y) && IsVariable(blocks[..n][j], y));
        }
      }
    }
  }

  /** A block put in another's place, of the same address and with its default, changes no default. */
  lemma {:induction false} SameDefaultPlaced(blocks: seq<Block>, i: nat, b: Block, x: string)
    requires i < |blocks| && (Gives(b, x) <==> Gives(blocks[i], x)) && (Gives(b, x) ==> DefaultOf(b) == DefaultOf(blocks[i]))
    ensures LastDefault(blocks[i := b], x) == LastDefault(blocks, x)
    decreases |blocks|
  {
    var n := |blocks| - 1;
    if i < n {
      SameDefaultPlaced(blocks[..n], i, b, x);
      assert blocks[i := b][..n] == blocks[..n][i := b];
    } else {
      assert blocks[i := b][..n] == blocks[..n];
    }
  }

  lemma {:induction false} OnlyGiver(blocks: seq<Block>, i: nat, x: string)
    requires i < |blocks| && Gives(blocks[i], x)
    requires forall j :: i < j < |blocks| ==> !IsVariable(blocks[j], x)
    ensures LastDefault(blocks, x) == Some(DefaultOf(blocks[i]))
    decreases |blocks|
  {
    if i < |blocks| - 1 {
      OnlyGiver(blocks[..|blocks| - 1], i, x);
    }
  }

  lemma {:induction false} LastOfTwo(a: seq<Block>, b: seq<Block>, x: string)
    ensures LastDefault(a + b, x) == if LastDefault(b, x).Some? then LastDefault(b, x) else LastDefault(a, x)
    decreases |b|
  {
    if b == [] {
      assert a + b == a;
    } else {
      assert (a + b)[..|a + b| - 1] == a + b[..|b| - 1];
      LastOfTwo(a, b[..|b| - 1], x);
    }
  }

  /** Merging keeps who declares what, so a merge with one variable each came from one. */
  lemma {:induction false} MergeOneKeepsVariables(base: seq<Block>, o: Block)
    requires MergeOne(base, o).Some? && OneVariableEach(MergeOne(base, o).value)
    ensures OneVariableEach(base)
  {
    var m := MergeOne(base, o).value;
    forall x, i, j | 0 <= i < j < |base| ensures !(IsVariable(base[i], x) && IsVariable(base[j], x)) {
      assert SameAddress(m[i], base[i]) && SameAddress(m[j], base[j]);
      assert !(IsVariable(m[i], x) && IsVariable(m[j], x));
    }
  }

  lemma {:induction false} MergeOneLast(base: seq<Block>, o: Block, x: string)
    requires MergeOne(base, o).Some? && OneVariableEach(MergeOne(base, o).value)
    ensures LastDefault(MergeOne(base, o).value, x) == if Gives(o, x) then Some(DefaultOf(o)) else LastDefault(base, x)
  {
    var m := MergeOne(base, o).value;
    if Merges(o) {
      var i := Find(base, o).value;
      if Gives(o, x) {
        assert Gives(m[i], x) && DefaultOf(m[i]) == DefaultOf(o);
        forall j | i < j < |m| ensures !IsVariable(m[j], x) {
          assert !(IsVariable(m[i], x) && IsVariable(m[j], x));
        }
        OnlyGiver(m, i, x);
      } else {
        SameDefaultPlaced(base, i, m[i], x);
      }
    } else {
      assert m[..|base|] == base;
    }
  }

  /** A merged variable's default is the last given, the overrides after the others. */
  lemma {:induction false} MergeAllLast(base: seq<Block>, over: seq<Block>, x: string)
    requires MergeAll(base, over).Some? && OneVariableEach(MergeAll(base, over).value)
    ensures LastDefault(MergeAll(base, over).value, x) == LastDefault(base + over, x)
    decreases |over|
  {
    if over == [] {
      assert base + over == base;
    } else {
      var init, o := over[..|over| - 1], over[|over| - 1];
      MergeOneKeepsVariables(MergeAll(base, init).value, o);
      MergeAllLast(base, init, x);
      MergeOneLast(MergeAll(base, init).value, o, x);
      assert (base + over)[..|base + over| - 1] == base + init;
    }
  }

  /** The default the gate takes for x, if it takes one, has the value of the one
      tofu takes: the last in name order and the last with the override files
      moved behind the others. */
  predicate SameDefault(stack: seq<Placed>, x: string) {
    var gate, tofu := LastValue(Blocks(stack), x), LastDefault(Only(stack, false) + Only(stack, true), x);
    gate.Some? ==> tofu.Some? && Eval(tofu.value, None) == gate
  }

  /** What the gate takes for the variables' values are their values exactly when
      the two defaults agree for each. */
  lemma DefaultsHoldExactly(stack: seq<Placed>)
    requires Merged(stack).Some? && PlanVars(Merged(stack).value).Some?
    ensures DefaultsHold(Defaults(Blocks(stack)), PlanVars(Merged(stack).value).value) <==> forall x :: SameDefault(stack, x)
  {
    var vars, defaults := PlanVars(Merged(stack).value).value, Defaults(Blocks(stack));
    forall x ensures SameDefault(stack, x) <==> (x in defaults ==> x in vars && vars[x] == defaults[x]) {
      GateTakesLast(Blocks(stack), x);
      ValueIsDefault(Merged(stack).value, x);
      MergeAllLast(Only(stack, false), Only(stack, true), x);
    }
  }

  /** Once an override file has given x a default, only override files do, and
      each of those the gate can take. */
  predicate OverridesLast(stack: seq<Placed>, x: string) {
    forall i :: 0 <= i < |stack| && stack[i].override && Gives(stack[i].block, x) ==>
      && GivesValue(stack[i].block, x)
      && forall j :: i < j < |stack| && Gives(stack[j].block, x) ==> stack[j].override
  }

  lemma {:induction false} LastsAgree(stack: seq<Placed>, x: string)
    requires OverridesLast(stack, x)
    ensures LastDefault(Blocks(stack), x) == LastDefault(Only(stack, false) + Only(stack, true), x)
    decreases |stack|
  {
    if stack != [] {
      var init, last := stack[..|stack| - 1], stack[|stack| - 1];
      forall i | 0 <= i < |init| && init[i].override && Gives(init[i].block, x)
        ensures GivesValue(init[i].block, x) && forall j :: i < j < |init| && Gives(init[j].block, x) ==> init[j].override
      {
        assert init[i] == stack[i];
        forall j | i < j < |init| && Gives(init[j].block, x) ensures init[j].override {
          assert init[j] == stack[j];
        }
      }
      LastsAgree(init, x);
      LastOfTwo(Only(init, false), Only(init, true), x);
      LastOfTwo(Only(stack, false), Only(stack, true), x);
      LastOfTwo(Only(init, last.override), [last.block], x);
      LastOfTwo(Blocks(init), [last.block], x);
      assert [last.block][..0] == [];
      assert Only(init, !last.override) + [] == Only(init, !last.override);
      if Gives(last.block, x) && !last.override && LastDefault(Only(init, true), x).Some? {
        var i := Giver(init, true, x);
      }
    }
  }

  lemma {:induction false} Giver(stack: seq<Placed>, override: bool, x: string) returns (i: nat)
    requires LastDefault(Only(stack, override), x).Some?
    ensures i < |stack| && stack[i].override == override && Gives(stack[i].block, x)
    decreases |stack|
  {
    var init, last := stack[..|stack| - 1], stack[|stack| - 1];
    if last.override == override && Gives(last.block, x) {
      i := |stack| - 1;
    } else {
      if last.override == override {
        assert Only(stack, override)[..|Only(stack, override)| - 1] == Only(init, override);
      } else {
        assert Only(stack, override) == Only(init, override);
      }
      i := Giver(init, override, x);
    }
  }

  lemma {:induction false} ValueGiver(stack: seq<Placed>, x: string) returns (i: nat)
    requires LastValue(Blocks(stack), x).Some?
    ensures i < |stack| && GivesValue(stack[i].block, x)
    decreases |stack|
  {
    var init, last := stack[..|stack| - 1], stack[|stack| - 1];
    if GivesValue(last.block, x) {
      i := |stack| - 1;
    } else {
      assert Blocks(stack)[..|Blocks(stack)| - 1] == Blocks(init);
      i := ValueGiver(init, x);
    }
  }

  lemma {:induction false} PlaceInOnly(stack: seq<Placed>, i: nat) returns (k: nat)
    requires i < |stack|
    ensures k < |Only(stack, stack[i].override)| && Only(stack, stack[i].override)[k] == stack[i].block
    decreases |stack|
  {
    var init := stack[..|stack| - 1];
    if i == |init| {
      k := |Only(init, stack[i].override)|;
    } else {
      k := PlaceInOnly(init, i);
    }
  }

  lemma NotTwice(blocks: seq<Block>, k: nat, x: string)
    requires OneVariableEach(blocks) && k < |blocks| - 1 && IsVariable(blocks[|blocks| - 1], x)
    ensures !IsVariable(blocks[k], x)
  {
  }

  /** Nothing before an ordinary file's default gives x a value. */
  lemma FirstGiver(stack: seq<Placed>, x: string)
    requires stack != [] && !stack[|stack| - 1].override && Gives(stack[|stack| - 1].block, x)
    requires OverridesLast(stack, x) && OneVariableEach(Only(stack, false))
    ensures LastValue(Blocks(stack[..|stack| - 1]), x).None?
  {
    var init, last := stack[..|stack| - 1], stack[|stack| - 1];
    if LastValue(Blocks(init), x).Some? {
      var i := ValueGiver(init, x);
      assert init[i] == stack[i];
      if !init[i].override {
        var k := PlaceInOnly(init, i);
        NotTwice(Only(stack, false), k, x);
      }
    }
  }

  lemma {:induction false} LastValueIsLast(stack: seq<Placed>, x: string)
    requires OverridesLast(stack, x) && OneVariableEach(Only(stack, false))
    ensures LastValue(Blocks(stack), x).Some? ==>
              LastDefault(Blocks(stack), x).Some? && Eval(LastDefault(Blocks(stack), x).value, None) == LastValue(Blocks(stack), x)
    decreases |stack|
  {
    if stack != [] {
      var init, last := stack[..|stack| - 1], stack[|stack| - 1];
      assert Blocks(stack)[..|Blocks(stack)| - 1] == Blocks(init);
      if !Gives(last.block, x) {
        forall i | 0 <= i < |init| && init[i].override && Gives(init[i].block, x)
          ensures GivesValue(init[i].block, x) && forall j :: i < j < |init| && Gives(init[j].block, x) ==> init[j].override
        {
          assert init[i] == stack[i];
          forall j | i < j < |init| && Gives(init[j].block, x) ensures init[j].override {
            assert init[j] == stack[j];
          }
        }
        assert OneVariableEach(Only(init, false)) by {
          assert Only(init, false) <= Only(stack, false);
        }
        LastValueIsLast(init, x);
      } else if !GivesValue(last.block, x) {
        FirstGiver(stack, x);
      }
    }
  }

  lemma {:induction false} MergeKeepsVariables(base: seq<Block>, over: seq<Block>)
    requires MergeAll(base, over).Some? && OneVariableEach(MergeAll(base, over).value)
    ensures OneVariableEach(base)
    decreases |over|
  {
    if over != [] {
      MergeOneKeepsVariables(MergeAll(base, over[..|over| - 1]).value, over[|over| - 1]);
      MergeKeepsVariables(base, over[..|over| - 1]);
    }
  }

  /** When override files have the last word on x, in name order, the gate takes
      x's value; so it does when no override file gives x a default. */
  lemma OverridesLastAgree(stack: seq<Placed>, x: string)
    requires Merged(stack).Some? && PlanVars(Merged(stack).value).Some? && OverridesLast(stack, x)
    ensures SameDefault(stack, x)
  {
    ValueIsDefault(Merged(stack).value, x);
    MergeKeepsVariables(Only(stack, false), Only(stack, true));
    LastValueIsLast(stack, x);
    LastsAgree(stack, x);
  }

  /** When an ordinary file has the last word on x after an override file, the
      gate takes the one's default and tofu the other's: they agree only by having
      the same value. */
  lemma OrdinaryLastDisagrees(stack: seq<Placed>, x: string, i: nat, j: nat)
    requires i < j < |stack| && stack[i].override && !stack[j].override
    requires Gives(stack[i].block, x) && GivesValue(stack[j].block, x)
    requires forall k :: j < k < |stack| ==> !Gives(stack[k].block, x)
    requires forall k :: i < k < |stack| && stack[k].override ==> !Gives(stack[k].block, x)
    ensures SameDefault(stack, x) <==> Eval(DefaultOf(stack[i].block), None) == Eval(DefaultOf(stack[j].block), None)
  {
    GateTakesAt(stack, x, j);
    TofuTakesAt(stack, x, i);
    LastOfTwo(Only(stack, false), Only(stack, true), x);
  }

  lemma {:induction false} GateTakesAt(stack: seq<Placed>, x: string, j: nat)
    requires j < |stack| && GivesValue(stack[j].block, x) && forall k :: j < k < |stack| ==> !Gives(stack[k].block, x)
    ensures LastValue(Blocks(stack), x) == Eval(DefaultOf(stack[j].block), None)
    decreases |stack|
  {
    var init := stack[..|stack| - 1];
    assert Blocks(stack)[..|Blocks(stack)| - 1] == Blocks(init);
    if j < |init| {
      assert forall k :: j < k < |init| ==> init[k] == stack[k];
      GateTakesAt(init, x, j);
    }
  }

  lemma {:induction false} TofuTakesAt(stack: seq<Placed>, x: string, i: nat)
    requires i < |stack| && stack[i].override && Gives(stack[i].block, x)
    requires forall k :: i < k < |stack| && stack[k].override ==> !Gives(stack[k].block, x)
    ensures LastDefault(Only(stack, true), x) == Some(DefaultOf(stack[i].block))
    decreases |stack|
  {
    var init, last := stack[..|stack| - 1], stack[|stack| - 1];
    if i < |init| {
      assert forall k :: i < k < |init| ==> init[k] == stack[k];
      TofuTakesAt(init, x, i);
      if last.override {
        assert Only(stack, true)[..|Only(stack, true)| - 1] == Only(init, true);
      } else {
        assert Only(stack, true) == Only(init, true);
      }
    }
  }

  // ----- The gate over a stack's files -----

  /** The gate is sound exactly of the values it took for the variables: when they
      are theirs, an admitted stack that evaluates creates one server with one
      bounded root volume, at most two public addresses, and only allowed types
      whose parents are in the stack, whatever the account's references, functions
      and modules do. */
  lemma GateSound(files: seq<File>, input: Inputs, account: Account)
    requires StackAdmitted(Blocks(Place(files)), input) && PlanStack(Place(files), account).Some?
    requires forall x :: SameDefault(Place(files), x)
    requires input.amiId in account.images && account.images[input.amiId] == input.amiRoot
    ensures StackBounded(PlanStack(Place(files), account).value, input, account)
  {
    var stack := Place(files);
    DefaultsHoldExactly(stack);
    MergedStackAdmitted(stack, input);
    AdmittedIsBounded(Merged(stack).value, Defaults(Blocks(stack)), input, account);
  }

  /** In particular where override files, if any, have the last word. */
  lemma GateSoundInOrder(files: seq<File>, input: Inputs, account: Account)
    requires StackAdmitted(Blocks(Place(files)), input) && PlanStack(Place(files), account).Some?
    requires forall x :: OverridesLast(Place(files), x)
    requires input.amiId in account.images && account.images[input.amiId] == input.amiRoot
    ensures StackBounded(PlanStack(Place(files), account).value, input, account)
  {
    forall x ensures SameDefault(Place(files), x) {
      OverridesLastAgree(Place(files), x);
    }
    GateSound(files, input, account);
  }

  /** An admitted stack reads nothing but pure functions and the rendered script:
      accounts that agree on those give the same plan, whatever any other
      function, or any module, would do in either. */
  lemma PlanReadsOnlyTheScript(files: seq<File>, input: Inputs, a: Account, b: Account)
    requires StackAdmitted(Blocks(Place(files)), input)
    requires forall blocks, vars :: SameToGate(ScopeOf(blocks, vars, a), ScopeOf(blocks, vars, b))
    ensures PlanStack(Place(files), a) == PlanStack(Place(files), b)
  {
    var stack := Place(files);
    if Merged(stack).Some? {
      MergedStackAdmitted(stack, input);
      AdmittedReadsOnlyTheScript(Merged(stack).value, Defaults(Blocks(stack)), input, a, b);
    }
  }

  /** Nothing in what an admitted stack merges into runs a program, reads a data
      source, fetches a module or moves the state. */
  lemma MergedRunsNothing(files: seq<File>, input: Inputs)
    requires StackAdmitted(Blocks(Place(files)), input) && Merged(Place(files)).Some?
    ensures forall b :: b in Merged(Place(files)).value ==> !RunsOrFetches(b)
  {
    var merged := Merged(Place(files)).value;
    MergedStackAdmitted(Place(files), input);
    forall i | 0 <= i < |merged| ensures !RunsOrFetches(merged[i]) {
      AdmittedRunsNothing(merged[i], Defaults(Blocks(Place(files))), input);
    }
  }

  // ----- An override the gate does not see -----

  function TypeVariable(instanceType: string): Block {
    Block("variable", ["t"], Body(map["default" := Lit(Str(instanceType))], []))
  }

  function Server(amiId: string): Block {
    Block("resource", ["aws_instance", "web"],
          Body(map["ami" := Lit(Str(amiId)), "instance_type" := Traversal("var", [Attr("t")]), "user_data" := USER_DATA_EXPR], []))
  }

  /** The server's type is t3.micro in name order, and m5.24xlarge once the override is merged. */
  function Overridden(amiId: string): seq<File> {
    [File("a_override.tf", [TypeVariable("m5.24xlarge")]), File("main.tf", [TypeVariable("t3.micro"), Server(amiId)])]
  }

  lemma PlaceMore(files: seq<File>, file: File)
    ensures Place(files + [file]) ==
            Place(files) + seq(|file.blocks|, i requires 0 <= i < |file.blocks| => Placed(file.blocks[i], IsOverride(file.name)))
  {
    assert (files + [file])[..|files|] == files;
  }

  lemma StackMore(stack: seq<Placed>, p: Placed)
    ensures Blocks(stack + [p]) == Blocks(stack) + [p.block]
    ensures Only(stack + [p], p.override) == Only(stack, p.override) + [p.block]
    ensures Only(stack + [p], !p.override) == Only(stack, !p.override)
  {
    assert (stack + [p])[..|stack|] == stack;
    assert Only(stack, !p.override) + [] == Only(stack, !p.override);
  }

  lemma OverrideNames()
    ensures IsOverride("a_override.tf") && !IsOverride("main.tf")
  {
    assert "a_override.tf"[1..] == "_override.tf";
  }

  lemma PlacedOverridden(amiId: string)
    ensures Place(Overridden(amiId)) ==
            [Placed(TypeVariable("m5.24xlarge"), true), Placed(TypeVariable("t3.micro"), false), Placed(Server(amiId), false)]
  {
    var files := Overridden(amiId);
    OverrideNames();
    PlaceMore([], files[0]);
    PlaceMore([files[0]], files[1]);
    assert [] + [files[0]] == [files[0]] && [files[0]] + [files[1]] == files;
    var first := Placed(TypeVariable("m5.24xlarge"), true);
    assert Place([files[0]]) == [first];
    var blocks := files[1].blocks;
    assert seq(|blocks|, i requires 0 <= i < |blocks| => Placed(blocks[i], IsOverride(files[1].name))) ==
           [Placed(TypeVariable("t3.micro"), false), Placed(Server(amiId), false)];
  }

  lemma SplitOverridden(amiId: string)
    ensures var stack := Place(Overridden(amiId));
            && Blocks(stack) == [TypeVariable("m5.24xlarge"), TypeVariable("t3.micro"), Server(amiId)]
            && Only(stack, false) == [TypeVariable("t3.micro"), Server(amiId)]
            && Only(stack, true) == [TypeVariable("m5.24xlarge")]
  {
    var stack := Place(Overridden(amiId));
    PlacedOverridden(amiId);
    StackMore([], stack[0]);
    StackMore([stack[0]], stack[1]);
    StackMore([stack[0], stack[1]], stack[2]);
    assert [] + [stack[0]] == [stack[0]] && [stack[0]] + [stack[1]] == [stack[0], stack[1]];
    assert [stack[0], stack[1]] + [stack[2]] == stack;
  }

  lemma MergedOverridden(amiId: string)
    ensures Merged(Place(Overridden(amiId))) == Some([TypeVariable("m5.24xlarge"), Server(amiId)])
  {
    SplitOverridden(amiId);
    var base, o := [TypeVariable("t3.micro"), Server(amiId)], TypeVariable("m5.24xlarge");
    assert base[..1] == [base[0]] && [o][..0] == [];
    assert Find([base[0]], o) == Some(0);
    assert Find(base, o) == Some(0);
    assert MergeBody(base[0].body, o.body) == o.body;
    assert MergeAll(base, []) == Some(base);
    assert base[0 := o] == [o, Server(amiId)];
  }

  lemma {:induction false} ServerCalls(amiId: string)
    ensures CallsAdmitted(Server(amiId))
  {
    var b := Server(amiId);
    assert Exempt(b, "user_data", b.body.attrs["user_data"]);
    assert CallsOnly(b.body.attrs["ami"], PURE_FUNCTIONS) && CallsOnly(b.body.attrs["instance_type"], PURE_FUNCTIONS);
  }

  lemma ServerRules()
    ensures "ami" in INSTANCE_RULES && "user_data" in INSTANCE_RULES && "instance_type" in INSTANCE_RULES
    ensures INSTANCE_RULES["ami"] == Delegated && INSTANCE_RULES["user_data"] == Delegated
    ensures INSTANCE_RULES["instance_type"] == Enum(["t3.micro", "t3.small"])
  {
  }

  lemma {:induction false} ServerBody(amiId: string, rules: Rules, defaults: map<string, Value>, region: string)
    requires "ami" in rules && "user_data" in rules && "instance_type" in rules
    requires rules["ami"] == Delegated && rules["user_data"] == Delegated
    requires rules["instance_type"].Enum? && "t" in defaults && defaults["t"].Str? && defaults["t"].s in rules["instance_type"].values
    ensures BodyAdmitted(Server(amiId).body, rules, true, defaults, region)
  {
    var attrs := Server(amiId).body.attrs;
    assert Resolve(attrs["instance_type"], defaults) == Some(defaults["t"]);
    assert ValueAdmitted(attrs["instance_type"], rules["instance_type"], defaults, region);
    assert AttrsAdmitted(attrs, rules, true, defaults, region);
  }

  lemma ServerTypeAllowed(input: Inputs)
    requires input.allowedTypes == ["aws_instance"]
    ensures HasPrefix("aws_instance", "aws_") && TypeAllowed("aws_instance", input.allowedTypes)
  {
    assert "aws_instance"[..4] == "aws_";
    assert input.allowedTypes[0] == "aws_instance" && "aws_instance"[|"aws_instance"| - 1] != '*';
  }

  lemma {:induction false} ServerAdmitted(input: Inputs, defaults: map<string, Value>)
    requires input.allowedTypes == ["aws_instance"] && input.amiId != ""
    requires "t" in defaults && defaults["t"] == Str("t3.micro")
    ensures BlockAdmitted(Server(input.amiId), defaults, input)
  {
    ServerCalls(input.amiId);
    ServerIsAdmitted(input, defaults);
  }

  lemma {:induction false} ServerIsAdmitted(input: Inputs, defaults: map<string, Value>)
    requires input.allowedTypes == ["aws_instance"] && input.amiId != ""
    requires "t" in defaults && defaults["t"] == Str("t3.micro")
    ensures ResourceAdmitted(Server(input.amiId), defaults, input)
  {
    ServerRules();
    InstanceRulesAre();
    ServerBody(input.amiId, INSTANCE_RULES, defaults, input.region);
    ServerTypeAllowed(input);
    assert AmiAdmitted(Server(input.amiId), input.amiId);
  }

  lemma {:induction false} TypeVariableAdmitted(instanceType: string, defaults: map<string, Value>, input: Inputs)
    ensures BlockAdmitted(TypeVariable(instanceType), defaults, input)
  {
    assert CallsOnly(Lit(Str(instanceType)), PURE_FUNCTIONS);
  }

  lemma OverriddenDefaults(amiId: string)
    ensures Defaults(Blocks(Place(Overridden(amiId)))) == map["t" := Str("t3.micro")]
  {
    SplitOverridden(amiId);
    var a, b, c := TypeVariable("m5.24xlarge"), TypeVariable("t3.micro"), Server(amiId);
    assert [a, b, c][..2] == [a, b] && [a, b][..1] == [a] && [a][..0] == [];
    assert Defaults([a]) == map["t" := Str("m5.24xlarge")];
    assert Defaults([a, b]) == map["t" := Str("t3.micro")];
  }

  lemma {:induction false} OverriddenAdmitted(input: Inputs)
    requires input.allowedTypes == ["aws_instance"] && input.amiId != "" && RootAdmitted(input.amiRoot)
    ensures StackAdmitted(Blocks(Place(Overridden(input.amiId))), input)
  {
    var defaults := map["t" := Str("t3.micro")];
    SplitOverridden(input.amiId);
    OverriddenDefaults(input.amiId);
    var a, b, c := TypeVariable("m5.24xlarge"), TypeVariable("t3.micro"), Server(input.amiId);
    TypeVariableAdmitted("m5.24xlarge", defaults, input);
    TypeVariableAdmitted("t3.micro", defaults, input);
    ServerAdmitted(input, defaults);
    ThreeAdmitted(a, b, c, defaults, input);
    OverriddenCounts(input.amiId);
  }

  lemma ThreeAdmitted(a: Block, b: Block, c: Block, defaults: map<string, Value>, input: Inputs)
    requires BlockAdmitted(a, defaults, input) && BlockAdmitted(b, defaults, input) && BlockAdmitted(c, defaults, input)
    ensures AllAdmitted([a, b, c], defaults, input)
  {
  }

  lemma OverriddenCounts(amiId: string)
    ensures CountDeclared([TypeVariable("m5.24xlarge"), TypeVariable("t3.micro"), Server(amiId)], "aws_instance") == 1
    ensures CountDeclared([TypeVariable("m5.24xlarge"), TypeVariable("t3.micro"), Server(amiId)], "aws_eip") == 0
  {
    var a, b, c := TypeVariable("m5.24xlarge"), TypeVariable("t3.micro"), Server(amiId);
    forall t ensures CountDeclared([a, b, c], t) == if t == "aws_instance" then 1 else 0 {
      assert [a, b, c][..2] == [a, b] && [a, b][..1] == [a] && [a][..0] == [];
      assert CountDeclared([a], t) == 0;
      assert CountDeclared([a, b], t) == 0;
    }
  }

  lemma OverriddenVars(amiId: string)
    ensures PlanVars([TypeVariable("m5.24xlarge"), Server(amiId)]) == Some(map["t" := Str("m5.24xlarge")])
  {
    var a, b := TypeVariable("m5.24xlarge"), Server(amiId);
    assert [a, b][..1] == [a] && [a][..0] == [];
    assert DeclaredVars([]) == {};
    assert PlanVars([a]) == Some(map["t" := Str("m5.24xlarge")]);
  }

  /** The server's arguments evaluate, its type to the variable's value. */
  lemma {:induction false} ServerEvaluates(amiId: string, scope: Scope)
    requires "t" in scope.vars && scope.vars["t"].Str?
    requires forall args :: scope.funcs("file", args).Some?
    ensures PlanResource(Server(amiId), scope).Some? && |PlanResource(Server(amiId), scope).value| == 1
    ensures var inst := PlanResource(Server(amiId), scope).value[0];
            && inst.resourceType == "aws_instance"
            && "instance_type" in inst.body.attrs && inst.body.attrs["instance_type"] == scope.vars["t"]
  {
    var b := Server(amiId);
    var args := Arguments(b);
    assert args.attrs["instance_type"] == Traversal("var", [Attr("t")]);
    assert Eval(args.attrs["instance_type"], Some(scope)) == Some(scope.vars["t"]) by {
      assert [Attr("t")][1..] == [];
    }
    assert AllEvaluate(args.attrs, scope);
    assert PlanBody(args, scope) == Some(EBody(PlanAttrs(args.attrs, scope), []));
    assert Copies(b, scope) == Some(1);
  }

  lemma {:induction false} OverriddenPlan(amiId: string, account: Account)
    requires forall args :: account.funcs("file", args).Some?
    ensures var planned := PlanStack(Place(Overridden(amiId)), account);
            && planned.Some? && |planned.value| == 1 && planned.value[0].resourceType == "aws_instance"
            && "instance_type" in planned.value[0].body.attrs
            && planned.value[0].body.attrs["instance_type"] == Str("m5.24xlarge")
  {
    MergedOverridden(amiId);
    OverriddenVars(amiId);
    var a, b := TypeVariable("m5.24xlarge"), Server(amiId);
    var scope := ScopeOf([a, b], map["t" := Str("m5.24xlarge")], account);
    ServerEvaluates(amiId, scope);
    PlanTwo(a, b, scope, account);
  }

  lemma {:induction false} PlanTwo(a: Block, b: Block, scope: Scope, account: Account)
    requires a.typ == "variable" && b.typ == "resource" && PlanResource(b, scope).Some?
    ensures PlanBlocks([a, b], scope, account) == PlanResource(b, scope)
  {
    var one, two, none: seq<Instance> := [a], [a, b], [];
    assert two[..1] == one && one[..0] == [] && two[1] == b && one[0] == a;
    assert none + none == none;
    assert PlanBlocks(one, scope, account) == Some(none);
    assert none + PlanResource(b, scope).value == PlanResource(b, scope).value;
  }

  lemma {:induction false} LargeIsUnbounded(insts: seq<Instance>, input: Inputs, account: Account)
    requires insts != [] && insts[0].resourceType == "aws_instance"
    requires "instance_type" in insts[0].body.attrs && insts[0].body.attrs["instance_type"] == Str("m5.24xlarge")
    ensures !StackBounded(insts, input, account)
  {
    assert !InstanceBounded(insts[0], insts, input, account);
  }

  /** An override file escapes the gate: it reads main.tf's t3.micro last and
      reports nothing, and tofu creates an m5.24xlarge. */
  lemma {:induction false} OverrideEscapes(input: Inputs, account: Account)
    requires input.allowedTypes == ["aws_instance"] && input.amiId != "" && RootAdmitted(input.amiRoot)
    requires forall args :: account.funcs("file", args).Some?
    ensures StackAdmitted(Blocks(Place(Overridden(input.amiId))), input)
    ensures PlanStack(Place(Overridden(input.amiId)), account).Some?
    ensures !StackBounded(PlanStack(Place(Overridden(input.amiId)), account).value, input, account)
  {
    OverriddenAdmitted(input);
    OverriddenPlan(input.amiId, account);
    LargeIsUnbounded(PlanStack(Place(Overridden(input.amiId)), account).value, input, account);
  }
}
