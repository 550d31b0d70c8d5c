/** What a stack creates when tofu evaluates it with its declared defaults, and
    what the gate's verdict bounds of that. */
module AwsPlan {
  import opened Wrappers
  import opened Hcl
  import opened AwsGate

  datatype EBody = EBody(attrs: map<string, Value>, blocks: seq<EBlock>)

  datatype EBlock = EBlock(typ: string, body: EBody)

  /** A resource instance tofu creates. */
  datatype Instance = Instance(resourceType: string, name: string, body: EBody)

  /** What the stack cannot say: other references, functions, what a module
      creates, and the account's images. */
  datatype Account = Account(
    other: (string, seq<Step>) -> Option<Value>,
    funcs: (string, seq<Option<Value>>) -> Option<Value>,
    modules: Block -> seq<Instance>,
    images: map<string, Volume>)

  // ----- Evaluation -----

  predicate AllEvaluate(attrs: map<string, Expr>, scope: Scope) {
    forall a :: a in attrs ==> Eval(attrs[a], Some(scope)).Some?
  }

  /** An attribute set to null is an attribute not set. */
  function PlanAttrs(attrs: map<string, Expr>, scope: Scope): map<string, Value>
    requires AllEvaluate(attrs, scope)
  {
    map a | a in attrs && Eval(attrs[a], Some(scope)) != Some(Null) :: Eval(attrs[a], Some(scope)).value
  }

  function PlanBody(body: Body, scope: Scope): Option<EBody>
    decreases body
  {
    var blocks := PlanNested(body.blocks, scope);
    if AllEvaluate(body.attrs, scope) && blocks.Some?
    then Some(EBody(PlanAttrs(body.attrs, scope), blocks.value)) else None
  }

  /** The nested blocks a body's blocks give; a dynamic block gives one per item. */
  function PlanNested(blocks: seq<Block>, scope: Scope): Option<seq<EBlock>>
    decreases blocks
  {
    if blocks == [] then Some([])
    else
      var first, rest := PlanOne(blocks[0], scope), PlanNested(blocks[1..], scope);
      if first.Some? && rest.Some? then Some(first.value + rest.value) else None
  }

  function PlanOne(b: Block, scope: Scope): Option<seq<EBlock>>
    decreases b
  {
    if b.typ != "dynamic" then
      var body := PlanBody(b.body, scope);
      if body.Some? then Some([EBlock(b.typ, body.value)]) else None
    else if b.labels != [] && "for_each" in b.body.attrs && |b.body.blocks| == 1 then
      var items, content := Eval(b.body.attrs["for_each"], Some(scope)), PlanBody(b.body.blocks[0].body, scope);
      if items.Some? && items.value.List? && content.Some?
      then Some(seq(|items.value.items|, _ => EBlock(b.labels[0], content.value))) else None
    else None
  }

  /** How many instances a resource block's count or for_each asks for. */
  function Copies(b: Block, scope: Scope): Option<nat> {
    if "count" in b.body.attrs then
      var n := Eval(b.body.attrs["count"], Some(scope));
      if n.Some? && n.value.Num? && n.value.n >= 0.0 then Some(n.value.n.Floor) else None
    else if "for_each" in b.body.attrs then
      var each := Eval(b.body.attrs["for_each"], Some(scope));
      if each.Some? && each.value.Obj? then Some(|each.value.fields|) else None
    else Some(1)
  }

  /** A resource's arguments, its meta-arguments aside. */
  function Arguments(b: Block): Body {
    Body(b.body.attrs - META_ATTRIBUTES, NotMeta(b.body.blocks))
  }

  function NotMeta(blocks: seq<Block>): seq<Block> {
    if blocks == [] then []
    else (if blocks[0].typ in META_BLOCKS then [] else [blocks[0]]) + NotMeta(blocks[1..])
  }

  /** The provider refuses a server with neither an instance type nor a launch template. */
  predicate Launchable(resourceType: string, body: EBody) {
    resourceType == "aws_instance" ==>
      "instance_type" in body.attrs || exists i :: 0 <= i < |body.blocks| && body.blocks[i].typ == "launch_template"
  }

  function PlanResource(b: Block, scope: Scope): Option<seq<Instance>> {
    var copies, body := Copies(b, scope), PlanBody(Arguments(b), scope);
    if |b.labels| == 2 && copies.Some? && body.Some? && Launchable(b.labels[0], body.value)
    then Some(seq(copies.value, _ => Instance(b.labels[0], b.labels[1], body.value))) else None
  }

  function PlanBlocks(blocks: seq<Block>, scope: Scope, account: Account): Option<seq<Instance>> {
    if blocks == [] then Some([])
    else
      var before, b := PlanBlocks(blocks[..|blocks| - 1], scope, account), blocks[|blocks| - 1];
      var made := if b.typ == "resource" then PlanResource(b, scope)
                  else if b.typ == "module" then Some(account.modules(b)) else Some([]);
      if before.Some? && made.Some? then Some(before.value + made.value) else None
  }

  function DeclaredVars(blocks: seq<Block>): set<string> {
    set i | 0 <= i < |blocks| && blocks[i].typ == "variable" && blocks[i].labels != [] :: blocks[i].labels[0]
  }

  /** The variables' values: their defaults. Declaring one twice is an error. */
  function PlanVars(blocks: seq<Block>): Option<map<string, Value>> {
    if blocks == [] then Some(map[])
    else
      var init, b := blocks[..|blocks| - 1], blocks[|blocks| - 1];
      var before := PlanVars(init);
      if before.None? then None
      else if b.typ == "variable" && b.labels != [] then
        if b.labels[0] in DeclaredVars(init) then None
        else if "default" !in b.body.attrs then before
        else
          var v := Eval(b.body.attrs["default"], None);
          if v.Some? then Some(before.value[b.labels[0] := v.value]) else None
      else before
  }

  function Declared(blocks: seq<Block>): set<(string, string)> {
    set i | 0 <= i < |blocks| && blocks[i].typ == "resource" && |blocks[i].labels| == 2 :: (blocks[i].labels[0], blocks[i].labels[1])
  }

  function ScopeOf(blocks: seq<Block>, vars: map<string, Value>, account: Account): Scope {
    Scope(vars, Declared(blocks), account.other, account.funcs)
  }

  /** Everything the blocks create, or None when evaluating them fails. */
  function Plan(blocks: seq<Block>, account: Account): Option<seq<Instance>> {
    var vars := PlanVars(blocks);
    if vars.None? then None else PlanBlocks(blocks, ScopeOf(blocks, vars.value, account), account)
  }

  // ----- What an admitted value evaluates to -----

  /** A value within its rule: a constant within its bound, a typed id of a
      resource of the stack. */
  predicate Within(v: Value, rule: Rule, region: string, declared: set<(string, string)>) {
    match rule
    case Any => true
    case Delegated => true
    case RefTo(t) => v.Id? && v.resourceType == t && (t, v.name) in declared
    case RefsTo(t) =>
      v.List? && forall i :: 0 <= i < |v.items| ==>
        v.items[i].Id? && v.items[i].resourceType == t && (t, v.items[i].name) in declared
    case Enum(values) => v.Str? && v.s in values
    case Max(max) => v.Num? && v.n <= max
    case Bools(bools) => v.Bool? && v.b in bools
    case Zone => v.Str? && StandardZone(v.s, region)
    case BlockOf(_, _) => false
  }

  ghost predicate DefaultsHold(defaults: map<string, Value>, vars: map<string, Value>) {
    forall x :: x in defaults ==> x in vars && vars[x] == defaults[x]
  }

  /** A resolved constant is what the expression evaluates to, wherever it is
      read: a primitive has no parts for further steps to reach. */
  lemma {:induction false} ResolvedIsEvaluated(e: Expr, defaults: map<string, Value>, scope: Scope)
    requires DefaultsHold(defaults, scope.vars)
    requires Resolve(e, defaults).Some? && Primitive(Resolve(e, defaults).value)
    requires Eval(e, Some(scope)).Some?
    ensures Eval(e, Some(scope)) == Resolve(e, defaults)
  {
    if e.Traversal? {
      var v := defaults[e.steps[0].name];
      assert Eval(e, Some(scope)) == Walk(v, e.steps[1..]);
    } else {
      ConstantInAnyScope(e, scope);
    }
  }

  lemma {:induction false} EvalAllAt(es: seq<Expr>, scope: Scope, i: nat)
    requires i < |es|
    ensures EvalAll(es, Some(scope))[i] == Eval(es[i], Some(scope))
  {
    if i > 0 {
      EvalAllAt(es[1..], scope, i - 1);
    }
  }

  lemma {:induction false} AdmittedIsWithin(e: Expr, rule: Rule, defaults: map<string, Value>, region: string, scope: Scope)
    requires DefaultsHold(defaults, scope.vars) && ValueAdmitted(e, rule, defaults, region)
    requires Eval(e, Some(scope)).Some?
    requires rule.RefTo? || rule.RefsTo? ==> rule.ref != "var"
    ensures Within(Eval(e, Some(scope)).value, rule, region, scope.declared)
  {
    match rule
    case RefsTo(t) =>
      var vs := EvalAll(e.exprs, Some(scope));
      forall i | 0 <= i < |vs| ensures vs[i] == Eval(e.exprs[i], Some(scope)) {
        EvalAllAt(e.exprs, scope, i);
      }
      var v := Eval(e, Some(scope)).value;
      forall i | 0 <= i < |v.items|
        ensures v.items[i].Id? && v.items[i].resourceType == t && (t, v.items[i].name) in scope.declared
      {
        assert IsIdRef(e.exprs[i], t) && vs[i].Some?;
      }
    case Any =>
    case Delegated =>
    case RefTo(t) =>
    case BlockOf(_, _) =>
    case Enum(_) => ResolvedIsEvaluated(e, defaults, scope);
    case Max(_) => ResolvedIsEvaluated(e, defaults, scope);
    case Bools(_) => ResolvedIsEvaluated(e, defaults, scope);
    case Zone => ResolvedIsEvaluated(e, defaults, scope);
  }

  // ----- What an admitted body evaluates to -----

  /** Every attribute set is within its rule. */
  ghost predicate AttrsWithin(attrs: map<string, Value>, rules: Rules, region: string, declared: set<(string, string)>) {
    forall a :: a in attrs ==> a in rules && !rules[a].BlockOf? && Within(attrs[a], rules[a], region, declared)
  }

  function CountEBlocks(blocks: seq<EBlock>, typ: string): nat {
    if blocks == [] then 0
    else (if blocks[0].typ == typ then 1 else 0) + CountEBlocks(blocks[1..], typ)
  }

  /** An evaluated body within its rules, all the way down. */
  ghost predicate BodyWithin(body: EBody, rules: Rules, region: string, declared: set<(string, string)>)
    decreases body
  {
    && AttrsWithin(body.attrs, rules, region, declared)
    && (forall i :: 0 <= i < |body.blocks| ==>
        && body.blocks[i].typ in rules && rules[body.blocks[i].typ].BlockOf?
        && BodyWithin(body.blocks[i].body, rules[body.blocks[i].typ].block, region, declared))
    && (forall t :: t in rules && rules[t].BlockOf? && rules[t].most > 0 ==> CountEBlocks(body.blocks, t) <= rules[t].most)
  }

  /** The table's shape: no rule names a variable as a resource type, and a nested
      block's rules are plain. */
  predicate WellShaped(rules: Rules) {
    && (forall a :: a in rules ==> (rules[a].RefTo? || rules[a].RefsTo? ==> rules[a].ref != "var"))
    && (forall a :: a in rules && rules[a].BlockOf? ==>
        forall x :: x in rules[a].block ==> !rules[a].block[x].BlockOf? && !rules[a].block[x].RefTo? && !rules[a].block[x].RefsTo?)
  }

  lemma InstanceRulesWellShaped()
    ensures WellShaped(INSTANCE_RULES) && "lifecycle" !in INSTANCE_RULES && "variable" !in INSTANCE_RULES
  {
    assert INSTANCE_RULES["root_block_device"].block == ROOT_BLOCK_RULES;
    assert forall a :: a in INSTANCE_RULES && INSTANCE_RULES[a].BlockOf? ==> a == "root_block_device";
  }

  lemma SecurityGroupRulesWellShaped()
    ensures WellShaped(SECURITY_GROUP_RULES) && "lifecycle" !in SECURITY_GROUP_RULES && "variable" !in SECURITY_GROUP_RULES
  {
    assert forall a :: a in SECURITY_GROUP_RULES && SECURITY_GROUP_RULES[a].BlockOf? ==> a == "ingress" || a == "egress";
  }

  lemma VpcRulesWellShaped()
    ensures WellShaped(VPC_RULES) && "lifecycle" !in VPC_RULES && "variable" !in VPC_RULES
  {
    assert forall a :: a in VPC_RULES ==> !VPC_RULES[a].BlockOf?;
  }

  lemma SubnetRulesWellShaped()
    ensures WellShaped(SUBNET_RULES) && "lifecycle" !in SUBNET_RULES && "variable" !in SUBNET_RULES
  {
    assert forall a :: a in SUBNET_RULES ==> !SUBNET_RULES[a].BlockOf?;
  }

  lemma InVpcRulesWellShaped()
    ensures WellShaped(IN_VPC_RULES) && "lifecycle" !in IN_VPC_RULES && "variable" !in IN_VPC_RULES
  {
    assert forall a :: a in IN_VPC_RULES ==> !IN_VPC_RULES[a].BlockOf?;
  }

  lemma RouteRulesWellShaped()
    ensures WellShaped(ROUTE_RULES) && "lifecycle" !in ROUTE_RULES && "variable" !in ROUTE_RULES
  {
    assert forall a :: a in ROUTE_RULES ==> !ROUTE_RULES[a].BlockOf?;
  }

  lemma AssociationRulesWellShaped()
    ensures WellShaped(ASSOCIATION_RULES) && "lifecycle" !in ASSOCIATION_RULES && "variable" !in ASSOCIATION_RULES
  {
    assert forall a :: a in ASSOCIATION_RULES ==> !ASSOCIATION_RULES[a].BlockOf?;
  }

  lemma EipRulesWellShaped()
    ensures WellShaped(EIP_RULES) && "lifecycle" !in EIP_RULES && "variable" !in EIP_RULES
  {
    assert forall a :: a in EIP_RULES ==> !EIP_RULES[a].BlockOf?;
  }

  lemma TableWellShaped(resourceType: string)
    requires RulesOf(resourceType).Some?
    ensures WellShaped(RulesOf(resourceType).value) && "lifecycle" !in RulesOf(resourceType).value && "variable" !in RulesOf(resourceType).value
  {
    match resourceType
    case "aws_instance" => InstanceRulesWellShaped();
    case "aws_vpc" => VpcRulesWellShaped();
    case "aws_subnet" => SubnetRulesWellShaped();
    case "aws_internet_gateway" => InVpcRulesWellShaped();
    case "aws_route_table" => InVpcRulesWellShaped();
    case "aws_route" => RouteRulesWellShaped();
    case "aws_route_table_association" => AssociationRulesWellShaped();
    case "aws_security_group" => SecurityGroupRulesWellShaped();
    case "aws_eip" => EipRulesWellShaped();
    case _ =>
  }

  ghost predicate NestedWithin(b: EBlock, rules: Rules, region: string, declared: set<(string, string)>) {
    b.typ in rules && rules[b.typ].BlockOf? && BodyWithin(b.body, rules[b.typ].block, region, declared)
  }

  lemma {:induction false} CountFromFront(blocks: seq<Block>, typ: string)
    requires blocks != []
    ensures CountBlocks(blocks, typ) == (if blocks[0].typ == typ then 1 else 0) + CountBlocks(blocks[1..], typ)
    decreases |blocks|
  {
    var init := blocks[..|blocks| - 1];
    if |blocks| > 1 {
      CountFromFront(init, typ);
      assert init[1..] == blocks[1..][..|blocks| - 2];
    } else {
      assert blocks[1..] == [] && init == [];
    }
  }

  lemma {:induction false} AttrsSound(attrs: map<string, Expr>, rules: Rules, defaults: map<string, Value>, region: string, scope: Scope)
    requires DefaultsHold(defaults, scope.vars) && WellShaped(rules)
    requires AttrsAdmitted(attrs, rules, false, defaults, region) && AllEvaluate(attrs, scope)
    ensures AttrsWithin(PlanAttrs(attrs, scope), rules, region, scope.declared)
  {
    forall a | a in PlanAttrs(attrs, scope)
      ensures a in rules && !rules[a].BlockOf? && Within(PlanAttrs(attrs, scope)[a], rules[a], region, scope.declared)
    {
      assert AttrAdmitted(a, attrs[a], rules, false, defaults, region);
      AdmittedIsWithin(attrs[a], rules[a], defaults, region, scope);
    }
  }

  /** An admitted body evaluates to one within its rules. */
  lemma {:induction false} BodySound(body: Body, rules: Rules, defaults: map<string, Value>, region: string, scope: Scope)
    requires DefaultsHold(defaults, scope.vars) && WellShaped(rules)
    requires BodyAdmitted(body, rules, false, defaults, region)
    requires forall i :: 0 <= i < |body.blocks| ==> body.blocks[i].typ != "dynamic" && NoDeniedNested(body.blocks[i])
    requires PlanBody(body, scope).Some?
    ensures BodyWithin(PlanBody(body, scope).value, rules, region, scope.declared)
    decreases body
  {
    AttrsSound(body.attrs, rules, defaults, region, scope);
    NestedSound(body.blocks, rules, defaults, region, scope);
    var made := PlanBody(body, scope).value;
    forall i | 0 <= i < |made.blocks|
      ensures made.blocks[i].typ in rules && rules[made.blocks[i].typ].BlockOf?
        && BodyWithin(made.blocks[i].body, rules[made.blocks[i].typ].block, region, scope.declared)
    {
      assert NestedWithin(made.blocks[i], rules, region, scope.declared);
    }
    forall t | t in rules && rules[t].BlockOf? && rules[t].most > 0 ensures CountEBlocks(made.blocks, t) <= rules[t].most {
      assert Bounded(t, rules, false);
    }
  }

  lemma {:induction false} NestedSound(blocks: seq<Block>, rules: Rules, defaults: map<string, Value>, region: string, scope: Scope)
    requires DefaultsHold(defaults, scope.vars) && WellShaped(rules)
    requires forall i :: 0 <= i < |blocks| ==> NestedAdmitted(blocks[i], rules, false, defaults, region)
    requires forall i :: 0 <= i < |blocks| ==> blocks[i].typ != "dynamic" && NoDeniedNested(blocks[i])
    requires PlanNested(blocks, scope).Some?
    ensures var made := PlanNested(blocks, scope).value;
            && (forall i :: 0 <= i < |made| ==> NestedWithin(made[i], rules, region, scope.declared))
            && (forall t :: CountEBlocks(made, t) == CountBlocks(blocks, t))
    decreases blocks
  {
    if blocks != [] {
      var b, made := blocks[0], PlanNested(blocks, scope).value;
      assert NestedAdmitted(b, rules, false, defaults, region);
      forall i | 0 <= i < |b.body.blocks| ensures b.body.blocks[i].typ != "dynamic" && NoDeniedNested(b.body.blocks[i]) {
        assert b.body.blocks[i].typ !in DENIED_NESTED_BLOCKS;
      }
      BodySound(b.body, rules[b.typ].block, defaults, region, scope);
      NestedSound(blocks[1..], rules, defaults, region, scope);
      var rest := PlanNested(blocks[1..], scope).value;
      assert made == [EBlock(b.typ, PlanBody(b.body, scope).value)] + rest && made[1..] == rest;
      forall i | 0 <= i < |made| ensures NestedWithin(made[i], rules, region, scope.declared) {
        if i > 0 {
          assert made[i] == rest[i - 1];
        }
      }
      forall t ensures CountEBlocks(made, t) == CountBlocks(blocks, t) {
        CountFromFront(blocks, t);
      }
    }
  }

  // ----- What an admitted stack creates -----

  lemma {:induction false} NothingMeta(blocks: seq<Block>)
    requires forall i :: 0 <= i < |blocks| ==> blocks[i].typ !in META_BLOCKS
    ensures NotMeta(blocks) == blocks
  {
    if blocks != [] {
      NothingMeta(blocks[1..]);
    }
  }

  /** An instance of an allowlisted type, every argument within its rule. */
  ghost predicate InstanceWithin(inst: Instance, input: Inputs, declared: set<(string, string)>) {
    && TypeAllowed(inst.resourceType, input.allowedTypes) && HasPrefix(inst.resourceType, "aws_")
    && RulesOf(inst.resourceType).Some? && Launchable(inst.resourceType, inst.body)
    && BodyWithin(inst.body, RulesOf(inst.resourceType).value, input.region, declared)
    && (inst.resourceType == "aws_instance" ==>
        "ami" in inst.body.attrs && inst.body.attrs["ami"] == Str(input.amiId))
  }

  /** An admitted resource has no meta-argument blocks to set aside, so its
      arguments are admitted without the meta-arguments. */
  lemma {:induction false} ArgumentsAdmitted(b: Block, rules: Rules, defaults: map<string, Value>, region: string)
    requires BodyAdmitted(b.body, rules, true, defaults, region) && NoDeniedNested(b)
    ensures BodyAdmitted(Arguments(b), rules, false, defaults, region)
    ensures Arguments(b).blocks == b.body.blocks
  {
    var args := Arguments(b);
    forall i | 0 <= i < |b.body.blocks| ensures b.body.blocks[i].typ !in META_BLOCKS {
      assert b.body.blocks[i].typ !in DENIED_NESTED_BLOCKS;
    }
    NothingMeta(b.body.blocks);
    assert AttrsAdmitted(args.attrs, rules, false, defaults, region) by {
      forall a | a in args.attrs ensures AttrAdmitted(a, args.attrs[a], rules, false, defaults, region) {
        assert AttrAdmitted(a, b.body.attrs[a], rules, true, defaults, region);
      }
    }
    forall i | 0 <= i < |args.blocks| ensures NestedAdmitted(args.blocks[i], rules, false, defaults, region) {
      assert NestedAdmitted(b.body.blocks[i], rules, true, defaults, region);
    }
    assert MostAdmitted(args.blocks, rules, false) by {
      forall t | Bounded(t, rules, false) ensures CountBlocks(args.blocks, t) <= rules[t].most {
        assert Bounded(t, rules, true) || t in META_BLOCKS;
        if t in META_BLOCKS {
          NoneOfType(args.blocks, t);
        }
      }
    }
  }

  lemma {:induction false} NoneOfType(blocks: seq<Block>, t: string)
    requires forall i :: 0 <= i < |blocks| ==> blocks[i].typ != t
    ensures CountBlocks(blocks, t) == 0
    decreases |blocks|
  {
    if blocks != [] {
      NoneOfType(blocks[..|blocks| - 1], t);
    }
  }

  lemma {:induction false} NoDynamic(b: Block)
    requires NoDeniedNested(b)
    ensures forall i :: 0 <= i < |b.body.blocks| ==> b.body.blocks[i].typ != "dynamic" && NoDeniedNested(b.body.blocks[i])
  {
    forall i | 0 <= i < |b.body.blocks| ensures b.body.blocks[i].typ != "dynamic" {
      assert b.body.blocks[i].typ !in DENIED_NESTED_BLOCKS;
    }
  }

  /** An admitted resource block creates exactly one instance, within its rules. */
  lemma {:induction false} ResourceSound(b: Block, defaults: map<string, Value>, input: Inputs, scope: Scope)
    requires DefaultsHold(defaults, scope.vars) && b.typ == "resource" && BlockAdmitted(b, defaults, input)
    requires PlanResource(b, scope).Some?
    ensures var made := PlanResource(b, scope).value;
            |made| == 1 && made[0].resourceType == b.labels[0] && made[0].name == b.labels[1]
            && InstanceWithin(made[0], input, scope.declared)
  {
    var rules := RulesOf(b.labels[0]).value;
    TableWellShaped(b.labels[0]);
    NoDynamic(b);
    ArgumentsAdmitted(b, rules, defaults, input.region);
    BodySound(Arguments(b), rules, defaults, input.region, scope);
    if b.labels[0] == "aws_instance" {
      AmiSound(b, input, scope);
    }
  }

  lemma AmiSound(b: Block, input: Inputs, scope: Scope)
    requires AmiAdmitted(b, input.amiId) && PlanBody(Arguments(b), scope).Some?
    ensures var attrs := PlanBody(Arguments(b), scope).value.attrs;
            "ami" in attrs && attrs["ami"] == Str(input.amiId)
  {
    ConstantInAnyScope(b.body.attrs["ami"], scope);
    assert "ami" in Arguments(b).attrs;
  }

  function CountInstances(insts: seq<Instance>, resourceType: string): nat {
    if insts == [] then 0
    else CountInstances(insts[..|insts| - 1], resourceType) + if insts[|insts| - 1].resourceType == resourceType then 1 else 0
  }

  ghost predicate AllWithin(insts: seq<Instance>, input: Inputs, declared: set<(string, string)>) {
    forall i :: 0 <= i < |insts| ==> InstanceWithin(insts[i], input, declared)
  }

  ghost predicate CountsAsDeclared(insts: seq<Instance>, blocks: seq<Block>) {
    forall t :: CountInstances(insts, t) == CountDeclared(blocks, t)
  }

  ghost predicate Created(d: (string, string), insts: seq<Instance>) {
    exists i :: 0 <= i < |insts| && (insts[i].resourceType, insts[i].name) == d
  }

  lemma OneMoreDeclared(before: seq<Instance>, inst: Instance, blocks: seq<Block>)
    requires blocks != [] && CountsAsDeclared(before, blocks[..|blocks| - 1])
    requires var b := blocks[|blocks| - 1]; b.typ == "resource" && b.labels != [] && b.labels[0] == inst.resourceType
    ensures CountsAsDeclared(before + [inst], blocks)
  {
    assert (before + [inst])[..|before|] == before;
    forall t ensures CountInstances(before + [inst], t) == CountDeclared(blocks, t) {
      assert CountInstances(before, t) == CountDeclared(blocks[..|blocks| - 1], t);
    }
  }

  lemma NoneMoreDeclared(before: seq<Instance>, blocks: seq<Block>)
    requires blocks != [] && CountsAsDeclared(before, blocks[..|blocks| - 1]) && blocks[|blocks| - 1].typ != "resource"
    ensures CountsAsDeclared(before, blocks)
  {
    forall t ensures CountInstances(before, t) == CountDeclared(blocks, t) {
      assert CountInstances(before, t) == CountDeclared(blocks[..|blocks| - 1], t);
    }
  }

  /** What an admitted block gives: a resource block one instance, no block a module's. */
  ghost predicate MakesOneWithin(b: Block, input: Inputs, scope: Scope) {
    && b.typ != "module"
    && (b.typ == "resource" && PlanResource(b, scope).Some? ==>
        var made := PlanResource(b, scope).value;
        && |made| == 1 && b.labels == [made[0].resourceType, made[0].name]
        && InstanceWithin(made[0], input, scope.declared)
        && (made[0].resourceType == "aws_instance" ==> BootsScript(made[0], scope.other, scope.funcs)))
  }

  /** What file() reads at the script's path, in the directory path.module names. */
  function Script(
    other: (string, seq<Step>) -> Option<Value>, funcs: (string, seq<Option<Value>>) -> Option<Value>): Option<Value>
  {
    var at := other("path", [Attr("module")]);
    var dir := if at.Some? then Text(at.value) else None;
    funcs("file", [if dir.Some? then Some(Str(dir.value + "/infrafactory-user-data.sh")) else None])
  }

  /** A server boots the rendered script: its user data is what file() reads of it. */
  predicate BootsScript(
    inst: Instance,
    other: (string, seq<Step>) -> Option<Value>, funcs: (string, seq<Option<Value>>) -> Option<Value>)
  {
    var script := Script(other, funcs);
    && script.Some?
    && if script == Some(Null) then "user_data" !in inst.body.attrs
       else "user_data" in inst.body.attrs && inst.body.attrs["user_data"] == script.value
  }

  lemma {:induction false} UserDataIsScript(scope: Scope)
    ensures Eval(USER_DATA_EXPR, Some(scope)) == Script(scope.other, scope.funcs)
  {
    var dir, rest := Traversal("path", [Attr("module")]), Lit(Str("/infrafactory-user-data.sh"));
    var parts, path := [dir, rest], Template([dir, rest]);
    assert USER_DATA_EXPR == Call("file", [path]);
    assert parts[1..] == [rest] && [rest][1..] == [] && [path][1..] == [];
    var vs := EvalAll(parts, Some(scope));
    assert vs == [Eval(dir, Some(scope)), Eval(rest, Some(scope))];
    assert Eval(dir, Some(scope)) == scope.other("path", [Attr("module")]);
    assert vs[1..] == [Some(Str("/infrafactory-user-data.sh"))] && vs[1..][1..] == [];
    assert Join(vs[1..][1..]) == Some("");
    assert Join(vs[1..]) == Some("/infrafactory-user-data.sh") by {
      assert "/infrafactory-user-data.sh" + "" == "/infrafactory-user-data.sh";
    }
    assert EvalAll([path], Some(scope)) == [Eval(path, Some(scope))];
  }

  lemma {:induction false} ServerBoots(b: Block, scope: Scope)
    requires "user_data" in b.body.attrs && b.body.attrs["user_data"] == USER_DATA_EXPR && PlanResource(b, scope).Some?
    ensures forall inst :: inst in PlanResource(b, scope).value ==> BootsScript(inst, scope.other, scope.funcs)
  {
    UserDataIsScript(scope);
    var args := Arguments(b);
    assert "user_data" in args.attrs && args.attrs["user_data"] == USER_DATA_EXPR;
  }

  lemma AdmittedMakesOne(b: Block, defaults: map<string, Value>, input: Inputs, scope: Scope)
    requires DefaultsHold(defaults, scope.vars) && BlockAdmitted(b, defaults, input)
    ensures MakesOneWithin(b, input, scope)
  {
    if b.typ == "resource" && PlanResource(b, scope).Some? {
      ResourceSound(b, defaults, input, scope);
      if b.labels[0] == "aws_instance" {
        ServerBoots(b, scope);
        assert PlanResource(b, scope).value[0] in PlanResource(b, scope).value;
      }
    }
  }

  /** An admitted stack creates one instance for each resource it declares, and nothing else. */
  lemma {:induction false} BlocksSound(blocks: seq<Block>, input: Inputs, scope: Scope, account: Account)
    requires AllMakeOne(blocks, input, scope)
    requires PlanBlocks(blocks, scope, account).Some?
    ensures var insts := PlanBlocks(blocks, scope, account).value;
            AllWithin(insts, input, scope.declared) && CountsAsDeclared(insts, blocks) && AllBoot(insts, scope)
            && forall d :: d in Declared(blocks) ==> Created(d, insts)
  {
    if blocks != [] {
      var init, b := blocks[..|blocks| - 1], blocks[|blocks| - 1];
      var insts := PlanBlocks(blocks, scope, account).value;
      BlocksSound(init, input, scope, account);
      var before := PlanBlocks(init, scope, account).value;
      assert MakesOneWithin(b, input, scope);
      if b.typ == "resource" {
        var inst := PlanResource(b, scope).value[0];
        assert insts == before + [inst] && insts[|before|] == inst;
        OneMoreBoots(before, inst, scope);
        OneMoreDeclared(before, inst, blocks);
        assert Created((inst.resourceType, inst.name), insts);
      } else {
        assert insts == before;
        NoneMoreDeclared(before, blocks);
      }
      forall d | d in Declared(blocks) ensures Created(d, insts) {
        DeclaredInstance(blocks, d, before, insts);
      }
    }
  }

  lemma OneMoreBoots(before: seq<Instance>, inst: Instance, scope: Scope)
    requires AllBoot(before, scope)
    requires inst.resourceType == "aws_instance" ==> BootsScript(inst, scope.other, scope.funcs)
    ensures AllBoot(before + [inst], scope)
  {
  }

  /** Every server boots the rendered script. */
  ghost predicate AllBoot(insts: seq<Instance>, scope: Scope) {
    forall i :: 0 <= i < |insts| && insts[i].resourceType == "aws_instance" ==> BootsScript(insts[i], scope.other, scope.funcs)
  }

  lemma DeclaredInstance(blocks: seq<Block>, d: (string, string), before: seq<Instance>, insts: seq<Instance>)
    requires blocks != [] && d in Declared(blocks) && before <= insts
    requires d in Declared(blocks[..|blocks| - 1]) ==> Created(d, before)
    requires var b := blocks[|blocks| - 1];
             b.typ == "resource" && |b.labels| == 2 ==> Created((b.labels[0], b.labels[1]), insts)
    ensures Created(d, insts)
  {
    var k :| 0 <= k < |blocks| && blocks[k].typ == "resource" && |blocks[k].labels| == 2 && (blocks[k].labels[0], blocks[k].labels[1]) == d;
    if k < |blocks| - 1 {
      assert blocks[..|blocks| - 1][k] == blocks[k];
      var i :| 0 <= i < |before| && (before[i].resourceType, before[i].name) == d;
      assert insts[i] == before[i];
    }
  }

  // ----- The bounds -----

  function FirstBlock(blocks: seq<EBlock>, typ: string): Option<EBody> {
    if blocks == [] then None
    else if blocks[0].typ == typ then Some(blocks[0].body)
    else FirstBlock(blocks[1..], typ)
  }

  /** The root volume an instance launches with: the image's, as its
      root_block_device overrides it. None is a launch AWS refuses. */
  function RootVolume(inst: Instance, images: map<string, Volume>): Option<Volume> {
    var attrs := inst.body.attrs;
    if "ami" !in attrs || !attrs["ami"].Str? || attrs["ami"].s !in images then None
    else
      var image, block := images[attrs["ami"].s], FirstBlock(inst.body.blocks, "root_block_device");
      if block.None? then Some(image)
      else
        var given := block.value.attrs;
        if ("volume_size" in given && !given["volume_size"].Num?) || ("volume_type" in given && !given["volume_type"].Str?)
           || ("delete_on_termination" in given && !given["delete_on_termination"].Bool?) then None
        else Some(Volume(
          if "volume_size" in given then given["volume_size"].n else image.sizeGiB,
          if "volume_type" in given then given["volume_type"].s else image.volumeType,
          if "delete_on_termination" in given then given["delete_on_termination"].b else image.deleteOnTermination))
  }

  predicate VolumeBounded(v: Volume) {
    v.sizeGiB <= 20.0 && v.volumeType == "gp3" && v.deleteOnTermination
  }

  /** An instance whose only nested block is at most one root_block_device. */
  ghost predicate NoOtherVolume(inst: Instance) {
    && (forall i :: 0 <= i < |inst.body.blocks| ==> inst.body.blocks[i].typ == "root_block_device")
    && |inst.body.blocks| <= 1
  }

  lemma {:induction false} OnlyOneType(blocks: seq<EBlock>, typ: string)
    requires forall i :: 0 <= i < |blocks| ==> blocks[i].typ == typ
    ensures CountEBlocks(blocks, typ) == |blocks|
  {
    if blocks != [] {
      OnlyOneType(blocks[1..], typ);
    }
  }

  /** A body whose rules know one block type, at most once, has at most that one. */
  lemma OnlyBlock(body: EBody, rules: Rules, typ: string, inner: Rules, region: string, declared: set<(string, string)>)
    requires BodyWithin(body, rules, region, declared)
    requires forall a :: a in rules && rules[a].BlockOf? ==> a == typ
    requires typ in rules && rules[typ] == BlockOf(inner, 1)
    ensures |body.blocks| <= 1
    ensures forall i :: 0 <= i < |body.blocks| ==>
              body.blocks[i].typ == typ && BodyWithin(body.blocks[i].body, inner, region, declared)
  {
    forall i | 0 <= i < |body.blocks|
      ensures body.blocks[i].typ == typ && BodyWithin(body.blocks[i].body, inner, region, declared)
    {
      assert body.blocks[i].typ in rules && rules[body.blocks[i].typ].BlockOf?;
    }
    OnlyOneType(body.blocks, typ);
  }

  lemma InstanceBlocks()
    ensures forall a :: a in INSTANCE_RULES && INSTANCE_RULES[a].BlockOf? ==> a == "root_block_device"
    ensures "root_block_device" in INSTANCE_RULES && INSTANCE_RULES["root_block_device"] == BlockOf(ROOT_BLOCK_RULES, 1)
  {
  }

  lemma InstanceRulesAre()
    ensures RulesOf("aws_instance") == Some(INSTANCE_RULES)
  {
  }

  lemma RootBounded(inst: Instance, input: Inputs, images: map<string, Volume>, declared: set<(string, string)>)
    requires inst.resourceType == "aws_instance" && InstanceWithin(inst, input, declared)
    requires input.amiId in images && images[input.amiId] == input.amiRoot && RootAdmitted(input.amiRoot)
    ensures NoOtherVolume(inst)
    ensures RootVolume(inst, images).Some? && VolumeBounded(RootVolume(inst, images).value)
  {
    InstanceRulesAre();
    InstanceBlocks();
    OnlyBlock(inst.body, INSTANCE_RULES, "root_block_device", ROOT_BLOCK_RULES, input.region, declared);
    if inst.body.blocks != [] {
      RootBlockBounded(inst.body.blocks[0].body, input, declared);
    }
    RootVolumeBounded(inst, images, input.amiId);
  }

  lemma RootVolumeBounded(inst: Instance, images: map<string, Volume>, amiId: string)
    requires "ami" in inst.body.attrs && inst.body.attrs["ami"] == Str(amiId)
    requires amiId in images && RootAdmitted(images[amiId])
    requires NoOtherVolume(inst)
    requires inst.body.blocks != [] ==> RootArguments(inst.body.blocks[0].body.attrs)
    ensures RootVolume(inst, images).Some? && VolumeBounded(RootVolume(inst, images).value)
  {
  }

  /** What a root_block_device within its rules sets. */
  predicate RootArguments(attrs: map<string, Value>) {
    && ("volume_size" in attrs ==> attrs["volume_size"].Num? && attrs["volume_size"].n <= 20.0)
    && ("volume_type" in attrs ==> attrs["volume_type"] == Str("gp3"))
    && ("delete_on_termination" in attrs ==> attrs["delete_on_termination"] == Bool(true))
  }

  lemma RootBlockBounded(body: EBody, input: Inputs, declared: set<(string, string)>)
    requires BodyWithin(body, ROOT_BLOCK_RULES, input.region, declared)
    ensures RootArguments(body.attrs)
  {
    assert ROOT_BLOCK_RULES["volume_size"] == Max(20.0);
    assert ROOT_BLOCK_RULES["volume_type"] == Enum(["gp3"]);
    assert ROOT_BLOCK_RULES["delete_on_termination"] == Bools([true]);
  }

  /** An instance AWS gives a public address of its own: it asks for one, or
      says nothing and its subnet may give it one. */
  predicate MayHaveOwnAddress(inst: Instance) {
    inst.resourceType == "aws_instance"
    && !("associate_public_ip_address" in inst.body.attrs && inst.body.attrs["associate_public_ip_address"] == Bool(false))
  }

  /** The public addresses a stack may come to hold. */
  function PublicAddresses(insts: seq<Instance>): nat {
    if insts == [] then 0
    else
      var last := insts[|insts| - 1];
      PublicAddresses(insts[..|insts| - 1])
      + if last.resourceType == "aws_eip" || MayHaveOwnAddress(last) then 1 else 0
  }

  lemma {:induction false} AddressesBounded(insts: seq<Instance>)
    ensures PublicAddresses(insts) <= CountInstances(insts, "aws_instance") + CountInstances(insts, "aws_eip")
  {
    if insts != [] {
      AddressesBounded(insts[..|insts| - 1]);
    }
  }

  /** The arguments that name a parent, one or a list, and the parent's type. */
  datatype Parent = One(typ: string) | Many(typ: string)

  function ParentOf(resourceType: string, argument: string): Option<Parent> {
    match argument
    case "subnet_id" => if resourceType in {"aws_instance", "aws_route_table_association"} then Some(One("aws_subnet")) else None
    case "vpc_security_group_ids" => if resourceType == "aws_instance" then Some(Many("aws_security_group")) else None
    case "vpc_id" =>
      if resourceType in {"aws_subnet", "aws_internet_gateway", "aws_route_table", "aws_security_group"}
      then Some(One("aws_vpc")) else None
    case "route_table_id" =>
      if resourceType in {"aws_route", "aws_route_table_association"} then Some(One("aws_route_table")) else None
    case "gateway_id" => if resourceType == "aws_route" then Some(One("aws_internet_gateway")) else None
    case "instance" => if resourceType == "aws_eip" then Some(One("aws_instance")) else None
    case _ => None
  }

  predicate IdInStack(v: Value, typ: string, insts: seq<Instance>) {
    v.Id? && v.resourceType == typ && exists i :: 0 <= i < |insts| && insts[i].resourceType == typ && insts[i].name == v.name
  }

  /** Every parent id an instance sets is the id of a resource of this stack, of
      the parent's type. */
  ghost predicate ParentsInStack(inst: Instance, insts: seq<Instance>) {
    forall a :: a in inst.body.attrs && ParentOf(inst.resourceType, a).Some? ==>
      var v := inst.body.attrs[a];
      match ParentOf(inst.resourceType, a).value
      case One(t) => IdInStack(v, t, insts)
      case Many(t) => v.List? && forall k :: 0 <= k < |v.items| ==> IdInStack(v.items[k], t, insts)
  }

  /** What costs or leaves the region, where it is set: shared tenancy, an address
      of the vpc, and a standard zone of the region. */
  predicate PlainSettings(inst: Instance, region: string) {
    && (inst.resourceType == "aws_vpc" && "instance_tenancy" in inst.body.attrs ==>
          inst.body.attrs["instance_tenancy"] == Str("default"))
    && (inst.resourceType == "aws_eip" && "domain" in inst.body.attrs ==> inst.body.attrs["domain"] == Str("vpc"))
    && (inst.resourceType == "aws_subnet" && "availability_zone" in inst.body.attrs ==>
          exists c :: 'a' <= c <= 'z' && inst.body.attrs["availability_zone"] == Str(region + [c]))
  }

  /** What the gate promises of one instance among those an admitted stack creates. */
  ghost predicate InstanceBounded(inst: Instance, insts: seq<Instance>, input: Inputs, account: Account) {
    && HasPrefix(inst.resourceType, "aws_") && TypeAllowed(inst.resourceType, input.allowedTypes)
    && ParentsInStack(inst, insts) && PlainSettings(inst, input.region)
    && (inst.resourceType == "aws_instance" ==>
        && NoOtherVolume(inst)
        && RootVolume(inst, account.images).Some? && VolumeBounded(RootVolume(inst, account.images).value)
        && "instance_type" in inst.body.attrs
        && inst.body.attrs["instance_type"] in {Str("t3.micro"), Str("t3.small")}
        && "ami" in inst.body.attrs && inst.body.attrs["ami"] == Str(input.amiId)
        && BootsScript(inst, account.other, account.funcs))
  }

  /** What the gate promises of everything an admitted stack creates. */
  ghost predicate StackBounded(insts: seq<Instance>, input: Inputs, account: Account) {
    && CountInstances(insts, "aws_instance") == 1 && CountInstances(insts, "aws_eip") <= 1
    && PublicAddresses(insts) <= 2
    && (forall i :: 0 <= i < |insts| ==> InstanceBounded(insts[i], insts, input, account))
  }

  predicate RuleIs(resourceType: string, argument: string, rule: Rule) {
    RulesOf(resourceType).Some? && argument in RulesOf(resourceType).value && RulesOf(resourceType).value[argument] == rule
  }

  lemma InstanceParentRules()
    ensures RuleIs("aws_instance", "subnet_id", RefTo("aws_subnet"))
    ensures RuleIs("aws_instance", "vpc_security_group_ids", RefsTo("aws_security_group"))
    ensures RuleIs("aws_eip", "instance", RefTo("aws_instance"))
  {
  }

  lemma VpcParentRules()
    ensures RuleIs("aws_subnet", "vpc_id", RefTo("aws_vpc")) && RuleIs("aws_internet_gateway", "vpc_id", RefTo("aws_vpc"))
    ensures RuleIs("aws_route_table", "vpc_id", RefTo("aws_vpc")) && RuleIs("aws_security_group", "vpc_id", RefTo("aws_vpc"))
  {
  }

  lemma RouteParentRules()
    ensures RuleIs("aws_route", "route_table_id", RefTo("aws_route_table"))
    ensures RuleIs("aws_route", "gateway_id", RefTo("aws_internet_gateway"))
    ensures RuleIs("aws_route_table_association", "route_table_id", RefTo("aws_route_table"))
    ensures RuleIs("aws_route_table_association", "subnet_id", RefTo("aws_subnet"))
  {
  }

  ghost predicate ParentIsRule(resourceType: string, argument: string)
    requires ParentOf(resourceType, argument).Some?
  {
    match ParentOf(resourceType, argument).value
    case One(t) => RuleIs(resourceType, argument, RefTo(t))
    case Many(t) => RuleIs(resourceType, argument, RefsTo(t))
  }

  /** The table judges every parent argument by its parent's type. */
  lemma ParentRule(resourceType: string, argument: string)
    requires ParentOf(resourceType, argument).Some?
    ensures ParentIsRule(resourceType, argument)
  {
    match argument
    case "subnet_id" => InstanceParentRules(); RouteParentRules();
    case "vpc_security_group_ids" => InstanceParentRules();
    case "vpc_id" => VpcParentRules();
    case "route_table_id" => RouteParentRules();
    case "gateway_id" => RouteParentRules();
    case "instance" => InstanceParentRules();
    case _ =>
  }

  lemma ParentsSound(inst: Instance, insts: seq<Instance>, input: Inputs, declared: set<(string, string)>)
    requires InstanceWithin(inst, input, declared)
    requires forall d :: d in declared ==> Created(d, insts)
    ensures ParentsInStack(inst, insts)
  {
    var rules := RulesOf(inst.resourceType).value;
    forall a | a in inst.body.attrs && ParentOf(inst.resourceType, a).Some?
      ensures var v := inst.body.attrs[a];
              match ParentOf(inst.resourceType, a).value
              case One(t) => IdInStack(v, t, insts)
              case Many(t) => v.List? && forall k :: 0 <= k < |v.items| ==> IdInStack(v.items[k], t, insts)
    {
      ParentRule(inst.resourceType, a);
      assert Within(inst.body.attrs[a], rules[a], input.region, declared);
      IdsInStack(inst.body.attrs[a], rules[a], input.region, declared, insts);
    }
  }

  lemma IdsInStack(v: Value, rule: Rule, region: string, declared: set<(string, string)>, insts: seq<Instance>)
    requires Within(v, rule, region, declared) && (rule.RefTo? || rule.RefsTo?)
    requires forall d :: d in declared ==> Created(d, insts)
    ensures rule.RefTo? ==> IdInStack(v, rule.ref, insts)
    ensures rule.RefsTo? ==> v.List? && forall k :: 0 <= k < |v.items| ==> IdInStack(v.items[k], rule.ref, insts)
  {
    if rule.RefTo? {
      assert Created((rule.ref, v.name), insts);
    } else {
      forall k | 0 <= k < |v.items| ensures IdInStack(v.items[k], rule.ref, insts) {
        assert Created((rule.ref, v.items[k].name), insts);
      }
    }
  }

  lemma SettingRules()
    ensures RuleIs("aws_vpc", "instance_tenancy", Enum(["default"])) && RuleIs("aws_eip", "domain", Enum(["vpc"]))
    ensures RuleIs("aws_subnet", "availability_zone", Zone)
  {
  }

  lemma SettingsSound(inst: Instance, input: Inputs, declared: set<(string, string)>)
    requires InstanceWithin(inst, input, declared)
    ensures PlainSettings(inst, input.region)
  {
    SettingRules();
    var rules, attrs := RulesOf(inst.resourceType).value, inst.body.attrs;
    assert forall a :: a in attrs ==> Within(attrs[a], rules[a], input.region, declared);
    if inst.resourceType == "aws_subnet" && "availability_zone" in attrs {
      var zone := attrs["availability_zone"].s;
      assert zone == input.region + [zone[|input.region|]];
    }
  }

  lemma InstanceTypeBounded(inst: Instance, input: Inputs, declared: set<(string, string)>)
    requires inst.resourceType == "aws_instance" && InstanceWithin(inst, input, declared) && NoOtherVolume(inst)
    ensures "instance_type" in inst.body.attrs && inst.body.attrs["instance_type"] in {Str("t3.micro"), Str("t3.small")}
  {
    assert forall i :: 0 <= i < |inst.body.blocks| ==> inst.body.blocks[i].typ != "launch_template";
    assert INSTANCE_RULES["instance_type"] == Enum(["t3.micro", "t3.small"]);
  }

  lemma InstanceSound(inst: Instance, insts: seq<Instance>, input: Inputs, account: Account, declared: set<(string, string)>)
    requires InstanceWithin(inst, input, declared)
    requires inst.resourceType == "aws_instance" ==> BootsScript(inst, account.other, account.funcs)
    requires forall d :: d in declared ==> Created(d, insts)
    requires input.amiId in account.images && account.images[input.amiId] == input.amiRoot && RootAdmitted(input.amiRoot)
    ensures InstanceBounded(inst, insts, input, account)
  {
    ParentsSound(inst, insts, input, declared);
    SettingsSound(inst, input, declared);
    if inst.resourceType == "aws_instance" {
      RootBounded(inst, input, account.images, declared);
      InstanceTypeBounded(inst, input, declared);
    }
  }

  lemma AllSound(insts: seq<Instance>, input: Inputs, account: Account, scope: Scope)
    requires AllWithin(insts, input, scope.declared) && AllBoot(insts, scope)
    requires scope.other == account.other && scope.funcs == account.funcs
    requires forall d :: d in scope.declared ==> Created(d, insts)
    requires input.amiId in account.images && account.images[input.amiId] == input.amiRoot && RootAdmitted(input.amiRoot)
    ensures forall i :: 0 <= i < |insts| ==> InstanceBounded(insts[i], insts, input, account)
  {
    forall i | 0 <= i < |insts| ensures InstanceBounded(insts[i], insts, input, account) {
      InstanceSound(insts[i], insts, input, account, scope.declared);
    }
  }

  lemma CountsBounded(insts: seq<Instance>, blocks: seq<Block>)
    requires CountsAsDeclared(insts, blocks)
    requires CountDeclared(blocks, "aws_instance") == 1 && CountDeclared(blocks, "aws_eip") <= 1
    ensures CountInstances(insts, "aws_instance") == 1 && CountInstances(insts, "aws_eip") <= 1 && PublicAddresses(insts) <= 2
  {
    AddressesBounded(insts);
  }

  lemma StackSound(blocks: seq<Block>, input: Inputs, scope: Scope, account: Account)
    requires AllMakeOne(blocks, input, scope)
    requires CountDeclared(blocks, "aws_instance") == 1 && CountDeclared(blocks, "aws_eip") <= 1
    requires scope.declared == Declared(blocks) && scope.other == account.other && scope.funcs == account.funcs
    requires PlanBlocks(blocks, scope, account).Some?
    requires input.amiId in account.images && account.images[input.amiId] == input.amiRoot && RootAdmitted(input.amiRoot)
    ensures StackBounded(PlanBlocks(blocks, scope, account).value, input, account)
  {
    var insts := PlanBlocks(blocks, scope, account).value;
    BlocksSound(blocks, input, scope, account);
    CountsBounded(insts, blocks);
    AllSound(insts, input, account, scope);
  }

  ghost predicate AllAdmitted(blocks: seq<Block>, defaults: map<string, Value>, input: Inputs) {
    forall i :: 0 <= i < |blocks| ==> BlockAdmitted(blocks[i], defaults, input)
  }

  ghost predicate AllMakeOne(blocks: seq<Block>, input: Inputs, scope: Scope) {
    forall i :: 0 <= i < |blocks| ==> MakesOneWithin(blocks[i], input, scope)
  }

  lemma AdmittedMakeOne(blocks: seq<Block>, defaults: map<string, Value>, input: Inputs, scope: Scope)
    requires AllAdmitted(blocks, defaults, input) && DefaultsHold(defaults, scope.vars)
    ensures AllMakeOne(blocks, input, scope)
  {
    forall i | 0 <= i < |blocks| ensures MakesOneWithin(blocks[i], input, scope) {
      AdmittedMakesOne(blocks[i], defaults, input, scope);
    }
  }

  /** Blocks admitted under defaults that are the variables' values create one
      server with one bounded root volume, at most two public addresses, and
      only allowed types whose parents are in the stack, whatever the account's
      references, functions and modules do. */
  lemma AdmittedIsBounded(blocks: seq<Block>, defaults: map<string, Value>, input: Inputs, account: Account)
    requires AllAdmitted(blocks, defaults, input)
    requires CountDeclared(blocks, "aws_instance") == 1 && CountDeclared(blocks, "aws_eip") <= 1
    requires Plan(blocks, account).Some? && DefaultsHold(defaults, PlanVars(blocks).value)
    requires input.amiId in account.images && account.images[input.amiId] == input.amiRoot && RootAdmitted(input.amiRoot)
    ensures StackBounded(Plan(blocks, account).value, input, account)
  {
    var scope := ScopeOf(blocks, PlanVars(blocks).value, account);
    AdmittedMakeOne(blocks, defaults, input, scope);
    StackSound(blocks, input, scope, account);
  }

  // ----- What the gate admits of a server -----

  /** The expression is one the gate resolves to one of some values. */
  predicate ResolvesTo(e: Expr, defaults: map<string, Value>, values: set<Value>) {
    Resolve(e, defaults).Some? && Resolve(e, defaults).value in values
  }

  /** A server's arguments, and how the table judges each. */
  lemma InstanceTable(argument: string)
    ensures argument in INSTANCE_RULES <==>
            argument in {"ami", "instance_type", "subnet_id", "vpc_security_group_ids", "associate_public_ip_address",
                         "user_data", "tags", "root_block_device"}
    ensures argument in {"ami", "user_data"} ==> INSTANCE_RULES[argument] == Delegated
    ensures argument == "tags" ==> INSTANCE_RULES[argument] == Any
    ensures argument == "instance_type" ==> INSTANCE_RULES[argument] == Enum(["t3.micro", "t3.small"])
    ensures argument == "associate_public_ip_address" ==> INSTANCE_RULES[argument] == Bools([true, false])
    ensures argument == "subnet_id" ==> INSTANCE_RULES[argument] == RefTo("aws_subnet")
    ensures argument == "vpc_security_group_ids" ==> INSTANCE_RULES[argument] == RefsTo("aws_security_group")
    ensures argument == "root_block_device" ==> INSTANCE_RULES[argument].BlockOf?
  {
  }

  /** Every argument of a server, and exactly what the gate admits of it. */
  predicate ServerArgument(argument: string, e: Expr, defaults: map<string, Value>) {
    match argument
    case "instance_type" => ResolvesTo(e, defaults, {Str("t3.micro"), Str("t3.small")})
    case "associate_public_ip_address" => ResolvesTo(e, defaults, {Bool(true), Bool(false)})
    case "subnet_id" => IsIdRef(e, "aws_subnet")
    case "vpc_security_group_ids" => IsIdRefList(e, "aws_security_group")
    case _ => argument in {"ami", "user_data", "tags"}
  }

  lemma ServerArguments(argument: string, e: Expr, defaults: map<string, Value>, region: string)
    ensures AttrAdmitted(argument, e, INSTANCE_RULES, false, defaults, region) <==> ServerArgument(argument, e, defaults)
  {
    InstanceTable(argument);
  }

  /** And of its root volume's. */
  lemma RootArgumentsAdmitted(argument: string, e: Expr, defaults: map<string, Value>, region: string)
    ensures AttrAdmitted(argument, e, ROOT_BLOCK_RULES, false, defaults, region) <==>
            match argument
            case "volume_size" => Resolve(e, defaults).Some? && Resolve(e, defaults).value.Num? && Resolve(e, defaults).value.n <= 20.0
            case "volume_type" => ResolvesTo(e, defaults, {Str("gp3")})
            case "delete_on_termination" => ResolvesTo(e, defaults, {Bool(true)})
            case _ => false
  {
  }

  // ----- What an admitted stack can run -----

  /** A block of a type stands somewhere inside. */
  predicate HasInside(b: Block, typ: string)
    decreases b
  {
    exists i :: 0 <= i < |b.body.blocks| && (b.body.blocks[i].typ == typ || HasInside(b.body.blocks[i], typ))
  }

  lemma {:induction false} NothingDeniedInside(b: Block, typ: string)
    requires NoDeniedNested(b) && typ in DENIED_NESTED_BLOCKS
    ensures !HasInside(b, typ)
    decreases b
  {
    forall i | 0 <= i < |b.body.blocks| ensures b.body.blocks[i].typ != typ && !HasInside(b.body.blocks[i], typ) {
      NothingDeniedInside(b.body.blocks[i], typ);
    }
  }

  /** What a block can have tofu run or fetch besides creating it: a data source or
      a module of its own, a program a provisioner runs, a condition evaluated at
      plan time, a backend, or blocks generated where no rule sees them. */
  predicate RunsOrFetches(b: Block) {
    b.typ !in {"terraform", "provider", "variable", "output", "locals", "resource"}
    || HasInside(b, "provisioner") || HasInside(b, "connection") || HasInside(b, "backend") || HasInside(b, "cloud")
    || HasInside(b, "lifecycle") || HasInside(b, "dynamic")
  }

  lemma {:induction false} AdmittedRunsNothing(b: Block, defaults: map<string, Value>, input: Inputs)
    requires BlockAdmitted(b, defaults, input)
    ensures !RunsOrFetches(b)
  {
    NothingDeniedInside(b, "provisioner");
    NothingDeniedInside(b, "connection");
    NothingDeniedInside(b, "backend");
    NothingDeniedInside(b, "cloud");
    NothingDeniedInside(b, "lifecycle");
    NothingDeniedInside(b, "dynamic");
  }

  // ----- What an admitted stack can read -----

  /** Scopes an admitted stack cannot tell apart: pure functions agree, and so
      does the one file() call the gate admits. */
  ghost predicate SameToGate(a: Scope, b: Scope) {
    SameBut(a, b, PURE_FUNCTIONS) && Eval(USER_DATA_EXPR, Some(a)) == Eval(USER_DATA_EXPR, Some(b))
  }

  lemma {:induction false} AttrsBlind(b: Block, s: Scope, s': Scope)
    requires CallsAdmitted(b) && b.typ != "variable" && SameToGate(s, s')
    ensures forall x :: x in b.body.attrs ==> Eval(b.body.attrs[x], Some(s)) == Eval(b.body.attrs[x], Some(s'))
  {
    forall x | x in b.body.attrs ensures Eval(b.body.attrs[x], Some(s)) == Eval(b.body.attrs[x], Some(s')) {
      if !Exempt(b, x, b.body.attrs[x]) {
        BlindToOtherFunctions(b.body.attrs[x], s, s', PURE_FUNCTIONS);
      }
    }
  }

  lemma SamePlanAttrs(attrs: map<string, Expr>, s: Scope, s': Scope)
    requires forall x :: x in attrs ==> Eval(attrs[x], Some(s)) == Eval(attrs[x], Some(s'))
    ensures AllEvaluate(attrs, s) <==> AllEvaluate(attrs, s')
    ensures AllEvaluate(attrs, s) ==> PlanAttrs(attrs, s) == PlanAttrs(attrs, s')
  {
  }

  /** Nested blocks hold no blocks of their own, and evaluate alike. */
  lemma {:induction false} NestedBlind(blocks: seq<Block>, s: Scope, s': Scope)
    requires SameToGate(s, s')
    requires forall i :: 0 <= i < |blocks| ==>
        CallsAdmitted(blocks[i]) && blocks[i].typ != "variable" && blocks[i].typ != "dynamic" && blocks[i].body.blocks == []
    ensures PlanNested(blocks, s) == PlanNested(blocks, s')
    decreases |blocks|
  {
    if blocks != [] {
      AttrsBlind(blocks[0], s, s');
      SamePlanAttrs(blocks[0].body.attrs, s, s');
      assert PlanBody(blocks[0].body, s) == PlanBody(blocks[0].body, s');
      NestedBlind(blocks[1..], s, s');
    }
  }

  lemma {:induction false} NoBlocksAdmitted(body: Body, rules: Rules, defaults: map<string, Value>, region: string)
    requires BodyAdmitted(body, rules, false, defaults, region)
    requires forall x :: x in rules ==> !rules[x].BlockOf?
    ensures body.blocks == []
  {
    assert body.blocks != [] ==> NestedAdmitted(body.blocks[0], rules, false, defaults, region);
  }

  lemma {:induction false} NestedIsFlat(b: Block, rules: Rules, defaults: map<string, Value>, region: string)
    requires WellShaped(rules) && "variable" !in rules && NoDeniedNested(b) && CallsAdmitted(b)
    requires BodyAdmitted(b.body, rules, true, defaults, region)
    ensures forall i :: 0 <= i < |b.body.blocks| ==>
        var n := b.body.blocks[i];
        CallsAdmitted(n) && n.typ != "variable" && n.typ != "dynamic" && n.typ !in META_BLOCKS && n.body.blocks == []
  {
    forall i | 0 <= i < |b.body.blocks|
      ensures var n := b.body.blocks[i];
              CallsAdmitted(n) && n.typ != "variable" && n.typ != "dynamic" && n.typ !in META_BLOCKS && n.body.blocks == []
    {
      var n := b.body.blocks[i];
      assert n.typ !in DENIED_NESTED_BLOCKS && NestedAdmitted(n, rules, true, defaults, region);
      NoBlocksAdmitted(n.body, rules[n.typ].block, defaults, region);
    }
  }

  /** A resource whose nested blocks are flat evaluates alike in both scopes. */
  lemma {:induction false} FlatBlind(b: Block, s: Scope, s': Scope)
    requires b.typ != "variable" && CallsAdmitted(b) && SameToGate(s, s')
    requires forall i :: 0 <= i < |b.body.blocks| ==>
               var n := b.body.blocks[i];
               CallsAdmitted(n) && n.typ != "variable" && n.typ != "dynamic" && n.typ !in META_BLOCKS && n.body.blocks == []
    ensures PlanBody(Arguments(b), s) == PlanBody(Arguments(b), s')
  {
    NothingMeta(b.body.blocks);
    AttrsBlind(b, s, s');
    SamePlanAttrs(Arguments(b).attrs, s, s');
    NestedBlind(b.body.blocks, s, s');
  }

  lemma {:induction false} ResourceBlind(b: Block, defaults: map<string, Value>, input: Inputs, s: Scope, s': Scope)
    requires b.typ == "resource" && BlockAdmitted(b, defaults, input) && SameToGate(s, s')
    ensures PlanResource(b, s) == PlanResource(b, s')
  {
    TableWellShaped(b.labels[0]);
    NestedIsFlat(b, RulesOf(b.labels[0]).value, defaults, input.region);
    FlatBlind(b, s, s');
  }

  lemma {:induction false} BlocksBlind(blocks: seq<Block>, defaults: map<string, Value>, input: Inputs,
                                       s: Scope, s': Scope, a: Account, b: Account)
    requires AllAdmitted(blocks, defaults, input)
    requires SameToGate(s, s')
    ensures PlanBlocks(blocks, s, a) == PlanBlocks(blocks, s', b)
  {
    if blocks != [] {
      var last := blocks[|blocks| - 1];
      BlocksBlind(blocks[..|blocks| - 1], defaults, input, s, s', a, b);
      assert BlockAdmitted(last, defaults, input);
      if last.typ == "resource" {
        ResourceBlind(last, defaults, input, s, s');
      }
    }
  }

  /** Admitted blocks read nothing but pure functions and the rendered script:
      accounts that agree on those give the same plan, whatever any other
      function, or any module, would do in either. */
  lemma AdmittedReadsOnlyTheScript(blocks: seq<Block>, defaults: map<string, Value>, input: Inputs, a: Account, b: Account)
    requires AllAdmitted(blocks, defaults, input)
    requires forall vars :: SameToGate(ScopeOf(blocks, vars, a), ScopeOf(blocks, vars, b))
    ensures Plan(blocks, a) == Plan(blocks, b)
  {
    if PlanVars(blocks).Some? {
      var vars := PlanVars(blocks).value;
      assert SameToGate(ScopeOf(blocks, vars, a), ScopeOf(blocks, vars, b));
      BlocksBlind(blocks, defaults, input, ScopeOf(blocks, vars, a), ScopeOf(blocks, vars, b), a, b);
    }
  }
}
