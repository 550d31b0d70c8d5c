/** The AWS Layer 3 gate: what a stack may declare before any tofu runs. */
module AwsGate {
  import opened Wrappers
  import opened Hcl

  /** What an allowlisted attribute's value, or a nested block, must be. */
  datatype Rule =
    | Any
    | Delegated
    | Enum(values: seq<string>)
    | Max(max: real)
    | Bools(bools: seq<bool>)
    | RefTo(ref: string)
    | RefsTo(ref: string)
    | Zone
    | BlockOf(block: map<string, Rule>, most: nat)

  type Rules = map<string, Rule>

  const EITHER_WAY := Bools([true, false])

  const INGRESS_RULE := BlockOf(map[
    "from_port" := Any, "to_port" := Any, "protocol" := Any,
    "cidr_blocks" := Any, "ipv6_cidr_blocks" := Any, "description" := Any], 0)

  const ROOT_BLOCK_RULES: Rules := map[
    "volume_size" := Max(20.0),
    "volume_type" := Enum(["gp3"]),
    "delete_on_termination" := Bools([true])]

  const INSTANCE_RULES: Rules := map[
    "ami" := Delegated,
    "instance_type" := Enum(["t3.micro", "t3.small"]),
    "subnet_id" := RefTo("aws_subnet"),
    "vpc_security_group_ids" := RefsTo("aws_security_group"),
    "associate_public_ip_address" := EITHER_WAY,
    "user_data" := Delegated,
    "tags" := Any,
    "root_block_device" := BlockOf(ROOT_BLOCK_RULES, 1)]

  const VPC_RULES: Rules := map[
    "cidr_block" := Any, "enable_dns_support" := EITHER_WAY, "enable_dns_hostnames" := EITHER_WAY,
    "instance_tenancy" := Enum(["default"]), "tags" := Any]

  const SUBNET_RULES: Rules := map[
    "vpc_id" := RefTo("aws_vpc"), "cidr_block" := Any, "availability_zone" := Zone,
    "map_public_ip_on_launch" := EITHER_WAY, "tags" := Any]

  const IN_VPC_RULES: Rules := map["vpc_id" := RefTo("aws_vpc"), "tags" := Any]

  const ROUTE_RULES: Rules := map[
    "route_table_id" := RefTo("aws_route_table"), "destination_cidr_block" := Any,
    "gateway_id" := RefTo("aws_internet_gateway")]

  const ASSOCIATION_RULES: Rules := map[
    "subnet_id" := RefTo("aws_subnet"), "route_table_id" := RefTo("aws_route_table")]

  const SECURITY_GROUP_RULES: Rules := map[
    "name" := Any, "description" := Any, "vpc_id" := RefTo("aws_vpc"), "tags" := Any,
    "ingress" := INGRESS_RULE, "egress" := INGRESS_RULE]

  const EIP_RULES: Rules := map["domain" := Enum(["vpc"]), "instance" := RefTo("aws_instance"), "tags" := Any]

  /** awsAttrAllowlist: a type with no entry is refused. */
  function RulesOf(resourceType: string): Option<Rules> {
    match resourceType
    case "aws_instance" => Some(INSTANCE_RULES)
    case "aws_vpc" => Some(VPC_RULES)
    case "aws_subnet" => Some(SUBNET_RULES)
    case "aws_internet_gateway" => Some(IN_VPC_RULES)
    case "aws_route_table" => Some(IN_VPC_RULES)
    case "aws_route" => Some(ROUTE_RULES)
    case "aws_route_table_association" => Some(ASSOCIATION_RULES)
    case "aws_security_group" => Some(SECURITY_GROUP_RULES)
    case "aws_eip" => Some(EIP_RULES)
    case _ => None
  }

  const META_ATTRIBUTES := {"depends_on", "count", "for_each", "provider"}
  const META_BLOCKS := {"lifecycle"}
  const TOP_LEVEL_BLOCKS := {"terraform", "provider", "variable", "output", "locals", "resource"}
  const DENIED_NESTED_BLOCKS := {"provisioner", "connection", "lifecycle", "backend", "cloud", "dynamic"}

  const PURE_FUNCTIONS := {
    "one", "concat", "merge", "lookup", "element", "length", "keys", "values", "flatten", "distinct",
    "compact", "slice", "contains", "coalesce", "coalescelist", "zipmap", "range", "tolist", "toset",
    "tomap", "format", "formatlist", "join", "split", "replace", "substr", "trimspace", "trim",
    "trimprefix", "trimsuffix", "lower", "upper", "title", "chomp", "regex", "regexall", "strcontains",
    "max", "min", "abs", "ceil", "floor", "tostring", "tonumber", "tobool", "jsonencode", "jsondecode",
    "try", "can", "cidrsubnet", "cidrhost", "cidrnetmask"}

  /** A root volume, as an image or an instance has it. */
  datatype Volume = Volume(sizeGiB: real, volumeType: string, deleteOnTermination: bool)

  datatype Inputs = Inputs(allowedTypes: seq<string>, region: string, amiId: string, amiRoot: Volume)

  predicate HasPrefix(s: string, prefix: string) {
    |prefix| <= |s| && s[..|prefix|] == prefix
  }

  /** resourceTypeAllowed: an exact type, or a prefix written with a final *. */
  predicate TypeAllowed(resourceType: string, allowed: seq<string>) {
    exists i :: 0 <= i < |allowed| &&
      if allowed[i] != "" && allowed[i][|allowed[i]| - 1] == '*'
      then HasPrefix(resourceType, allowed[i][..|allowed[i]| - 1])
      else resourceType == allowed[i]
  }

  // ----- Constants -----

  /** layer3ResolveConstant: a constant, or a variable's literal default.
      Steps after the variable's name are not read. */
  function Resolve(e: Expr, defaults: map<string, Value>): Option<Value> {
    if e.Traversal? then
      if e.root == "var" && e.steps != [] && e.steps[0].Attr? && e.steps[0].name in defaults
      then Some(defaults[e.steps[0].name]) else None
    else
      var v := Eval(e, None);
      if v.Some? && v.value != Null then v else None
  }

  /** The defaults the variable blocks declare; a later block wins. */
  function Defaults(blocks: seq<Block>): map<string, Value> {
    if blocks == [] then map[]
    else
      var before, b := Defaults(blocks[..|blocks| - 1]), blocks[|blocks| - 1];
      if b.typ == "variable" && b.labels != [] && "default" in b.body.attrs then
        var v := Eval(b.body.attrs["default"], None);
        if v.Some? && v.value != Null then before[b.labels[0] := v.value] else before
      else before
  }

  // ----- The rules, as conditions -----

  /** awsIsIDRef: a bare <type>.<name>.id. */
  predicate IsIdRef(e: Expr, resourceType: string) {
    e.Traversal? && e.root == resourceType && |e.steps| == 2 && e.steps[0].Attr? && e.steps[1] == Attr("id")
  }

  predicate IsIdRefList(e: Expr, resourceType: string) {
    e.Tuple? && forall i :: 0 <= i < |e.exprs| ==> IsIdRef(e.exprs[i], resourceType)
  }

  /** A standard zone of the region: the region and one lower-case letter. */
  predicate StandardZone(zone: string, region: string) {
    region != "" && |zone| == |region| + 1 && HasPrefix(zone, region) && 'a' <= zone[|region|] <= 'z'
  }

  predicate ValueAdmitted(e: Expr, rule: Rule, defaults: map<string, Value>, region: string) {
    var v := Resolve(e, defaults);
    match rule
    case Any => true
    case Delegated => true
    case RefTo(t) => IsIdRef(e, t)
    case RefsTo(t) => IsIdRefList(e, t)
    case Enum(values) => v.Some? && v.value.Str? && v.value.s in values
    case Max(max) => v.Some? && v.value.Num? && v.value.n <= max
    case Bools(bools) => v.Some? && v.value.Bool? && v.value.b in bools
    case Zone => v.Some? && v.value.Str? && StandardZone(v.value.s, region)
    case BlockOf(_, _) => false
  }

  function CountBlocks(blocks: seq<Block>, typ: string): nat {
    if blocks == [] then 0
    else CountBlocks(blocks[..|blocks| - 1], typ) + if blocks[|blocks| - 1].typ == typ then 1 else 0
  }

  ghost predicate AttrAdmitted(name: string, e: Expr, rules: Rules, top: bool, defaults: map<string, Value>, region: string) {
    (top && name in META_ATTRIBUTES)
    || (name in rules && !rules[name].BlockOf? && ValueAdmitted(e, rules[name], defaults, region))
  }

  ghost predicate AttrsAdmitted(attrs: map<string, Expr>, rules: Rules, top: bool, defaults: map<string, Value>, region: string) {
    forall a :: a in attrs ==> AttrAdmitted(a, attrs[a], rules, top, defaults, region)
  }

  /** How many of a block type the rules admit here, if they bound it. */
  predicate Bounded(t: string, rules: Rules, top: bool) {
    t in rules && rules[t].BlockOf? && rules[t].most > 0 && !(top && t in META_BLOCKS)
  }

  ghost predicate MostAdmitted(blocks: seq<Block>, rules: Rules, top: bool) {
    forall t :: Bounded(t, rules, top) ==> CountBlocks(blocks, t) <= rules[t].most
  }

  ghost predicate NestedAdmitted(b: Block, rules: Rules, top: bool, defaults: map<string, Value>, region: string)
    decreases b
  {
    (top && b.typ in META_BLOCKS)
    || (b.typ in rules && rules[b.typ].BlockOf? && BodyAdmitted(b.body, rules[b.typ].block, false, defaults, region))
  }

  /** A body every attribute and nested block of which is on the allowlist,
      within its bound. */
  ghost predicate BodyAdmitted(body: Body, rules: Rules, top: bool, defaults: map<string, Value>, region: string)
    decreases body
  {
    && AttrsAdmitted(body.attrs, rules, top, defaults, region)
    && (forall i :: 0 <= i < |body.blocks| ==> NestedAdmitted(body.blocks[i], rules, top, defaults, region))
    && MostAdmitted(body.blocks, rules, top)
  }

  /** The one file() call the gate admits: the rendered script's. */
  const USER_DATA_EXPR := Call("file", [Template([Traversal("path", [Attr("module")]), Lit(Str("/infrafactory-user-data.sh"))])])

  predicate Exempt(b: Block, attr: string, e: Expr) {
    b.typ == "resource" && b.labels != [] && b.labels[0] == "aws_instance" && attr == "user_data" && e == USER_DATA_EXPR
  }

  /** Every call in the block, nested blocks included, is of a pure function. */
  ghost predicate CallsAdmitted(b: Block)
    decreases b
  {
    && (forall a :: a in b.body.attrs ==>
        (b.typ == "variable" && a == "type") || Exempt(b, a, b.body.attrs[a]) || CallsOnly(b.body.attrs[a], PURE_FUNCTIONS))
    && (forall i :: 0 <= i < |b.body.blocks| ==> CallsAdmitted(b.body.blocks[i]))
  }

  ghost predicate NoDeniedNested(b: Block)
    decreases b
  {
    forall i :: 0 <= i < |b.body.blocks| ==>
      b.body.blocks[i].typ !in DENIED_NESTED_BLOCKS && NoDeniedNested(b.body.blocks[i])
  }

  /** awsAMIProblems' condition: ami is a literal equal to the resolved id. */
  predicate AmiAdmitted(b: Block, amiId: string) {
    amiId != "" && "ami" in b.body.attrs && Eval(b.body.attrs["ami"], None) == Some(Str(amiId))
  }

  ghost predicate ResourceAdmitted(b: Block, defaults: map<string, Value>, input: Inputs) {
    && b.labels != []
    && HasPrefix(b.labels[0], "aws_") && TypeAllowed(b.labels[0], input.allowedTypes)
    && "count" !in b.body.attrs && "for_each" !in b.body.attrs
    && RulesOf(b.labels[0]).Some? && BodyAdmitted(b.body, RulesOf(b.labels[0]).value, true, defaults, input.region)
    && (b.labels[0] == "aws_instance" ==>
        && "user_data" in b.body.attrs && b.body.attrs["user_data"] == USER_DATA_EXPR
        && AmiAdmitted(b, input.amiId))
  }

  ghost predicate BlockAdmitted(b: Block, defaults: map<string, Value>, input: Inputs) {
    && b.typ in TOP_LEVEL_BLOCKS && NoDeniedNested(b) && CallsAdmitted(b)
    && (b.typ == "resource" ==> ResourceAdmitted(b, defaults, input))
  }

  /** How many resources of a type the stack declares. */
  function CountDeclared(blocks: seq<Block>, resourceType: string): nat {
    if blocks == [] then 0
    else
      var b := blocks[|blocks| - 1];
      CountDeclared(blocks[..|blocks| - 1], resourceType)
      + if b.typ == "resource" && b.labels != [] && b.labels[0] == resourceType then 1 else 0
  }

  predicate RootAdmitted(root: Volume) {
    1.0 <= root.sizeGiB <= 20.0 && root.volumeType == "gp3" && root.deleteOnTermination
  }

  /** What the gate admits; blocks are the stack's top-level blocks, file by file. */
  ghost predicate StackAdmitted(blocks: seq<Block>, input: Inputs) {
    && (forall i :: 0 <= i < |blocks| ==> BlockAdmitted(blocks[i], Defaults(blocks), input))
    && CountDeclared(blocks, "aws_instance") == 1 && CountDeclared(blocks, "aws_eip") <= 1
    && RootAdmitted(input.amiRoot)
  }

  // ----- The drivers, as they run -----

  /** A problem, named by the rule that found it and what it is about. */
  datatype Problem = Problem(rule: string, about: string)

  /** What the driver's other rules report: those on a block's indexes and
      fallbacks, on the providers, and on the rendered script's file. */
  datatype Others = Others(undestroyable: Block -> seq<Problem>, provider: seq<Problem>, script: seq<Problem>)

  /** bodyProblems' first loop. Attributes are visited in any order, as a Go map is. */
  method AttributeProblems(attrs: map<string, Expr>, rules: Rules, top: bool, defaults: map<string, Value>, region: string)
    returns (problems: seq<Problem>)
    ensures problems == [] <==> AttrsAdmitted(attrs, rules, top, defaults, region)
  {
    problems := [];
    var todo := attrs.Keys;
    while todo != {}
      invariant todo <= attrs.Keys
      invariant problems == [] <==>
          forall a :: a in attrs && a !in todo ==> AttrAdmitted(a, attrs[a], rules, top, defaults, region)
      decreases |todo|
    {
      var a :| a in todo;
      todo := todo - {a};
      if top && a in META_ATTRIBUTES {
        continue;
      }
      if a !in rules || rules[a].BlockOf? {
        problems := problems + [Problem("attribute", a)];
      } else if !ValueAdmitted(attrs[a], rules[a], defaults, region) {
        problems := problems + [Problem("value", a)];
      }
    }
  }

  /** seen counts the admitted blocks of each type among the blocks so far. */
  ghost predicate Counts(seen: map<string, nat>, blocks: seq<Block>, rules: Rules, top: bool) {
    forall t :: t in rules && rules[t].BlockOf? && !(top && t in META_BLOCKS) ==>
      CountBlocks(blocks, t) == if t in seen then seen[t] else 0
  }

  lemma OneMoreSkipped(seen: map<string, nat>, blocks: seq<Block>, b: Block, rules: Rules, top: bool)
    requires Counts(seen, blocks, rules, top)
    requires (top && b.typ in META_BLOCKS) || b.typ !in rules || !rules[b.typ].BlockOf?
    ensures Counts(seen, blocks + [b], rules, top)
    ensures MostAdmitted(blocks + [b], rules, top) <==> MostAdmitted(blocks, rules, top)
  {
    assert (blocks + [b])[..|blocks|] == blocks;
    assert forall t :: t in rules && rules[t].BlockOf? && !(top && t in META_BLOCKS) ==>
        CountBlocks(blocks + [b], t) == CountBlocks(blocks, t);
  }

  /** Counting one more block: the bound breaks at the first block past it. */
  lemma OneMoreCounted(seen: map<string, nat>, blocks: seq<Block>, b: Block, rules: Rules, top: bool)
    requires Counts(seen, blocks, rules, top)
    requires !(top && b.typ in META_BLOCKS) && b.typ in rules && rules[b.typ].BlockOf?
    ensures var n := (if b.typ in seen then seen[b.typ] else 0) + 1;
            && Counts(seen[b.typ := n], blocks + [b], rules, top)
            && (MostAdmitted(blocks + [b], rules, top) <==>
                MostAdmitted(blocks, rules, top) && !(n == rules[b.typ].most + 1 && rules[b.typ].most > 0))
  {
    assert (blocks + [b])[..|blocks|] == blocks;
    assert forall t :: CountBlocks(blocks + [b], t) == CountBlocks(blocks, t) + if t == b.typ then 1 else 0;
    if rules[b.typ].most > 0 {
      assert Bounded(b.typ, rules, top);
    }
  }

  /** One nested block of bodyProblems' second loop, its count aside. */
  method NestedBodyProblems(b: Block, rules: Rules, top: bool, defaults: map<string, Value>, region: string)
    returns (problems: seq<Problem>)
    ensures problems == [] <==> NestedAdmitted(b, rules, top, defaults, region)
    decreases b
  {
    if top && b.typ in META_BLOCKS {
      return [];
    }
    if b.typ !in rules || !rules[b.typ].BlockOf? {
      return [Problem("block", b.typ)];
    }
    problems := BodyProblems(b.body, rules[b.typ].block, false, defaults, region);
  }

  /** bodyProblems' count of one block: over its bound, it is a problem once. */
  method CountOne(seen: map<string, nat>, b: Block, rules: Rules, top: bool, ghost before: seq<Block>)
    returns (now: map<string, nat>, over: bool)
    requires Counts(seen, before, rules, top)
    ensures Counts(now, before + [b], rules, top)
    ensures MostAdmitted(before + [b], rules, top) <==> MostAdmitted(before, rules, top) && !over
  {
    if (top && b.typ in META_BLOCKS) || b.typ !in rules || !rules[b.typ].BlockOf? {
      OneMoreSkipped(seen, before, b, rules, top);
      return seen, false;
    }
    OneMoreCounted(seen, before, b, rules, top);
    now := seen[b.typ := (if b.typ in seen then seen[b.typ] else 0) + 1];
    over := now[b.typ] == rules[b.typ].most + 1 && rules[b.typ].most > 0;
  }

  /** The blocks so far are admitted one by one, and none is one too many. */
  ghost predicate FirstAdmitted(blocks: seq<Block>, i: nat, rules: Rules, top: bool, defaults: map<string, Value>, region: string)
    requires i <= |blocks|
  {
    && (forall k :: 0 <= k < i ==> NestedAdmitted(blocks[k], rules, top, defaults, region))
    && MostAdmitted(blocks[..i], rules, top)
  }

  /** bodyProblems. */
  method BodyProblems(body: Body, rules: Rules, top: bool, defaults: map<string, Value>, region: string)
    returns (problems: seq<Problem>)
    ensures problems == [] <==> BodyAdmitted(body, rules, top, defaults, region)
    decreases body
  {
    problems := AttributeProblems(body.attrs, rules, top, defaults, region);
    ghost var attrsAdmitted := problems == [];
    var seen: map<string, nat> := map[];
    for i := 0 to |body.blocks|
      invariant Counts(seen, body.blocks[..i], rules, top)
      invariant problems == [] <==> attrsAdmitted && FirstAdmitted(body.blocks, i, rules, top, defaults, region)
    {
      assert body.blocks[..i + 1] == body.blocks[..i] + [body.blocks[i]];
      var over;
      seen, over := CountOne(seen, body.blocks[i], rules, top, body.blocks[..i]);
      if over {
        problems := problems + [Problem("most", body.blocks[i].typ)];
      }
      var nested := NestedBodyProblems(body.blocks[i], rules, top, defaults, region);
      OneMoreAdmitted(body.blocks, i, over, rules, top, defaults, region);
      problems := problems + nested;
    }
    AllOfBody(body, rules, top, defaults, region);
  }

  lemma {:induction false} OneMoreAdmitted(
    blocks: seq<Block>, i: nat, over: bool, rules: Rules, top: bool, defaults: map<string, Value>, region: string)
    requires i < |blocks|
    requires MostAdmitted(blocks[..i + 1], rules, top) <==> MostAdmitted(blocks[..i], rules, top) && !over
    ensures FirstAdmitted(blocks, i + 1, rules, top, defaults, region) <==>
            FirstAdmitted(blocks, i, rules, top, defaults, region) && !over && NestedAdmitted(blocks[i], rules, top, defaults, region)
  {
  }

  lemma {:induction false} AllOfBody(body: Body, rules: Rules, top: bool, defaults: map<string, Value>, region: string)
    ensures BodyAdmitted(body, rules, top, defaults, region) <==>
            AttrsAdmitted(body.attrs, rules, top, defaults, region)
            && FirstAdmitted(body.blocks, |body.blocks|, rules, top, defaults, region)
  {
    assert body.blocks[..|body.blocks|] == body.blocks;
  }

  /** layer3NestedProblems. */
  method NestedProblems(b: Block) returns (problems: seq<Problem>)
    ensures problems == [] <==> NoDeniedNested(b)
    decreases b
  {
    problems := [];
    for i := 0 to |b.body.blocks|
      invariant problems == [] <==> forall k :: 0 <= k < i ==>
          b.body.blocks[k].typ !in DENIED_NESTED_BLOCKS && NoDeniedNested(b.body.blocks[k])
    {
      if b.body.blocks[i].typ in DENIED_NESTED_BLOCKS {
        problems := problems + [Problem("nested", b.body.blocks[i].typ)];
      }
      var inner := NestedProblems(b.body.blocks[i]);
      problems := problems + inner;
    }
  }

  /** layer3FunctionCallProblems, with the user-data exemption. */
  method CallProblems(b: Block) returns (problems: seq<Problem>)
    ensures problems == [] <==> CallsAdmitted(b)
    decreases b
  {
    problems := [];
    var todo := b.body.attrs.Keys;
    while todo != {}
      invariant todo <= b.body.attrs.Keys
      invariant problems == [] <==> forall a :: a in b.body.attrs && a !in todo ==>
          (b.typ == "variable" && a == "type") || Exempt(b, a, b.body.attrs[a]) || CallsOnly(b.body.attrs[a], PURE_FUNCTIONS)
      decreases |todo|
    {
      var a :| a in todo;
      todo := todo - {a};
      if !(b.typ == "variable" && a == "type") && !Exempt(b, a, b.body.attrs[a])
         && !CallsOnly(b.body.attrs[a], PURE_FUNCTIONS) {
        problems := problems + [Problem("call", a)];
      }
    }
    ghost var attrsAdmitted := problems == [];
    for i := 0 to |b.body.blocks|
      invariant problems == [] <==> attrsAdmitted && forall k :: 0 <= k < i ==> CallsAdmitted(b.body.blocks[k])
    {
      var inner := CallProblems(b.body.blocks[i]);
      problems := problems + inner;
    }
  }

  /** The rules of one resource block. */
  method ResourceProblems(b: Block, defaults: map<string, Value>, input: Inputs) returns (problems: seq<Problem>)
    ensures problems == [] <==> ResourceAdmitted(b, defaults, input)
  {
    problems := [];
    var typ := if b.labels == [] then "" else b.labels[0];
    if b.labels != [] {
      if !HasPrefix(typ, "aws_") {
        problems := problems + [Problem("cloud", typ)];
      } else if !TypeAllowed(typ, input.allowedTypes) {
        problems := problems + [Problem("type", typ)];
      }
    }
    if "count" in b.body.attrs {
      problems := problems + [Problem("multiplicity", "count")];
    }
    if "for_each" in b.body.attrs {
      problems := problems + [Problem("multiplicity", "for_each")];
    }
    if RulesOf(typ).None? {
      problems := problems + [Problem("allowlist", typ)];
    } else {
      var body := BodyProblems(b.body, RulesOf(typ).value, true, defaults, input.region);
      problems := problems + body;
    }
    if b.labels != [] && typ == "aws_instance" {
      if !("user_data" in b.body.attrs && b.body.attrs["user_data"] == USER_DATA_EXPR) {
        problems := problems + [Problem("user_data", typ)];
      }
      if !AmiAdmitted(b, input.amiId) {
        problems := problems + [Problem("ami", typ)];
      }
    }
  }

  /** awsBlockProblems: a block type that is not admitted is refused alone. */
  method BlockProblems(b: Block, defaults: map<string, Value>, input: Inputs, others: Others) returns (problems: seq<Problem>)
    ensures problems == [] <==> BlockAdmitted(b, defaults, input) && others.undestroyable(b) == []
    ensures b.typ !in TOP_LEVEL_BLOCKS ==> |problems| == 1
  {
    if b.typ !in TOP_LEVEL_BLOCKS {
      return [Problem("top level", b.typ)];
    }
    problems := NestedProblems(b);
    var calls := CallProblems(b);
    problems := problems + calls + others.undestroyable(b);
    if b.typ == "resource" {
      var resource := ResourceProblems(b, defaults, input);
      problems := problems + resource;
    }
  }

  /** awsMultiplicityProblems. */
  method StackMultiplicityProblems(blocks: seq<Block>) returns (problems: seq<Problem>)
    ensures problems == [] <==> CountDeclared(blocks, "aws_instance") == 1 && CountDeclared(blocks, "aws_eip") <= 1
  {
    var instances, eips := 0, 0;
    for i := 0 to |blocks|
      invariant instances == CountDeclared(blocks[..i], "aws_instance") && eips == CountDeclared(blocks[..i], "aws_eip")
    {
      assert blocks[..i + 1][..i] == blocks[..i];
      if blocks[i].typ == "resource" && blocks[i].labels != [] {
        if blocks[i].labels[0] == "aws_instance" {
          instances := instances + 1;
        } else if blocks[i].labels[0] == "aws_eip" {
          eips := eips + 1;
        }
      }
    }
    assert blocks[..|blocks|] == blocks;
    problems := [];
    if instances == 0 {
      problems := problems + [Problem("stack", "no aws_instance")];
    } else if instances > 1 {
      problems := problems + [Problem("stack", "aws_instance")];
    }
    if eips > 1 {
      problems := problems + [Problem("stack", "aws_eip")];
    }
  }

  /** validateAWSLayer3HCLShape, over the parsed stack. Its verdict is the
      same whatever order the attributes are visited in. */
  method Validate(blocks: seq<Block>, input: Inputs, others: Others) returns (problems: seq<Problem>)
    ensures problems == [] <==>
            && StackAdmitted(blocks, input)
            && (forall i :: 0 <= i < |blocks| ==> others.undestroyable(blocks[i]) == [])
            && others.provider == [] && others.script == []
  {
    var defaults := Defaults(blocks);
    problems := [];
    for i := 0 to |blocks|
      invariant problems == [] <==>
                forall k :: 0 <= k < i ==> BlockAdmitted(blocks[k], defaults, input) && others.undestroyable(blocks[k]) == []
    {
      var found := BlockProblems(blocks[i], defaults, input, others);
      problems := problems + found;
    }
    problems := problems + others.provider;
    var stack := StackMultiplicityProblems(blocks);
    problems := problems + stack;
    if !(1.0 <= input.amiRoot.sizeGiB <= 20.0) {
      problems := problems + [Problem("root", "size")];
    }
    if input.amiRoot.volumeType != "gp3" {
      problems := problems + [Problem("root", "type")];
    }
    if !input.amiRoot.deleteOnTermination {
      problems := problems + [Problem("root", "kept")];
    }
    problems := problems + others.script;
  }
}
