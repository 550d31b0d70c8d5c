# Infrafactory: proved models of its hardest parts

Infrafactory generates infrastructure code, applies it for real and takes it
down again. What can go wrong costs money or loses track of something running,
so most of its difficult code is a protocol around a state that outlives the
process: a claim in a parameter store, a deployment record, a state file, a
copy of it, a child process. The rest decides, before anything is applied,
whether a configuration may be.

Each module below models one such part and proves what the code promises of it
for every input, run or interleaving. Code that updates things in place is
modelled by classes and loops proved against a specification; the laws are
lemmas about that specification. `dafny verify dfyconfig.toml`
checks the whole project.

| module | what it models |
|---|---|
| `ModuleWalk` | the depth-first walk of local module calls, with its shared visited set and per-start path |
| `ScopeClaim` | the AWS scope's one stored claim: processes, requests whose answers may be lost, and what each process believes |
| `ScopeLifecycle` | teardown and reap over that claim: destroy, sweep, release, advice |
| `LiveTeardown` | a live deployment's teardown passes and the sweep flag they leave behind |
| `UpgradeSwap` | an upgrade's stash, replace and restore, one file operation at a time |
| `Hcl`, `AwsGate`, `AwsPlan`, `AwsFiles` | parsed HCL, the AWS Layer 3 gate over it, what evaluating it creates, and the files, override files among them, it comes from |
| `PitfallMerge` | merging swept pitfalls into a corpus through an index |
| `VersionPin` | the brace-matching rewriter of google provider entries |
| `DeployLock` | the server's deploy lock and the preview's two ordered reads |
| `HubRuns`, `WebsocketHub` | broadcasts, slow clients and shutdown, interleaved and in place |
| `ProgressSinks` | the writer that turns a byte stream into one event a line |
| `Fakeaws` | starting, retrying, stopping and recording a rehearsal's fakeaws process |
| `HoldCopy` | a hold's copy of the live state, with a kill possible at every file operation |
| `Passthrough` | the passthrough argument check against the grammar of Go's flag package |
| `Release` | exact releases, bounded providers, the lock and its changes |
| `Sorting`, `Wrappers` | sorted strings; the option type |

## What the proofs show about the code

Where a promise turns out not to hold as written, the model keeps the code as it
is and says exactly when it holds.

- **Override files.** tofu merges the blocks of `override.tf` and
  `*_override.tf` over the other files', and an override's default wins. The AWS
  gate reads all `.tf` files alike, in name order, and the last default wins. So
  an override that comes first by name escapes every bound a variable carries: an
  admitted stack creates an m5.24xlarge (`OverrideEscapes`). The values the gate
  takes for the variables are theirs if and only if, for each, the last default in
  name order has the value of the last with the override files moved behind
  (`DefaultsHoldExactly`); they are wherever override files, if any, have the last
  word by name and give no null (`OverridesLastAgree`), and where one does not, only by the two
  defaults having one value (`OrdinaryLastDisagrees`). Where they are, the gate is
  sound (`GateSound`).
- **Deletes that rob a holder.** A delete in the parameter store is
  unconditional. Two reaps that both read one ended holder can leave two
  processes believing they hold the claim (`OverlappingTakeOvers`), and a release
  whose delete landed unanswered can delete the next run's claim when it is tried
  again (`RetriedRelease`). A step breaks what the processes rely on if and only if
  it is a delete that lands on the claim of another live process that knows it
  holds it, at rest or entering again; and after any such delete some run, with no
  other, deceives that process (`RobberyBreaks`). Without one, beliefs are sound in
  every run (`BeliefsSound`); take-overs that do not overlap, with no delete tried
  twice, never make one (`SerialTakeOversSound`).
- **A deploy between the preview's reads.** The comment on the preview's two reads
  says that the reader's own deploy is refused when another starts between them.
  It is refused if and only if a request begun after the first read is in flight
  when the reader claims (`ClaimRefusedExactly`). One that is over by then refuses
  nothing and is in neither answer: the reader makes a second deploy
  (`SecondDeploy`).
- **The account id and the claim.** The comment on `ensureAWSScopeClaim` says
  the account is returned whenever the claim may be held. The code returns none
  when the claim was already held and an early check fails; `EnsureClaim`
  states what it does return. Entering again with an unknown claim forgets it;
  `EntryKeepsBelief` says when entering is safe.
- **Laundering.** The flag of a failed sweep is read only once the state is
  empty. A step loses a stray if and only if a destroy succeeds around it with
  the flag neither written nor there already, or a failed destroy or an upgrade
  drops it from a state the flag does not then cover, or an upgrade refills an
  emptied, flagged state without it (`LosesExactly`). In every run that loses nothing a release
  means that the project and every stray a state recorded are gone
  (`NoLaundering`); after any loss from an ordinary deployment, some run of passes
  and upgrades releases the record with the stray alive (`LossLaunders`). All
  this assumes that a run-project client is configured or that the record names
  the marker's project; `ReleaseLeavesProject` says exactly when a release leaves
  the project behind without that.
- **A stuck upgrade, then another.** Each upgrade keeps the configuration it
  found deployed at every instant, and once its stash is taken that one and the
  one deployed at the end are all that is kept (`Upgrade`). So after an upgrade
  that was stuck away from the configuration before it, a second one keeps that
  exactly when it deploys it anew (`UpgradeTwice`, `StuckThenUpgradedAgain`).
- **Merging twice.** `merge` refreshes an entry's rule, and a live entry without
  an observed key is known by its rule. A post entry whose observed key equals
  that rule and whose own rule differs re-keys the entry it refreshes, and the
  second merge appends it again (`UnstableKeysAddAgain`). When no refresh of the
  first merge re-keys its entry, merging again is still (`MergeIsIdempotent`);
  no refresh does when no post entry collides so with an older one, a condition on
  the two corpora alone (`StableNeverRekeys`, `StableWhen`). It is still if and only if every entry the first merge displaced
  from under its key finds another there (`IdempotentExactlyWhen`).
- **A settle that fails late.** The comment on `settleHoldCopy` says a refusal
  changes neither file. A refusal changes one if and only if the settle was due,
  one of the two files was missing, and the first operation to fail is the read
  back after the rename (`Settle`; `ReadBackFails` is such a run).
- **A lone dash.** To the flag grammar `-` is a positional; the passthrough check
  refuses it (`LoneDashRefused`, `OnlyLoneDashRefused`). On the grammar, values
  aside, the two agree on everything else (`Check`); the parser may still refuse a
  value that a flag does not take (`ParserReads`).
- **Registering a client twice.** Registering a client again breaks the hub if
  and only if its channel was closed meanwhile: its next unregistration, or the
  first broadcast to reach it, then panics (`ReopeningPanics`,
  `SecondRegisterPanics`). Registering one that is still there is harmless, and
  the server registers each client once.

## Model

| member | source | states |
|---|---|---|
| ModuleWalk.RehearsalWalk | internal/cli/rehearse_gate_modules.go:46-74 | On every call graph, cyclic or not, the walk ends; it visits exactly the directories the starts reach, each once and each as called from an earlier visit; it refuses something exactly when a cycle is reached, and each refusal names a call whose target really reaches its caller |
| ModuleWalk.Walker.Walk | internal/cli/rehearse_gate_modules.go:55-70 | One recursive visit keeps the walk's invariant, finishes everything its calls reach, and hands the path back as it found it |
| ModuleWalk.Walker.Follow | internal/cli/rehearse_gate_modules.go:60-68 | A call to a directory on the path is refused, one to a new directory is walked, any other adds nothing |
| ModuleWalk.Walker.WalkAll | internal/cli/rehearse_gate_modules.go:71-73 | Every start not yet visited is walked with an empty path of its own |
| ModuleWalk.PathDescends | internal/cli/rehearse_gate_modules.go:46-50 | In a finishing order whose calls only go back, every path descends: the heart of the back-edge theorem |
| ModuleWalk.ClosedUnderReach | internal/cli/rehearse_gate_modules.go:46-50 | A set closed under calls holds all that its members reach |
| ModuleWalk.NoProblemNoCycle | internal/cli/rehearse_gate_modules.go:46-50 | A walk that refused nothing met no cycle, however many starts shared its visited set |
| ModuleWalk.ProblemMeansCycle | internal/cli/rehearse_gate_modules.go:46-50 | Any refusal means a start reaches a directory that reaches itself |
| ModuleWalk.WalkedVisitsExactly | internal/cli/rehearse_gate_modules.go:46-50 | What was visited is what is reached from the starts, no more and no less |
| ModuleWalk.LocalModuleSources | internal/cli/rehearse_gate_modules.go:269-299 | What prepare copies: the directories the root reaches, without the root and without repeats, or the refusals |
| ModuleWalk.GateVisits | internal/cli/rehearse_gate.go:113-130 | Every directory prepare would copy is one the gate visits, whatever else the manifest adds |
| ScopeClaim.BeliefsSound | internal/cli/aws_scope_lifecycle.go:25-60 | After every run of any number of processes, with lost answers, retried deletes and requests that may or may not land, held means the store names this holder, and not-held or held-by-other mean it does not, provided no delete robbed another process that held the claim |
| ScopeClaim.AtMostOneHolder | internal/harness/aws_scope.go:81-130 | Two processes at rest never both hold the claim |
| ScopeClaim.StepKeepsInv | internal/harness/aws_scope.go:81-215 | Every request and answer that robs no one keeps what each process relies on between its requests |
| ScopeClaim.SerialTakeOversSound | internal/harness/aws_scope.go:160-190 | When take-overs do not overlap and no delete is tried twice, no delete robs anyone, so beliefs stay sound with no further assumption |
| ScopeClaim.RobberyBreaks | internal/harness/aws_scope.go:193-215 | A step breaks what the processes rely on if and only if it is a delete, a retried one included, that lands on the claim of another live process that knows it holds it; and then some continuation, with no other such delete, deceives that process |
| ScopeClaim.OverlappingTakeOvers | internal/harness/aws_scope.go:165-215 | A concrete run of two reaps of one ended holder that ends with both believing they hold the claim |
| ScopeClaim.RetriedRelease | internal/harness/aws_scope.go:193-215 | A concrete run in which a release's delete, tried again after a lost answer, deletes the next holder's claim |
| ScopeClaim.EntryKeepsBelief | internal/cli/aws_scope_lifecycle.go:202-211 | Entering the claim again keeps a belief true of every store it allows exactly when the belief was not unknown |
| ScopeLifecycle.TakeOpIsARun | internal/harness/aws_scope.go:86-130 | The take as one operation, a run's, a plain reap's or a take-over's, is the protocol's put and read-back with nobody between |
| ScopeLifecycle.ReleaseIsARun | internal/harness/aws_scope.go:149-160 | The release as one operation is the protocol's read and delete with nobody between |
| ScopeLifecycle.TakeOverIsARun | internal/harness/aws_scope.go:160-215 | The take-over as one operation is the protocol's read, delete and put with nobody between |
| ScopeLifecycle.TwoReapsSuffice | internal/cli/reap_command.go:205-245 | From any quiet store, whichever reap is tried first, that reap or the one its refusal names obtains the claim |
| ScopeLifecycle.TakeTells | internal/cli/aws_scope_lifecycle.go:237-249 | After a take a run knows all its answers tell: it holds the claim, another named holder does, or nobody; unknown exactly when the put was not answered and its read-back failed |
| ScopeLifecycle.ReleaseTells | internal/cli/aws_scope_lifecycle.go:251-263 | A release deletes exactly its own claim, when the read works and the delete lands, and the belief after it is unknown exactly when its read, or a delete it made, was not answered |
| ScopeLifecycle.AdviceWorks | internal/cli/aws_scope_lifecycle.go:77-111 | The reap a kept claim's message names first works on the quiet store the teardown leaves |
| ScopeLifecycle.ReapBeliefTrue | internal/cli/reap_command.go:205-245 | A reap's belief is true of the store its take leaves, whatever the outcomes of its requests, and exactly when it is held, held by another, or not held |
| ScopeLifecycle.ScopeProcess.EnsureClaim | internal/cli/aws_scope_lifecycle.go:198-234 | An account is returned exactly when no check failed and the claim may be held; when it fails; and the belief it leaves is true of the store |
| ScopeLifecycle.ScopeProcess.ReleaseAfterCleanSweep | internal/cli/aws_scope_lifecycle.go:450-487 | The claim is deleted only when it is this holder's and the sweep just found the scope empty, and it is released exactly when that delete is read, lands and is answered; the ending says which |
| ScopeLifecycle.ScopeProcess.Teardown | internal/cli/aws_scope_lifecycle.go:287-316 | On every exit the claim is released directly after a clean sweep, or kept and said so; unless it is kept on purpose or there is no account, what the state records is destroyed first; released exactly when nothing is left, the sweep works and the delete of its own claim lands and is answered |
| ScopeLifecycle.ScopeProcess.DestroyAndRelease | internal/cli/aws_scope_lifecycle.go:404-428 | What is left is what the destroy leaves, when a state may hold anything; the requests are exactly that destroy, the sweep and, when it is clean, the release; a failed destroy is named and still sweeps; exactly when the claim is released |
| ScopeLifecycle.ScopeProcess.KeepHold | internal/cli/aws_scope_lifecycle.go:318-360 | A wanted hold holds exactly when its outcome does and the claim is known held, and one that falls through says so, naming a failure unless it was interrupted |
| ScopeLifecycle.ScopeProcess.FinishTeardown | internal/cli/reap_command.go:425-442 | The second run starts from exactly what the first left, when the first was skipped, or named a failure and the run had ended; the pair releases exactly when its last run does |
| ScopeLifecycle.ScopeProcess.Reap | internal/cli/reap_command.go:154-245 | A reap that did not get the claim touches nothing; one that did leaves exactly what its destroy and its delete of the strays it found leave, and releases exactly when that is nothing, the sweep works and its delete lands and is answered |
| ScopeLifecycle.ScopeProcess.ReapClaimed | internal/cli/reap_command.go:253-297 | Destroy when a state may hold anything, sweep, delete of the strays found, sweep, and the release a clean sweep allows: exactly these requests in this order, what they leave, and when the claim is released |
| LiveTeardown.LiveDeployment.TearDown | internal/cli/live_teardown.go:32-242 | One pass leaves exactly the world, ending and failures the specification says, stage by stage |
| LiveTeardown.LiveDeployment.DeleteProject | internal/cli/run_project_lifecycle.go:134-240 | A project is deleted only when the marker, the record and the proof that the run made it agree, it is that one project, and the failures say when it is not |
| LiveTeardown.LiveDeployment.Forget | internal/cli/live_teardown.go:244-333 | Forget refuses exactly a record the store reads and teardown could act on, one that a pass would destroy the resources of included; otherwise only the released flag changes |
| LiveTeardown.NoLaundering | internal/cli/live_teardown.go:90-241 | After any sequence of passes and upgrades none of which loses a stray, a record is released only when its project and every stray a state ever recorded are gone |
| LiveTeardown.LosesExactly | internal/cli/live_teardown.go:85-218 | A step, a pass or an upgrade that adds, destroys and drops, leaves a live stray accounted for by neither the state nor the flag if and only if it loses it in one of the ways listed |
| LiveTeardown.LossLaunders | internal/cli/live_teardown.go:85-241 | After any loss from an ordinary deployment some run, in which no call fails but a sweep and the delete of a project, releases the record with the stray alive |
| LiveTeardown.UnaccountedIsLaundered | internal/cli/live_teardown.go:85-145 | With no other stray recorded, the very next pass whose calls all succeed launders one that is unaccounted for |
| LiveTeardown.ReleaseLeavesProject | internal/cli/live_teardown.go:105-135 | A pass that releases leaves the run's project behind if and only if the state was empty, neither a client nor the record tied it to the marker's project, and that project was there |
| LiveTeardown.ReleasedOnlyWhenGone | internal/cli/live_teardown.go:205-241 | The same for a fresh record: nothing recorded before or during a run that loses nothing survives its release |
| LiveTeardown.LostFlagLaunders | internal/cli/live_teardown.go:190-241 | When the failed sweep's flag is not written, the next pass releases the record with the stray alive |
| LiveTeardown.DroppedStrayLaunders | internal/cli/live_teardown.go:90-140 | When a failed destroy drops a live stray from the state, the next pass releases the record with it alive |
| LiveTeardown.UpgradeOverFailedSweepLaunders | internal/cli/live_upgrade.go:143-175 | An upgrade over a failed sweep makes the state non-empty, so the flag is not read and the next pass launders |
| LiveTeardown.UpgradeDropsStray | internal/cli/live_upgrade.go:205-226 | An upgrade that drops a live stray from the state lets the next pass release the record with it alive |
| LiveTeardown.NoDeadEnd | internal/cli/live_teardown.go:293-333 | Teardown points at forget only for records forget accepts, and of the unreleased records that decode, name a project and have a marker or a state, those are the only ones forget accepts |
| LiveTeardown.ForgetRefusesWhatTeardownCan | internal/cli/live_teardown.go:293-333 | A record with a project that decodes and is not released is refused by forget whenever some pass would destroy what its state holds, or, with a marker or a state there, release it |
| LiveTeardown.PassTouchesOnlyItsOwn | internal/cli/live_teardown.go:32-242 | A pass deletes no project but the one that its record and its marker both name, and only on proof the run made it; it kills nothing unless it destroys |
| LiveTeardown.ReclaimableIsReleased | internal/cli/live_teardown.go:293-333 | A pass whose calls all succeed releases a record forget refuses exactly unless its state records a stray |
| UpgradeSwap.Workdir.Upgrade | internal/cli/live_upgrade.go:185-226 | Whatever operation fails, at every instant the deployed configuration is whole in the workdir or the stash and no other file changes; once the stash is taken exactly that one and the one deployed at the end are kept; an apply is rolled back exactly when it failed at init or plan; a rollback gives back exactly the original files; and which ending comes of which fault |
| UpgradeSwap.Workdir.Stash | internal/cli/live_upgrade.go:415-453 | The deployed configuration is kept at every instant, and once the stash succeeds any other configuration is kept if and only if it is the deployed one |
| UpgradeSwap.Workdir.Replace | internal/cli/live_upgrade.go:455-486 | The old configuration goes and the new comes, with every intermediate directory keeping the stash and the other files |
| UpgradeSwap.Workdir.Restore | internal/cli/live_upgrade.go:563-598 | After any partial replace, exactly the stashed configuration is deployed again |
| UpgradeSwap.Workdir.RestoreTo | internal/cli/live_upgrade.go:563-598 | Restoring the directory a stash was taken of gives exactly that directory back, and keeps its configuration at every instant |
| UpgradeSwap.ConfigIs | internal/cli/deploy_command.go:476-480 | What is stashed, removed and copied is every .tf and .hcl file there is, as it is, and nothing else |
| UpgradeSwap.UpgradeTwice | internal/cli/live_upgrade.go:185-226 | Over two upgrades in a row, the configuration from before them is kept throughout when the first left it deployed; otherwise, once the second stashes, exactly when the second deploys it anew |
| UpgradeSwap.StuckThenUpgradedAgain | internal/cli/live_upgrade.go:185-226 | Two upgrades to one source, each failing at init with a rollback that fails, lose the configuration from before them |
| Hcl.ConstantInAnyScope | internal/cli/layer3_hcl_shape.go:1058-1088 | A constant expression has the same value wherever it is evaluated |
| Hcl.BlindToOtherFunctions | internal/cli/layer3_hcl_shape.go:846-912 | An expression that calls only allowed functions cannot tell two scopes apart by any other |
| AwsGate.Validate | internal/cli/layer3_aws_hcl_shape.go:36-58 | No problem is reported exactly when the stack is admitted and the rules passed in report none, whatever order attributes are visited in |
| AwsGate.BlockProblems | internal/cli/layer3_aws_hcl_shape.go:63-83 | A block passes exactly when its type, nested blocks, calls, arguments and image are admitted and the rule passed in reports nothing; a type that is not admitted is refused alone |
| AwsGate.ResourceProblems | internal/cli/layer3_aws_hcl_shape.go:63-83 | A resource passes exactly when its type is allowed and has rules, its body keeps them, it has no count or for_each, and a server boots the rendered script from the resolved image |
| AwsGate.BodyProblems | internal/cli/layer3_aws_attrs.go:191-227 | A body passes exactly when every attribute and nested block is on the allowlist, within its rule and within its bound |
| AwsGate.AttributeProblems | internal/cli/layer3_aws_attrs.go:229-302 | Attributes pass in any order of visiting exactly when each is a bounded constant, a typed in-stack id or a zone of the region |
| AwsGate.NestedProblems | internal/cli/layer3_hcl_shape.go:574-586 | No denied block stands anywhere inside |
| AwsGate.CallProblems | internal/cli/layer3_hcl_shape.go:846-872 | Every call inside is of a pure function, but for the rendered script's one |
| AwsGate.StackMultiplicityProblems | internal/cli/layer3_aws_attrs.go:333-360 | Exactly one instance and at most one of each type that is bounded |
| AwsFiles.GateSound | internal/cli/layer3_aws_hcl_shape.go:36-58 | If the gate reports no problem, the stack's files merge and evaluate with their declared defaults, and the gate took each variable's value, the stack creates exactly one server, of an allowed type, from the resolved image, booting exactly the rendered script in its module's directory, with one root volume of at most 20 GiB gp3 deleted with it, at most two public addresses, and only ids of its own resources, whatever the account holds |
| AwsFiles.GateSoundInOrder | internal/cli/layer3_hcl_shape.go:206-236 | The same of any files among which override files, if any, have the last word by name on each variable |
| AwsFiles.DefaultsHoldExactly | internal/cli/layer3_hcl_shape.go:214-236 | The defaults the gate collects are the variables' values if and only if, for each, the last in name order has the value of the last with the override files moved behind the others |
| AwsFiles.OverridesLastAgree | internal/cli/layer3_hcl_shape.go:214-236 | They agree on a variable when no ordinary file gives it a default after an override file has, and no override file gives it one the gate cannot take |
| AwsFiles.OrdinaryLastDisagrees | internal/cli/layer3_hcl_shape.go:214-236 | Where an ordinary file does so last, they agree if and only if the two defaults have one value |
| AwsFiles.OverrideEscapes | internal/cli/layer3_hcl_shape.go:214-236 | Two files the gate admits, reading t3.micro, from which tofu creates an m5.24xlarge |
| AwsFiles.MergedStackAdmitted | internal/cli/layer3_aws_hcl_shape.go:63-83 | What the gate admits of every file's blocks is true of the blocks tofu merges them into, and the server is in an ordinary file |
| AwsFiles.MergeAllLast | internal/cli/layer3_hcl_shape.go:1090-1104 | A merged variable's default is the last given, override files after the others |
| AwsPlan.AdmittedIsBounded | internal/cli/layer3_aws_attrs.go:165-360 | Blocks admitted under defaults that are the variables' values create only what the gate bounds |
| AwsPlan.UserDataIsScript | internal/cli/layer3_aws_user_data_gate.go:33-78 | The one expression the gate admits for user_data evaluates to the file named infrafactory-user-data.sh in the module's directory |
| AwsFiles.PlanReadsOnlyTheScript | internal/cli/layer3_aws_user_data_gate.go:33-69 | Two accounts that agree on pure functions and the rendered script give an admitted stack the same plan |
| AwsFiles.MergedRunsNothing | internal/cli/layer3_aws_hcl_shape.go:63-83 | No block an admitted stack merges into runs a program, reads a data source, fetches a module, moves the state or hides a block in a dynamic one |
| AwsPlan.BlocksSound | internal/cli/layer3_aws_attrs.go:322-360 | An admitted stack creates one instance for each resource it declares and nothing else |
| AwsPlan.BodySound | internal/cli/layer3_aws_attrs.go:184-227 | An admitted body evaluates to one within its rules, however deep |
| AwsPlan.AdmittedIsWithin | internal/cli/layer3_aws_attrs.go:229-302 | What the gate admits of an expression is true of its value |
| AwsPlan.ServerArguments | internal/cli/layer3_aws_attrs.go:84-110 | An argument of a server passes exactly when it is a listed one and its expression resolves to a listed value or names an id of the right type; nothing else passes |
| AwsPlan.RootArgumentsAdmitted | internal/cli/layer3_aws_attrs.go:100-108 | And one of its root volume exactly when it resolves to at most 20 GiB, gp3 or deletion with the server |
| AwsPlan.ResolvedIsEvaluated | internal/cli/layer3_hcl_shape.go:1058-1088 | A constant the gate resolves is what the expression evaluates to |
| AwsPlan.RootBounded | internal/cli/layer3_aws_user_data_gate.go:79-120 | The root volume is bounded by the block's rules or, without one, by the image's |
| AwsPlan.AddressesBounded | internal/cli/layer3_aws_attrs.go:84-156 | At most the server's own address and one elastic one |
| AwsPlan.ParentsSound | internal/cli/layer3_aws_attrs.go:304-321 | Each argument that names a parent, listed by resource type, is the id of a created resource of that type, or a list of such ids |
| AwsPlan.SettingsSound | internal/cli/layer3_aws_attrs.go:84-156 | A vpc has no tenancy but the default, an elastic address no domain but vpc, and a subnet no zone but a letter after the region |
| PitfallMerge.Merge | cmd/pitfall-merge/main.go:100-147 | The loop over the index returns the state of the specification: entries, counts and per-source counts |
| PitfallMerge.BuildIndex | cmd/pitfall-merge/main.go:100-110 | The index names the last entry with each key |
| PitfallMerge.MergeConserves | cmd/pitfall-merge/main.go:89-147 | Pre's entries keep order, resource, source and observed key, last_seen never goes back, and added is the growth in length and the sum per source |
| PitfallMerge.MergeReaches | cmd/pitfall-merge/main.go:89-147 | After a merge every kept post entry is under an entry which, where it has its source, was last seen no earlier by the clock |
| PitfallMerge.MergeTellsAsOne | cmd/pitfall-merge/main.go:124-140 | Every entry of a merge has its last_seen, and a live one its rule and evidence with it, from one and the same entry that was merged |
| PitfallMerge.MergeIsIdempotent | cmd/pitfall-merge/main.go:89-147 | When no refresh of the first merge re-keys its entry, merging the same post again adds nothing, refreshes nothing and changes nothing |
| PitfallMerge.IdempotentExactlyWhen | cmd/pitfall-merge/main.go:89-147 | For any two corpora, merging the same post again is still if and only if every kept entry the first merge displaced finds another under its key that it is not newer than |
| PitfallMerge.StableNeverRekeys | cmd/pitfall-merge/main.go:111-145 | Entries whose keys are stable, a condition on the two corpora and their last_seen alone, are never re-keyed by any merge of them |
| PitfallMerge.StillExactlyWhen | cmd/pitfall-merge/main.go:111-145 | A merge adds and refreshes nothing if and only if every kept entry is in the corpus under an entry it is not newer than |
| PitfallMerge.StableWhen | cmd/pitfall-merge/main.go:174-224 | On NUL-free texts keys are stable if and only if no kept post entry's observed key is the rule of a keyless live entry that is older and worded differently |
| PitfallMerge.MergeKeyInjective | cmd/pitfall-merge/main.go:196-224 | Keys tell NUL-free entries apart by resource, identity and being live |
| PitfallMerge.UnstableKeysAddAgain | cmd/pitfall-merge/main.go:111-145 | A concrete pair of corpora that a second merge changes |
| VersionPin.PinText | internal/cli/generate_command.go:480-530 | The text is cut at the closed entries the scan meets; an entry that names no version keeps its inside up to the spaces, newlines and tabs it ends in and gets the pin there, any other entry and every other byte is kept; unmodified exactly when all name a version |
| VersionPin.FixGivesPin | internal/cli/generate_command.go:514-521 | A fixed inside is the old one, or, exactly when the entry does not name the word, all of it but its last spaces, newlines and tabs, then the pin |
| VersionPin.MatchBrace | internal/cli/generate_command.go:494-513 | The brace found is the one that closes the entry, and none is found only when it stays open |
| VersionPin.Index | internal/cli/generate_command.go:488-492 | The first occurrence from an index on, or that there is none |
| VersionPin.PinTwice | internal/cli/generate_command.go:478-531 | Pinning twice is pinning once, on every text |
| VersionPin.OneCut | internal/cli/generate_command.go:486-525 | A text has one such cut, so the rewritten text's entries are the old ones fixed |
| VersionPin.PinKeepsTheCut | internal/cli/generate_command.go:514-521 | After the rewrite the same entries are found, closed by their own braces, each naming a version, and fixing them again changes nothing |
| VersionPin.FixedIsNamed | internal/cli/generate_command.go:515-521 | The injected text never changes brace matching, and is found by the next scan |
| VersionPin.SamePiece | internal/cli/generate_command.go:486-513 | The first entry of a text is decided by the text alone |
| VersionPin.EnsureGoogleVersionPin | internal/cli/generate_command.go:478-531 | Every file is pinned, in any order, with the literal version line, each entry's other text kept, and no name is added or lost |
| VersionPin.PinnedIsPinned | internal/cli/generate_command.go:478-531 | The pinned text is determined by the text and pinned already |
| DeployLock.Covered | internal/api/handlers_deploy_preview.go:152-181 | In every interleaving, a deploy begun before the in-flight read and registered before its release is in one of the two answers, or torn down, or the estate answer says it may be incomplete |
| DeployLock.QuietMeansNone | internal/api/handlers_deploy_preview.go:152-181 | An answer that claims nothing exists means every deploy of the scenario begun by the first read is over, and torn down or never recorded |
| DeployLock.OneDeployPerScenario | internal/cli/live_service.go:214-229 | At most one deploy of a scenario lies between claim and release |
| DeployLock.ClaimRefusedExactly | internal/api/handlers_deploy_preview.go:173-179 | After a quiet answer the reader's own claim is refused if and only if a request for the scenario, begun after the first read, is in flight then |
| DeployLock.SecondDeploy | internal/api/handlers_deploy_preview.go:173-179 | A run in which a deploy that began between the reads is over when the reader claims, and both deployments end up live |
| DeployLock.ReversedOrderMisses | internal/api/handlers_deploy_preview.go:158-168 | With the estate read first, a concrete run is quiet about a deploy that is live |
| DeployLock.StepKeepsInv | internal/cli/live_service.go:214-259 | Every step keeps the lock equal to the scenarios in flight, and registered deploys in the estate |
| DeployLock.LiveDeployer.Claim | internal/cli/live_service.go:214-223 | Free exactly when no one has it, and taken afterwards |
| DeployLock.LiveDeployer.Release | internal/cli/live_service.go:225-229 | Only this scenario is given back |
| DeployLock.LiveDeployer.InFlight | internal/cli/live_service.go:201-212 | The scenarios in flight, each once and sorted |
| DeployLock.LiveDeployer.Deploy | internal/cli/live_service.go:231-259 | However a request ends, the lock is as it was; refused as in progress exactly when another has it, and that other keeps it |
| DeployLock.LiveDeploymentsOf | internal/api/handlers_deploy_preview.go:308-372 | The unreleased records of the scenario, sorted, complete exactly when everything was read, and no answer at all without a lister |
| DeployLock.DeployPreview | internal/api/handlers_deploy_preview.go:180-182 | The two reads give the answers the theorems speak of, and are quiet exactly when those are |
| HubRuns.NeverPanics | internal/api/hub.go:17-70 | Unless a client is registered again after its channel was closed, no interleaving sends on a closed channel or closes one twice, and a channel is closed exactly when its client has left |
| HubRuns.ReopeningPanics | internal/api/hub.go:17-36 | A step breaks what the hub relies on if and only if it registers a client whose channel is closed; then unregistering it, or a broadcast reaching it, panics |
| HubRuns.CompleteMeansDelivered | internal/api/hub.go:38-57 | A completed broadcast gave its own message, exactly once, to every client registered when it took the lock and still registered |
| HubRuns.GivenAtMostOnce | internal/api/hub.go:43-51 | No broadcast gives a client its message twice, nor a client that was not there when it took the lock, and what a channel carries is its broadcast's text |
| HubRuns.MissedMeansPending | internal/api/hub.go:43-56 | A registered client that was not given this broadcast's message is on its slow list or still to be visited |
| HubRuns.StepKeepsInv | internal/api/hub.go:17-70 | Every step of every thread keeps the account of each broadcast |
| HubRuns.SomeBroadcastMoves | internal/api/hub.go:38-57 | The lock never wedges: an unfinished broadcast can step, and each such step leaves less to do |
| HubRuns.SecondRegisterPanics | internal/api/hub.go:17-24 | Registering a dropped client again makes the next broadcast send on its closed channel |
| WebsocketHub.Hub.Broadcast | internal/api/hub.go:38-57 | Clients with room get the message, those without are unregistered and closed, an empty message changes nothing |
| WebsocketHub.Hub.Unregister | internal/api/hub.go:26-36 | A client that is there leaves and is closed once; one that is not is left alone |
| WebsocketHub.Hub.Shutdown | internal/api/hub.go:59-70 | Every client leaves and is closed, with its queue kept |
| ProgressSinks.SendStream | internal/api/progress_sink.go:43-92 | However a stream is chunked, the same events are sent |
| ProgressSinks.ProgressSink.Write | internal/api/progress_sink.go:43-66 | What was sent and what is held back depend only on the bytes seen; no newline is held back |
| ProgressSinks.ProgressSink.Close | internal/api/progress_sink.go:78-91 | The unfinished line goes out untrimmed when there is one, and the sink starts afresh |
| ProgressSinks.CutLines | internal/api/progress_sink.go:51-59 | The finished lines, trimmed, and a rest without a newline |
| ProgressSinks.EachLineSends | internal/api/progress_sink.go:51-76 | Each line, wherever it stands, sends itself less the carriage returns it ends in, as one event, or nothing when it holds nothing else |
| ProgressSinks.SplitAppend | internal/api/progress_sink.go:48-59 | What is written later is cut after what came before: the law behind chunking |
| ProgressSinks.SplitIsWhole | internal/api/progress_sink.go:51-59 | Cutting loses no byte and leaves no newline inside a part |
| ProgressSinks.SplitIsOnly | internal/api/progress_sink.go:51-59 | It is the only such cut |
| Fakeaws.Start | internal/cli/rehearse_fakeaws.go:94-114 | At most three tries, all three for a port that stays taken, none beside an unreaped process or an uncleared record; on success the record names the process returned, which was alive; when all goes well outside, only processes that end by themselves are not ready, and none is signalled |
| Fakeaws.StartOnce | internal/cli/rehearse_fakeaws.go:116-201 | When everything outside goes well it is ready unless the process ended by itself, unsignalled; it asks for another try exactly for a taken port, once its process is reaped and its record cleared; a failed stop has sent both signals and leaves at most the process a written record names |
| Fakeaws.Launch | internal/cli/rehearse_fakeaws.go:136-156 | A started process is recorded before anything else happens |
| Fakeaws.GiveUp | internal/cli/rehearse_fakeaws.go:171-201 | A process that is not ready is stopped and then its record cleared; a failed stop has sent both signals; a process that ended by itself gets none |
| Fakeaws.Process.StopUntil | internal/cli/rehearse_fakeaws.go:205-232 | SIGTERM then, after a wait, SIGKILL: both are sent when a stop fails with the group still there, none to a group seen gone or a process that ended by itself, none for a value that names no process; success only once the group was seen gone |
| Fakeaws.Process.GroupGone | internal/cli/rehearse_fakeaws.go:245-271 | A process of ours is gone exactly when it was reaped; any other group is gone when a probe or an earlier one said so, and once seen gone is never probed again |
| Fakeaws.Process.Within | internal/cli/rehearse_fakeaws.go:234-243 | Done only when the group was seen gone, and nothing is signalled while waiting |
| Fakeaws.OrderlyMeans | internal/cli/rehearse_fakeaws.go:94-271 | What an orderly log says of its events: starts only on a clean slate, no probe or signal of a group seen gone unless a process was started with its id since, and no SIGKILL without a wait that gave up since its SIGTERM |
| Fakeaws.Walls | internal/cli/rehearse_walls.go:105-150 | A rehearsal is deleted only with nothing of its fakeaws left or the orphan named, and kept when its record names who could not be stopped by both signals; when all goes well it is up unless its process ended by itself |
| Fakeaws.End | internal/cli/rehearse_end.go:107-161 | An unproved record signals nothing; a proved one is deleted only after its group was seen gone, and kept only after both signals or a port still answering |
| HoldCopy.Files.Settle | internal/cli/aws_hold.go:153-184 | Once settled the copy and the state are equal byte for byte; a file that was there is untouched; and, for every place the first failure or kill may fall, exactly when it settles, when it changes a file, and when a refusal does |
| HoldCopy.Files.WriteNewHoldCopy | internal/cli/aws_hold.go:80-94 | Anything already at the copy path refuses and is left as it is; a new copy is the whole state; exactly when it is written and when it succeeds |
| HoldCopy.Files.WriteHoldCopy | internal/cli/aws_hold.go:217-237 | The copy is absent or the whole state at every cut |
| HoldCopy.Files.WriteSynced | internal/cli/aws_hold.go:276-295 | Up to the rename the path is as it was, from it on it holds all the data, and no temp file outlives a failure |
| HoldCopy.Files.RestoreHeldState | internal/cli/aws_hold.go:257-274 | The state becomes the copy's bytes exactly from the rename on |
| HoldCopy.Files.PrivateDirs | internal/cli/aws_hold.go:192-215 | Missing dirs are made private, found ones never changed, and the chain passes exactly when every dir that was there is as it must be |
| HoldCopy.Files.RefuseWhileHeld | internal/cli/aws_hold.go:31-52 | Passes exactly when the copy path can be looked at and is absent |
| HoldCopy.Files.Perform | internal/cli/aws_hold.go:84-184 | One command, cut off anywhere, never changes or removes a copy; a wanted hold's copy is the whole applied state exactly from the rename on; a release goes on only with the pre-destroy state in it |
| HoldCopy.PerformAll | internal/cli/aws_hold.go:31-184 | The same over any sequence of commands; while a copy is there only a reap touches the state |
| HoldCopy.ReadBackFails | internal/cli/aws_hold.go:217-237 | A release whose read back of the new copy fails refuses and leaves the copy |
| Passthrough.Check | internal/cli/rehearse_passthrough_args.go:113-145 | Arguments pass exactly when Go's flag parser takes them under the allowed flags, bar a lone dash and a refused out value, and the positionals are the parser's |
| Passthrough.PassthroughArgs | internal/cli/rehearse_passthrough_args.go:79-111 | Let through exactly under the stated condition, and the argv is the action's words, what is injected and the user's arguments unchanged |
| Passthrough.ParserReads | internal/cli/rehearse_passthrough_args.go:79-111 | By the flag grammar, under any flags that extend the allowed ones, that argv is the injected flags, then the user's, all on the list, and the counted positionals; or it is refused, exactly for a value a flag does not take |
| Passthrough.ParsesTheSame | internal/cli/rehearse_passthrough_args.go:113-145 | Arguments that parse under the allowed flags parse the same under any larger set that agrees with it |
| Passthrough.WrittenParses | internal/cli/rehearse_passthrough_args.go:187-200 | A flag written with its value parses to itself and disturbs nothing after it |
| Passthrough.InjectedHolds | internal/cli/rehearse_passthrough_args.go:24-66 | By the flag grammar, whatever the user passes, input is set to false, first and once, var-file to the rehearsal's file when there is one, next and once, and var never |
| Passthrough.InjectedArgs | internal/cli/rehearse_passthrough_args.go:187-200 | What is injected is written -input=false and, when the file is there, -var-file= and its path |
| Passthrough.LoneDashRefused | internal/cli/rehearse_passthrough_args.go:119-127 | The one argument the check refuses and the flag grammar takes as a positional |
| Passthrough.OnlyLoneDashRefused | internal/cli/rehearse_passthrough_args.go:113-145 | Of arguments whose flags parse and set no refused out, the check refuses exactly those whose positionals begin with a lone dash |
| Release.ParseRelease | internal/cli/rehearse_lock.go:146-162 | Accepts a string exactly when it is the print of three naturals within 64 bits, and returns them |
| Release.PrintIsInjective | internal/cli/rehearse_lock.go:146-162 | Print and parse undo each other: a version has one triple |
| Release.AtoiOfItoa | internal/cli/rehearse_lock.go:154-158 | Reading a printed number in range gives it back |
| Release.JoinSplits | internal/cli/rehearse_lock.go:150-153 | Splitting a joined list of dot-free parts gives the list |
| Release.VersionProblem | internal/cli/rehearse_lock.go:108-130 | No problem exactly for an unbounded provider, or a release of the bound's major no later than it |
| Release.WithinGoesDown | internal/cli/rehearse_lock.go:108-130 | What is admitted is closed downward within the major |
| Release.Lock | internal/cli/rehearse_lock.go:38-84 | No problem exactly when every entry is readable, each type is pinned once and admitted, and aws is there; the versions are then the entries' |
| Release.GateLock | internal/cli/rehearse_lock.go:38-84 | Against the gate's own table, a lock that passes pins aws at a 5.x release no later than 5.100.0, and one that pins any such release, with nothing else bounded, passes |
| Release.LockChanges | internal/cli/rehearse_lock.go:132-144 | Exactly the types pinned afterwards at another version than before, each once, in order |
| Release.InitKeepsTheLock | internal/cli/rehearse_lock.go:132-144 | No change means every version afterwards was pinned before, so an admitted lock stays admitted |

## Left out

- AwsFiles.GateSound: assumes that the gate took each variable's value, which DefaultsHoldExactly says when it does and OverrideEscapes shows to be needed. Values are real numbers, so the rounding of a volume size is not modelled, nor are a variable's type constraint and its conversion. That a server needs an instance type or a launch template is the provider's rule, and part of evaluation here.
- AwsFiles.PlanReadsOnlyTheScript: a block of an override file that is neither a variable nor a resource is taken to create nothing, as the gate admits none that does.
- Hcl.ConstantInAnyScope: expressions have operators, object constructors and indexes, but no for expressions or splats, and no conversion between numbers, strings and bools, which is an evaluation error here.
- ScopeClaim.BeliefsSound: assumes no delete that robs a process, because the store has no conditional delete; RobberyBreaks says that nothing less would do. A put that is retried is one put.
- Passthrough.ParserReads: speaks for the grammar of Go's flag package; tofu takes some view flags out of the arguments before that grammar sees them, and that first pass is not modelled. Which values a flag takes is a parameter, and the path check of plan's -out is a set of refused values.
- Passthrough.InjectedHolds: the same.
- PitfallMerge.MergeIsIdempotent: that no refresh re-keys its entry suffices and is not necessary, because entries may swap keys; the exact condition, IdempotentExactlyWhen, looks at what the first merge displaced.
- LiveTeardown.NoLaundering: assumes that no step loses a stray, which LossLaunders shows to be needed, and that a client or the record ties the run to the marker's project, on which see ReleaseLeavesProject.
- LiveTeardown.LossLaunders: assumes a deployment as deploy leaves it, with a workdir, a client and a marker that agrees with the record, since other records may be refused by every later pass.
- HubRuns.NeverPanics: assumes no client is registered again once its channel is closed, which ReopeningPanics shows to be exact.
- HoldCopy.Files.Settle: does not model a symlink at the state path, or another process changing the files between two operations.
- AwsGate.Validate: what the rules on undestroyable expressions, provider blocks and the rendered script's file report is a parameter; they only add refusals.
- AwsGate.BlockProblems: what the rule on undestroyable expressions reports of a block is a parameter.
- PitfallMerge.Merge: works on values, while the Go slice of the result shares pre's entries, so a refresh also writes into pre, which nothing reads again.
- ProgressSinks.ProgressSink.Write: models serial writes; two at once may send their lines in either order, since lines are sent outside the lock. JSON encoding and the nil sink are left out.
- A claim request that lands after its own timeout, once its process went on, is not modelled; a request lands or not by the time its answer is lost.
- The Scaleway gate, of the same shape as the AWS one, is not modelled, nor the HCL lexer and parser, template rendering and symlink resolution: the models start from parsed blocks and resolved directories.
- What tofu, AWS, Scaleway and the parameter store do is left to nondeterministic outcomes; message wording, stage names, JSON and human output, HTTP and websocket plumbing are not modelled.
- Signals, process groups and goroutine scheduling appear only as the choices they leave open; the readiness checks of fakeaws are one outcome, and durability across a power loss is not modelled.
- stripProviderBlock, which scans braces as the version pin does, and mergeUpgradeOntoFresh, a record update field by field, would add only easy members.
