# openporch, verified

openporch turns a set of workloads into provisioned resources. This project
models the path of one deployment through it, in Dafny, and proves what each
stage promises to the next:

1. **Graph.** A worklist expands references and co-provisioned resources into
   nodes, a fixpoint adds edges for consumers of co-provisioned resources, and a
   layered sort orders the result or names a cycle
   (`Sorting`, `Criteria`, `Topology`, `Coprovision`, `GraphSpec`, `GraphClosure`,
   `GraphState`, `GraphFaults`, `GraphRun`, `GraphBuilder`, `Graph`,
   `GraphMeaning`; `IdRules` for the identifiers).
2. **Run.** Resources start when their dependencies have provisioned, and end in
   any order (`Ancestry`, `Scheduler`, `Confluence`, `Reachability`). Each runs a
   begin / record / execute / checkpoint protocol with retries (`NodeRun`,
   `NodeMeaning`).
   `References`, `Misnamed`, `Scopes`, `Locality` and `Deployment` join the graph to
   the run, and `Provisioning` joins the run to the driver calls below it.
3. **Driver calls.** One mutation, polls under a deadline, and at most one
   cancellation, against a driver that may do anything (`Driver`, `DriverTrace`,
   `DriverRun`, `DriverMeaning`, `Executor`).
4. **Placeholders.** A template language with a parser, an implicit printer, a
   translation between two of its dialects, and secrets that are rendered late
   (`Template`, `TemplateLaws`, `PathLaws`, `Placeholder`, `PlaceholderMeaning`,
   `Resolve`, `ResolveLoops`, `Collect`, `Rendering`, `Taint`, `SetAside`, `SecretRefs`,
   `SecretReading`, `Translate`, `JsonPointer`, `TranslateJson`).
5. **Text and dates.** The secret redactor, canonical JSON and the civil-date
   computation (`Redact`, `RedactForms`, `CanonicalNumber`, `CanonicalLayout`, `Utf16`,
   `Canonical`, `JsonReader`, `Timestamp`).

`dafny verify dfyconfig.toml` checks everything.

## How it is modelled

- The graph builder, a scheduler run, a driver run and the redactor are classes
  whose methods update fields, as in the source. Each method is proved against a
  function on values (`Value()`), and the laws are lemmas about those values.
- What the environment decides is a parameter of the model and universally
  quantified: which running resource ends next, every reading of the clock, every
  answer of a driver and how long it takes, every success or failure of the store.
- Graph construction is written once as a sequence of actions (ask for a
  resource, add an edge, note a co-provisioned resource, fail). The builder's
  loops are proved to perform that sequence. The meaning of a graph (`IsGraphOf`)
  is stated without any order: the least node set, the least edge set, the
  longest-chain layers.
- A JSON value that enters a graph is a `Document`: finite numbers and no key
  twice, as every parsed value is. `BuildGraph` has no other precondition.
- What an operation returns is stated a second time without the functions that
  compute it: what a driver run's result says about the driver's last answer
  (`DriverMeaning`), a node's log about each operation (`NodeMeaning`), a context or
  resource placeholder's text about what is shown (`PlaceholderMeaning`), a
  dependency about the definitions that ask for it (`GraphMeaning`), and canonical
  text about the value that a JSON reader finds in it (`JsonReader`).
- Durations are whole nanoseconds. Integers are unbounded; where the source
  saturates or checks for overflow, the result is the same on every value the
  source can hold.

## What turned out not to hold, and exactly when it does

- Putting set-aside content back (`put`) keeps "a container holds a secret" exact
  if and only if the receiving object holds a secret elsewhere:
  `Taint.PutKeepsTaintIff`, with `Taint.PutCanHideASecretsAbsence`. For all the
  content that is taken out of a workload before it is resolved, put back in a
  loop, the condition holds each time (`SetAside.SetAsideContentIsLiteral`).
- A translated string parses to the original with each placeholder translated if
  and only if, in every `resources` placeholder, the names that are printed are
  not empty and, printed in single quotes where they need some, leave no quote
  open: `Translate.TranslatedStringParsesIff`, with `Translate.EmptyNameBreaks` and
  `Translate.QuoteBreaks`. Names that are not empty and hold no quotes always do
  (`Translate.PlainStringReadsBack`), and so do non-empty names without single
  quotes, unless a dotted name after the output holds a brace
  (`Translate.SingleQuoteFreeReadsBack`).
- The graph and the run name the same resource for a reference in driver inputs if
  and only if they agree on whether the type is implicit, or the reference leaves
  nothing to inherit: `References.NamesAlikeIff`. The graph asks its catalogue; the
  run asks the built-in types. `Misnamed.CustomTypeIsMisnamed` is the case of an
  organization's own implicit type.
- In co-provisioning params the graph names a reference from the resource whose
  definition holds it, and the run from the co-provisioned resource. With the same
  implicit types they name the same resource if and only if the type is implicit or
  the reference inherits the same class and ID from both:
  `References.ParamNamesAlikeIff` (and `References.NamedAlikeIff` for any types),
  with `Misnamed.ParamIsMisnamed` and `Misnamed.PolicyIsMisnamed`. A reference of
  the co-provisioned resource to itself has no edge and never resolves
  (`References.StartedHasItsParamReferences`).
- A placeholder shows the same node in every run if and only if each node it can
  show is the resource itself or a dependency of it, direct or not; or depends on
  each dependency of the resource that no other of them depends on, and so never
  finishes first; or is outranked by a dependency under the same key:
  `Scopes.RunsShowAlikeIff`. Any other node gives two runs of one plan that show
  different outputs (`Scopes.ShowsDifferently`,
  `Locality.ForeignSharedComesAndGoes`). Driver inputs always meet the condition where
  graph and run name their references alike (`Locality.InputsAreSteady`); params of the set meet it if and only if the shared
  resources they read do (`Locality.SetValueIsSteadyIff`).
- An attempt in which the driver was called, even with an accepted `put`, is retried
  if and only if the driver's last word was a transient failure and it left no new
  cookie: `Executor.RetriedIff` and, from the driver's last answer itself,
  `Executor.TransientIff`, with `Executor.AcceptedPutCanBeRetried`.
- When a resource's task ran to its end and the executor answered, a new cookie that
  the driver left is in the checkpoint written next, and is in the store if and only
  if the store recorded that checkpoint (`Provisioning.CookieIsKept`). A success
  whose checkpoint is not recorded is followed by one without the cookie
  (`Provisioning.UnrecordedSuccessLosesCookie`), and `Provisioning.CookieCanBeForgotten`
  is such an attempt. If the executor was cut off, the checkpoint holds no cookie and
  the outcome is unknown (`Provisioning.CutOffIsUnknown`).

The secret-sink test strips leading slashes from a pointer. That misjudges a path
with an empty first key (`JsonPointer.SinkTestIsRightIff`,
`JsonPointer.EmptyKeyMisleads`), which no spec holds: in a spec the test is right
for every string (`TranslateJson.SpecSinksAreRight`).

## Model

| member | source | states |
|---|---|---|
| Graph.BuildGraph | crates/core/src/graph.rs:173-254 | terminates on every deployment; succeeds exactly when nothing is wrong with the deployment and its dependency relation is acyclic; a success is the graph the deployment means, a reported cycle is a simple cycle of that relation, any other error names a fault that is really there |
| Graph.GraphIsUnique | crates/core/src/graph.rs:173-254 | a deployment has one graph: nodes, requests, edges and layers do not depend on the order anything was expanded in, and inputs agree up to canonical form |
| Graph.NodesAreClosure | crates/core/src/graph.rs:245-247 | when the queue is empty, the nodes are the least set that holds the roots and is closed under references and co-provisioning |
| Graph.NoFaults | crates/core/src/graph.rs:273-357 | a finished expansion leaves no fault: every needed type, class and definition exists, every placeholder parses, and no two input-carrying requests disagree |
| Graph.NodeIsRight | crates/core/src/graph.rs:273-357 | a node has the definition it matches, exactly the requests made for it, and the inputs that all input-carrying requests want, which are left out if they are null |
| Graph.MatchedAreDeps | crates/core/src/graph.rs:245-248 | the final edges are the least match closure of the edges asked for, and every endpoint is a node |
| Graph.ExpansionShrinks | crates/core/src/graph.rs:245-247 | an expansion adds nodes only inside a finite universe, which is why the worklist ends |
| GraphMeaning.EdgeMeans | crates/core/src/graph.rs:173-247 | an edge of a built graph, before consumers are matched, is exactly one that a workload declares or reads, or that the definition of some node asks for |
| GraphMeaning.CoProvisionMeans | crates/core/src/graph.rs:416-450 | expanding a resource records exactly what the entries of its definition co-provision, each with the entry's own word on whether consumers wait for it |
| GraphMeaning.ConsumersWait | crates/core/src/graph.rs:458-488 | in every built graph, a node that depends on a resource whose definition has an entry with matching dependents also depends on what the entry co-provisions, unless it is one of the two |
| GraphMeaning.DependencyMeans | crates/core/src/graph.rs:173-254 | the dependencies of a node in a built graph are exactly those that workloads and definitions ask for, and those matched that way: none is missing and none is added |
| GraphMeaning.PrivateIsOwn | crates/core/src/graph.rs:199-214 | a private resource belongs to one dependency of one workload |
| GraphMeaning.SharedIsShared | crates/core/src/graph.rs:199-224 | a dependency is a shared resource of the set exactly when it names that resource's ID, type and class |
| GraphMeaning.WorkloadParamsAre | crates/core/src/graph.rs:190-197 | a workload's inputs are its ID, class and spec, each under its name |
| GraphMeaning.MissingClassIff | crates/core/src/graph.rs:285-291 | a missing class is reported exactly for a needed resource whose class is not `default` and is not defined for its type |
| GraphMeaning.ExpansionMeans | crates/core/src/graph.rs:368-452 | expanding a resource asks for exactly the resources its definition's inputs, account, entries and entries' params name, with an edge from the resource to each input, to or from each entry as it says, and from each entry to what its params name |
| GraphMeaning.RootsMean | crates/core/src/graph.rs:181-244 | before any expansion, exactly the base environment, workloads, their dependencies and shared resources are asked for, with edges from workloads to their dependencies and to the shared resources their specs read |
| GraphClosure.UniverseIsClosed | crates/core/src/graph.rs:454-456 | the product of the types, classes and IDs a deployment mentions is closed under expansion, although descriptors inherit parts from their referrers |
| GraphClosure.NodeClosureIsUnique | crates/core/src/graph.rs:173-254 | there is one least closed node set |
| GraphClosure.ExpansionIsReady | crates/core/src/graph.rs:368-452 | every edge an expansion adds joins resources that are nodes by then |
| GraphClosure.RootsAreReady | crates/core/src/graph.rs:181-244 | the same for the edges of workloads and shared resources |
| GraphState.ApplySteps | crates/core/src/graph.rs:273-365 | every construction step keeps the invariant (edges between nodes, each node queued once, definitions matched, inputs agreed) and changes nodes, edges, queue and requests exactly as asked |
| GraphFaults.StepIsJustified | crates/core/src/graph.rs:273-357 | a step that fails names a real fault and a request that meets it; a step that succeeds records only requests and inputs the deployment makes |
| GraphRun.ApplyAllRan | crates/core/src/graph.rs:173-254 | a whole list of steps that succeeds adds exactly its nodes, edges and co-provisioning, and queues exactly the new nodes |
| GraphBuilder.Builder.constructor | crates/core/src/graph.rs:174-180 | the builder starts empty |
| GraphBuilder.Builder.Request | crates/core/src/graph.rs:273-357 | the new state, or the error with the state it leaves: unknown type, missing class, no match, conflict of canonical inputs, first inputs fixed, null dropped |
| GraphBuilder.Builder.AddEdge | crates/core/src/graph.rs:359-365 | one edge is added and nothing else changes |
| GraphBuilder.Builder.AddExternals | crates/core/src/graph.rs:198-214 | the loop over a workload's dependencies performs its requests and edges in order, up to the first error |
| GraphBuilder.Builder.AddModules | crates/core/src/graph.rs:187-215 | the loop over workloads does the same |
| GraphBuilder.Builder.AddShared | crates/core/src/graph.rs:216-224 | the loop over shared resources does the same |
| GraphBuilder.Builder.AddReads | crates/core/src/graph.rs:232-243 | edges to the shared resources one workload's placeholders read |
| GraphBuilder.Builder.AddAllReads | crates/core/src/graph.rs:228-244 | the loop over workloads for those edges |
| GraphBuilder.Builder.AddRoots | crates/core/src/graph.rs:181-244 | everything asked for before the first expansion, in the source's order |
| GraphBuilder.Builder.AddReferences | crates/core/src/graph.rs:408-415 | a request and an edge for each resource placeholder |
| GraphBuilder.Builder.AddParams | crates/core/src/graph.rs:433-444 | a request for each resource in co-provisioning params, with an edge unless it is the co-provisioned resource |
| GraphBuilder.Builder.AddProvision | crates/core/src/graph.rs:417-449 | one co-provisioning entry: its key, request, edge direction, params, and the record of what it co-provisions and whether consumers match it; `GraphMeaning.CoProvisionMeans` says from the entry's fields what that record is |
| GraphBuilder.Builder.AddProvisions | crates/core/src/graph.rs:416-450 | the loop over entries |
| GraphBuilder.Builder.Expand | crates/core/src/graph.rs:368-452 | expanding a node performs the actions of the definition it matched |
| GraphBuilder.ExpandsItsDefinition | crates/core/src/graph.rs:369-375 | a node's definition exists, and looking it up by ID gives the one whose actions are performed |
| Criteria.CriterionWeight | crates/core/src/criteria.rs:37-70 | the accumulated weight, or nothing as soon as a field differs |
| Criteria.SettingNarrows | crates/core/src/criteria.rs:37-70 | setting one more field narrows a criterion to exactly the contexts with that value; setting a class moves it from the default class to that one |
| Criteria.EmptyMatches | crates/core/src/criteria.rs:37-70 | a criterion that sets nothing matches exactly the default class |
| Criteria.HeavierIffMoreSpecific | crates/core/src/criteria.rs:37-70 | weights order criteria by the most decisive field that only one of them sets, and tie only if they set the same fields |
| Criteria.BestWeightIsGreatest | crates/core/src/criteria.rs:73-81 | a definition's weight is the greatest of its matching criteria, and absent exactly when none matches |
| Criteria.WeighDefinition | crates/core/src/criteria.rs:73-81 | the computed weight is that one |
| Criteria.BestIsHeaviest | crates/core/src/criteria.rs:88-100 | the loop ends with every definition of greatest weight, and no other |
| Criteria.SelectsUniqueHeaviest | crates/core/src/criteria.rs:84-114 | a definition is selected exactly when it alone has the greatest weight; otherwise nothing matches, or the tie is reported |
| Criteria.SelectDefinition | crates/core/src/criteria.rs:83-117 | the loop selects the heaviest definition, or reports nothing or the tied IDs, sorted |
| Criteria.SelectForgetsOrder | crates/core/src/criteria.rs:83-117 | what is selected, and the tie that is reported, do not depend on the order of the definitions |
| IdRules.ObjectIdFollowsRule | crates/core/src/ids.rs:3-56 | an object ID is exactly what the documented pattern matches, in at most 50 characters |
| IdRules.ObjectIdMatchesPattern | crates/core/src/ids.rs:139-142 | and exactly what the schemas' pattern matches, in 2 to 50 |
| IdRules.TypeIdMatchesPattern | crates/core/src/ids.rs:144-147 | a type ID is exactly what the schemas' pattern for it matches |
| Sorting.SortForgetsOrder | crates/core/src/criteria.rs:104-106 | the same IDs have one sorted order |
| Topology.TopologicalLayers | crates/core/src/graph.rs:492-520 | succeeds exactly on acyclic graphs; layers partition the nodes, and a node's layer is the length of its longest dependency chain; otherwise the error is a simple cycle |
| Topology.FindCycle | crates/core/src/graph.rs:523-542 | terminates with a simple cycle of real edges |
| Topology.LayeringIsUnique | crates/core/src/graph.rs:492-520 | a graph has at most one layering |
| Topology.LayeringIsAcyclic | crates/core/src/graph.rs:492-520 | a graph with a layering has no cycle |
| Topology.LayeredIsLayering | crates/core/src/graph.rs:497-518 | peeling off resources with nothing left to wait for puts each at its depth |
| Coprovision.MatchDependents | crates/core/src/graph.rs:460-488 | terminates with the least edge set in which every consumer of a matching source, other than the two, also depends on the co-provisioned resource |
| Coprovision.ClosureIsUnique | crates/core/src/graph.rs:460-488 | that edge set does not depend on the iteration order |
| Scheduler.RunDeployment | crates/engine/src/planner.rs:1343-1472 | with something missing nothing starts, each missing resource fails with its reason and every other is refused; otherwise the run ends with every graph node having exactly one outcome, explained by its own run, its first dependency that did not provision, or the deadline; nothing starts at or after the deadline |
| Scheduler.EveryStateIsSound | crates/engine/src/planner.rs:1383-1455 | in every state of every run, a resource was started at most once, before the deadline, only after all its dependencies provisioned and before anything else ended, with their outputs in view, and its outcome is its result |
| Scheduler.Run.constructor | crates/engine/src/planner.rs:1352-1355 | a run starts with nothing done |
| Scheduler.Run.Now | crates/engine/src/planner.rs:1392 | each reading of the clock is the next one |
| Scheduler.Run.StartReady | crates/engine/src/planner.rs:1385-1417 | keeps the invariant, under which nothing starts at or after the deadline, and leaves no resource behind whose dependencies provisioned |
| Scheduler.Run.Join | crates/engine/src/planner.rs:1418-1454 | any running resource may end next; exactly its outcome and outputs are added |
| Scheduler.Run.Settle | crates/engine/src/planner.rs:1458-1472 | every resource that did not run gets the reason that explains it |
| Scheduler.Refuse | crates/engine/src/planner.rs:1375-1382 | missing resources fail, and every other is pending |
| Confluence.RunsAgree | crates/engine/src/planner.rs:1383-1472 | if results depend on dependencies' outputs only and the deadline is not reached, any two runs attempt the same resources and end with the same outcomes and outputs |
| Confluence.SolutionIsUnique | crates/engine/src/planner.rs:1383-1472 | on an acyclic graph the equations an unhurried run meets have one solution |
| Confluence.RunSolves | crates/engine/src/planner.rs:1383-1472 | every unhurried run ends in a solution |
| Confluence.AttemptedIff | crates/engine/src/planner.rs:1383-1417 | the resources attempted are exactly those whose transitive dependencies all provisioned |
| Scheduler.ProvisionedAreClosed | crates/engine/src/planner.rs:1383-1455 | whatever the timing, what provisioned has its dependencies provisioned |
| Confluence.DeadlineOnlyPostpones | crates/engine/src/planner.rs:1391-1394 | whatever was attempted before a deadline ends as it would without one |
| Deployment.DeploymentsEndAlike | crates/engine/src/planner.rs:1343-1472 | for a built graph whose resources' results follow from their resolved driver inputs, account, params and dependencies' outputs, and whose placeholders show the same nodes in every run, any two unhurried runs end alike |
| Provisioning.CookieIsKept | crates/engine/src/planner.rs:1968-2194 | in every state of every run of a deployment, a new cookie that a driver left is, sealed, in the checkpoint written next; a recorded checkpoint holds it exactly if that one was recorded; no operation follows, and the resource ends as provisioned or unknown |
| Provisioning.UnrecordedSuccessLosesCookie | crates/engine/src/planner.rs:2128-2142 | after a success whose checkpoint was not recorded, every recorded checkpoint is the note that it was not, without a cookie |
| Provisioning.CookieCanBeForgotten | crates/engine/src/planner.rs:2128-2142 | a driver, a job and a store with which that happens |
| Provisioning.FailureIsClean | crates/engine/src/planner.rs:1968-2194 | in every state of every run, a resource that ends as failed or pending left no new cookie in any of its operations, and each of them ended in a way that is known |
| Provisioning.RetriedWasTransient | crates/engine/src/planner.rs:1968-2194 | in every state of every run, an operation that another follows was answered by the executor, and if its driver was called, the driver last reported a transient failure and left no new cookie |
| Provisioning.TransientIsRetried | crates/engine/src/planner.rs:2171-2192 | and such an operation is followed by another if an attempt and time are left and it can begin |
| Provisioning.CutOffIsUnknown | crates/engine/src/planner.rs:2288-2306 | an operation that gave no answer has a checkpoint without a cookie and makes the outcome unknown |
| Provisioning.PendingHasReason | crates/engine/src/planner.rs:1456-1472 | at the end of a run a pending resource waits for a dependency or ran out of time, and is never just "not started" |
| Scopes.OutputsAreShown | crates/engine/src/planner.rs:1754-1851 | a placeholder shows the outputs of the latest finished node among those it can show, and nothing when none has finished |
| Scopes.RunsShowAlikeIff | crates/engine/src/planner.rs:1754-1851 | when exactly a placeholder shows the same node in any two runs of any plan for the graph |
| Scopes.ShowsDifferently | crates/engine/src/planner.rs:1754-1851 | otherwise: two runs of one plan, with time enough, in which the resource starts with and without a node it can show, and shows different outputs |
| Scopes.SteadyChoiceStays | crates/engine/src/planner.rs:1784-1823 | under that condition a placeholder shows what it would show with nothing but dependencies finished |
| Reachability.StartsWithIff | crates/engine/src/planner.rs:1383-1455 | the sets that can have finished when a resource starts in some run are exactly those that hold its dependencies and all that members depend on, and still do without one of its dependencies |
| Ancestry.CanPrecedeIff | crates/engine/src/planner.rs:1383-1455 | a resource that is no dependency can be in such a set exactly when some dependency, which no other dependency depends on, is one it does not depend on either |
| Scopes.ResolvesAlike | crates/core/src/placeholder.rs:688-775 | a value whose placeholders meet that condition resolves alike whatever else has finished |
| Locality.InputsAreSteady | crates/core/src/graph.rs:380-415 | driver inputs and account meet the condition, if graph and run name their references alike |
| Locality.CoParamsAreSteady | crates/core/src/graph.rs:416-446 | the params of a co-provisioned node meet it, if graph and run name their references alike |
| Locality.ExternalsAreDependencies | crates/engine/src/planner.rs:1784-1851 | what a workload sees under `externals` are its dependencies |
| Locality.SetValueIsSteadyIff | crates/engine/src/planner.rs:1784-1823 | params of the set meet it exactly when the shared resources they read do |
| Locality.SharedReadIsDependency | crates/core/src/graph.rs:225-244 | a shared resource of the set that a workload's spec reads is a dependency of it |
| Locality.ForeignSharedComesAndGoes | crates/engine/src/planner.rs:1793-1811 | a resource that is shared but no dependency, and need not wait for all that the reader waits for: two runs of one plan in which the reader starts with its outputs and without them |
| Deployment.WorkIsLocal | crates/engine/src/planner.rs:1395-1409 | such results see nothing but dependencies' outputs, although the scope holds everything finished so far |
| References.ReferenceIsDependency | crates/core/src/graph.rs:380-415 | every resource placeholder in a node's driver inputs or account names a dependency of the node |
| References.RunTimeReferenceIsDependency | crates/core/src/placeholder.rs:901-918 | with the same implicit types on both sides, what it names at run time is that dependency |
| References.StartedHasItsReferences | crates/engine/src/planner.rs:1754-1783 | when a resource starts, the outputs its placeholders read are in its scope |
| References.ParamReferenceIsDependency | crates/core/src/graph.rs:416-446 | every resource placeholder in co-provisioning params names a dependency of the co-provisioned node, or the node itself |
| References.CoMentions | crates/core/src/graph.rs:273-357 | the params a co-provisioned node carries hold the same placeholders as those of each entry that provisions it |
| References.RunTimeParamReference | crates/engine/src/planner.rs:1754-1763 | named alike, what such a placeholder reads at run time is that dependency, or the node itself |
| References.StartedHasItsParamReferences | crates/engine/src/planner.rs:1754-1783 | when a co-provisioned resource starts, the outputs its params read are in its scope exactly when they are not its own |
| References.NamedAlikeIff | crates/core/src/placeholder.rs:335-351 | when exactly a reference in one resource's definition, read for another, names the same resource in graph and run |
| References.ParamNamesAlikeIff | crates/core/src/placeholder.rs:335-351 | with the same implicit types: when the type is implicit, or the same class and ID are inherited from both |
| References.NamesAlikeIff | crates/core/src/placeholder.rs:335-351 | when exactly graph and run name the same resource |
| Misnamed.UnknownImplicitTypeIsMisnamed | crates/engine/src/planner.rs:1754-1763 | a type that only the graph's catalogue knows as implicit is named differently at run time, unless the reference leaves nothing to inherit |
| Misnamed.CustomTypeIsMisnamed | crates/engine/src/planner.rs:1754-1763 | every organization's own implicit type, named without class and ID outside the default class, with both names written out |
| Misnamed.ParamIsMisnamed | crates/core/src/graph.rs:416-446 | every entry for another class whose params name a type without class: the placeholder parses, and the two names differ in the class |
| Misnamed.PolicyIsMisnamed | crates/core/src/graph.rs:416-446 | a bucket's read-only policy whose params name a role |
| NodeRun.RunNode | crates/engine/src/planner.rs:1968-2194 | every run's log keeps the operation discipline, every entry is what the environment did, another operation begins only after a retryable failure with an attempt and time left, and the result is the one the log calls for |
| NodeRun.Operate | crates/engine/src/planner.rs:2043-2091 | an operation is refused, or recorded and then executed |
| NodeRun.Conclude | crates/engine/src/planner.rs:2093-2192 | a result is saved, an unsaved success becomes unknown, and only a retryable failure with attempts and time left goes on |
| NodeRun.ExecutionIsFramed | crates/engine/src/planner.rs:2003-2145 | each execution directly follows its operation's beginning and recorded inputs, before the deadline, and its checkpoint comes next |
| NodeRun.BegunIsSaved | crates/engine/src/planner.rs:1991-2193 | an operation that begins is checkpointed before another begins or the node returns |
| NodeRun.OpsAreBounded | crates/engine/src/planner.rs:2179-2183 | there are at most max(1, attempts) operations |
| NodeRun.UncertainIsLast | crates/engine/src/planner.rs:2158-2170 | nothing follows an uncertain result but its checkpoint, which keeps the cookie |
| NodeRun.OutputsWereSaved | crates/engine/src/planner.rs:2093-2143 | outputs are returned exactly when their checkpoint was recorded |
| NodeMeaning.FirstBegins | crates/engine/src/planner.rs:1983-2031 | the first operation begins exactly when nothing is missing, a permit and time are there and the store lets it |
| NodeMeaning.BegunGoesOn | crates/engine/src/planner.rs:2043-2091 | an operation that begins is refused by its job or by what is left of an earlier one, or its inputs are recorded and it executes, or it fails unrecorded |
| NodeMeaning.RetryIff | crates/engine/src/planner.rs:2171-2192 | after a failure another operation begins exactly when the failure is retryable, attempts are left, the delay ends before the deadline, and it can begin |
| NodeMeaning.UnrecordedIsRetried | crates/engine/src/planner.rs:2066-2091 | an operation whose inputs were not recorded is never executed, and is retried by the same rule |
| DriverRun.Converge | crates/drivers/src/run.rs:134-145 | against any driver: the calls are a `put`, polls and at most one cancellation; polls are at most the seconds before the last moment; the run gives up only once there is no time for another poll, after a cancellation if the driver can, and ends a minute after its timeout and after a day at the latest; each call carries the last acceptable cookie, which is also returned; the result is the one the last answer calls for, as `DriverMeaning` spells it out |
| DriverRun.Remove | crates/drivers/src/run.rs:150-157 | the same for a `delete`; a failed one returns the last acceptable cookie |
| DriverRun.Run.constructor | crates/drivers/src/run.rs:167-175 | the timeout is capped at a day |
| DriverRun.Run.Converge | crates/drivers/src/run.rs:177-188 | the `put`, and the first answer: a run that ends here ends as that answer calls for |
| DriverRun.Run.ConvergeFrom | crates/drivers/src/run.rs:189-215 | the polling loop ends, as its last answer calls for: ready with its outputs, failed with its error, uncertain if absent or unknown |
| DriverRun.Run.Remove | crates/drivers/src/run.rs:218-226 | the `delete`, and the first answer: a run that ends here ends as that answer calls for |
| DriverRun.Run.RemoveFrom | crates/drivers/src/run.rs:227-249 | its polling loop: absent is success whatever its cookie, ready is still in progress, unknown is uncertain |
| DriverRun.Run.Poll | crates/drivers/src/run.rs:190-193 | a pause and one observation, within the time left |
| DriverRun.Run.Bounded | crates/drivers/src/run.rs:253-262 | the answer in time, or the run is over after a cancellation |
| DriverRun.Run.TimedOut | crates/drivers/src/run.rs:267-293 | one cancellation with the current cookie, its error and the cookie it brought |
| DriverRun.Run.Absorb | crates/drivers/src/run.rs:298-307 | a failure's cookie is kept and taken off, or makes the outcome uncertain |
| DriverRun.Run.Keep | crates/drivers/src/run.rs:312-319 | an acceptable cookie replaces the last, any other is refused |
| DriverRun.Run.Pause | crates/drivers/src/run.rs:324-336 | the next poll is after the wait the driver asked for, and at least a second, but not after the last moment; after that there is none |
| DriverRun.CallsInOrder | crates/drivers/src/run.rs:177-293 | the mutation is first and only once, a cancellation last, only once and only if the driver can, and everything between is a poll |
| DriverRun.SuccessWasReported | crates/drivers/src/run.rs:177-216 | a run succeeds only with outputs the driver last reported as ready |
| DriverRun.DeletionWasReported | crates/drivers/src/run.rs:218-250 | a deletion succeeds only once the driver reported the resource gone |
| DriverRun.RefusedIsUncertain | crates/drivers/src/run.rs:309-319 | a last answer whose cookie cannot be kept makes the outcome uncertain, whatever it said |
| DriverMeaning.RetryableIff | crates/drivers/src/run.rs:177-307 | a run may be retried exactly when the driver's last answer reports a transient failure, as an error or as an observation, with no cookie or one that can be kept |
| DriverMeaning.ReportedIsPassedOn | crates/drivers/src/run.rs:202-243 | a run that ends with a reported failure ends with that failure, or as uncertain if its cookie cannot be kept |
| DriverMeaning.UnknownIsUncertain | crates/drivers/src/run.rs:210-247 | an observation that the state is unknown makes the result uncertain, with its reason |
| DriverMeaning.AbsentMeans | crates/drivers/src/run.rs:203-233 | a resource that is absent while it is put is uncertain, and one that is absent while it is removed is gone |
| DriverMeaning.CancelledMeans | crates/drivers/src/run.rs:267-293 | a cancelled run is a plain timeout exactly when the driver confirmed within a minute that the resource is absent or failed, and uncertain otherwise |
| DriverMeaning.PutIff | crates/drivers/src/run.rs:177-201 | a `put` succeeds with exactly the outputs the driver last reported ready, with no cookie or one that can be kept |
| DriverMeaning.DeletedIff | crates/drivers/src/run.rs:218-234 | a `delete` succeeds exactly when the driver last reported the resource deleted or absent |
| DriverMeaning.TimeoutIsLate | crates/drivers/src/run.rs:253-336 | a run times out only once there is no time for another poll, and a driver that can cancel has answered its cancellation |
| DriverMeaning.RunIsShort | crates/drivers/src/run.rs:253-336 | whatever the driver does, a run ends within a minute of its timeout, with at most one poll a second |
| DriverMeaning.RefusedIff | crates/drivers/src/run.rs:115-125 | an answer's cookie is refused exactly when it is over 10 KiB or not in the version the driver declares |
| DriverMeaning.LatestIs | crates/drivers/src/run.rs:298-319 | the cookie at the end is the one of the last answer, of any kind, that brought one that can be kept |
| DriverMeaning.LatestIsInitial | crates/drivers/src/run.rs:298-319 | or the initial one if none did |
| DriverTrace.VerdictIsBare | crates/drivers/src/run.rs:298-307 | a result never carries a cookie |
| DriverTrace.LatestIsAcceptable | crates/drivers/src/run.rs:312-319 | a run never ends with a cookie that cannot be checkpointed, unless it was given it |
| DriverTrace.PollsAreBounded | crates/drivers/src/run.rs:324-336 | pacing bounds the number of polls by the time before the last moment, in seconds rounded up |
| Driver.SplitIsBare | crates/drivers/src/lib.rs:401-427 | splitting removes every cookie, keeps the outermost, and does not change whether the error is retryable |
| Driver.SplitUndoesAttach | crates/drivers/src/lib.rs:410-427 | attaching a cookie and splitting give back the error and the newest cookie |
| Executor.RunProvision | crates/engine/src/executor.rs:622-761 | the driver is called exactly when nothing refuses the job; the result follows from the driver's verdict, the newest cookie and the plan; a new cookie, sealed, is in the provision or in an uncertain failure; `Executor.CalledIff`, `TransientIff` and `ProvisionedIff` say so from the job and the driver's last answer |
| Executor.UnknownStaysUncertain | crates/engine/src/executor.rs:1432-1468 | a timeout or an unknown outcome is never retryable or permanent |
| Executor.RetriedIff | crates/engine/src/executor.rs:1432-1481 | when exactly an attempt is retryable, whatever the driver answered |
| Executor.CalledIff | crates/engine/src/executor.rs:622-672 | the driver is called exactly when the request was made, its inputs are fresh, and the plan is permitted: a plan that replaces needs the permit to replace, else one that deletes the permit to delete, and no plan for an existing resource the permit for unknown changes |
| Executor.TransientIff | crates/engine/src/executor.rs:1432-1481 | an attempt is retryable exactly when the driver's last answer reports a transient failure that can be believed, and no new cookie was left |
| Executor.ProvisionedIff | crates/engine/src/executor.rs:673-761 | a resource is provisioned exactly when the driver last reported it ready with valid outputs that were stored, and its cookie could be sealed |
| Executor.AcceptedPutCanBeRetried | crates/engine/src/executor.rs:1458-1468 | a driver whose `put` was accepted without a cookie and whose poll fails transiently is retried |
| Executor.UnkeptMeans | crates/engine/src/executor.rs:673-761 | a ready resource whose outputs could not be stored, or whose cookie not sealed, is uncertain; one with invalid outputs fails for good exactly when the plan had no effects and no new cookie was left, and is uncertain otherwise |
| Executor.FailureIsFaithful | crates/engine/src/executor.rs:1432-1453 | a failure is retryable exactly when the driver says so, and uncertain exactly when the outcome is unknown |
| Executor.MutationFailureIsSafe | crates/engine/src/executor.rs:1458-1481 | after an accepted mutation any failure is uncertain and carries the newest cookie |
| Template.FindPlaceholderEnd | crates/core/src/placeholder.rs:175-185 | the scan finds the first closing brace outside quotes |
| Template.ParsePath | crates/core/src/placeholder.rs:189-244 | the loop reads the path that the segment grammar gives |
| Template.ParseTemplate | crates/core/src/placeholder.rs:117-150 | the loop reads the parts that the template grammar gives |
| TemplateLaws.PrintInvertsParse | crates/core/src/placeholder.rs:117-187 | printing the parts of any string that parses gives the string back |
| TemplateLaws.ParseInvertsPrint | crates/core/src/placeholder.rs:117-187 | and parsing printed parts gives the parts back |
| TemplateLaws.EndIs | crates/core/src/placeholder.rs:175-187 | without quotes a placeholder ends at the first closing brace |
| TemplateLaws.QuotedEndIs | crates/core/src/placeholder.rs:175-187 | a brace between single or double quotes does not end it |
| TemplateLaws.LiteralTexts | crates/core/src/placeholder.rs:117-150 | text without a dollar sign is one literal, and an escaped opening is the literal opening |
| PathLaws.OtherBracketsRead | crates/core/src/placeholder.rs:189-244 | brackets also read names in double quotes and indices with a plus sign |
| PathLaws.RootedPathReads | crates/core/src/placeholder.rs:189-244 | a printed path reads back exactly when each of its segments can be produced by parsing |
| PathLaws.ParsedArePrintable | crates/core/src/placeholder.rs:189-244 | every segment parsing produces can be printed |
| PathLaws.PathOpens | crates/core/src/placeholder.rs:175-187 | the quote that the scan for a placeholder's end has open after a printed path follows from its segments one by one |
| Collect.CollectInto | crates/core/src/placeholder.rs:788-820 | the recursive walk collects every placeholder, in order |
| Collect.CollectedIffMentioned | crates/core/src/placeholder.rs:788-820 | what is collected is exactly what the placeholders inside mean |
| Collect.ResolvingDependsOnMentioned | crates/core/src/placeholder.rs:688-775 | resolving reads nothing from the scope but the placeholders inside, also when some of them cannot be read |
| ResolveLoops.ResolveText | crates/core/src/placeholder.rs:725-775 | the loops over placeholders and parts compute the resolved string, which `PlaceholderMeaning` says of each text |
| PlaceholderMeaning.ContextTexts | crates/core/src/placeholder.rs:286-300 | each of the ten context placeholders, written out, resolves to what the scope holds for its key |
| PlaceholderMeaning.ContextIff | crates/core/src/placeholder.rs:436-449 | a path after `context` means a key exactly when it reads as that key's text, outside sets; no other path means anything |
| PlaceholderMeaning.RefReads | crates/core/src/placeholder.rs:314-366 | every valid reference, printed, parses back to itself |
| PlaceholderMeaning.ResourceInterprets | crates/core/src/placeholder.rs:450-560 | a printed reference and field are interpreted as exactly that resource and field; the account only where driver accounts are described |
| PlaceholderMeaning.ResourceResolves | crates/core/src/placeholder.rs:725-775 | the text of a resource placeholder, for every reference, field and output path, resolves to what the scope holds for them |
| PlaceholderMeaning.IdentityResolves | crates/core/src/placeholder.rs:922-947 | `guresid` and `account` resolve to the resource's own identity and account |
| PlaceholderMeaning.DottedReads | crates/core/src/placeholder.rs:506-540 | a reference written with dots, none of whose parts is a field name, reads as the same resource and field as when it is quoted |
| PlaceholderMeaning.SetInterprets | crates/core/src/placeholder.rs:428-495 | what each root means in a set, and that the roots of a set mean nothing elsewhere |
| PlaceholderMeaning.PodInterprets | crates/core/src/placeholder.rs:428-495 | pod placeholders need names, and are never looked up |
| PlaceholderMeaning.OutputIff | crates/core/src/placeholder.rs:841-857 | an output path is a secret exactly when its one name is one, and a value exactly when it leads to it in a value that no secret hides |
| PlaceholderMeaning.ValueIff | crates/core/src/placeholder.rs:960-965 | the same for a shared value |
| PlaceholderMeaning.WalkIff | crates/core/src/placeholder.rs:859-870 | a path is followed exactly to where it leads, one item or member at a time |
| PlaceholderMeaning.WholeIsShown | crates/core/src/placeholder.rs:737-754 | a string that is one placeholder becomes exactly what is looked up: a value with its type, or a secret, which a plain sink refuses |
| PlaceholderMeaning.SurroundedIsInserted | crates/core/src/placeholder.rs:755-775 | inside a longer text a value is inserted as text between what surrounds it, and a secret stays a part of its own |
| ResolveLoops.ResolveJson | crates/core/src/placeholder.rs:688-722 | the recursion computes the resolved value |
| Rendering.DeferredEqualsEager | crates/core/src/placeholder.rs:688-775 | resolving into secret expressions and rendering later gives the JSON that substituting everything at once gives |
| Rendering.RendersIffRead | crates/engine/src/executor.rs:1301-1332 | rendering succeeds exactly when every reference was read |
| Taint.TaintIsExact | crates/core/src/placeholder.rs:614-775 | a resolved value is tainted exactly when a placeholder inside it reads a secret, at every level, and never in a plain sink |
| Taint.TaintedIffLeaf | crates/core/src/placeholder.rs:614-660 | tainted means that a secret string lies inside |
| Taint.SecretPaths | crates/engine/src/executor.rs:1335-1360 | exactly the paths of secret strings are listed |
| Taint.Split | crates/engine/src/executor.rs:1380-1403 | fields without a secret go to the plain map, whatever the secrets are; the others are rendered apart |
| Taint.PutThenRender | crates/engine/src/planner.rs:2508-2526 | putting content back and rendering is rendering and setting the content |
| Taint.PutKeepsTaintIff | crates/engine/src/planner.rs:2508-2526 | when exactly putting content back keeps taint exact |
| Taint.PutMovesNoSecret | crates/engine/src/planner.rs:2508-2526 | content put where no secret was changes no secret path and no reference |
| Taint.PutCanHideASecretsAbsence | crates/engine/src/planner.rs:2508-2526 | content put over an object's only secret leaves the object tainted without one |
| SetAside.SetAsideContentIsLiteral | crates/engine/src/planner.rs:2226-2244 | with all literal content taken out, the rest resolved and the content put back in a loop: secrets and references are where they were, rendering is eager substitution with the content set, and each content arrives as it was written |
| SetAside.TakenIff | crates/engine/src/planner.rs:2482-2505 | what is taken out is exactly the content of files marked `noExpand`, each with its path |
| SetAside.SpecFilesAre | crates/engine/src/planner.rs:2482-2505 | what is taken out of a spec is exactly the `content` of each container's files that stand beside `noExpand: true` |
| SetAside.ParamsFilesAre | crates/engine/src/planner.rs:2226-2239 | and out of params the same, under `spec` |
| SetAside.TakenComesBack | crates/engine/src/planner.rs:2482-2526 | putting back what was taken out gives the value again |
| SetAside.TakenAreDistinct | crates/engine/src/planner.rs:2482-2505 | nothing is taken out twice |
| SetAside.PutAllMovesNoSecret | crates/engine/src/planner.rs:2242-2244 | putting any content back into plain places moves no secret, in a loop over the changed value |
| SetAside.SetAsideNoExpand | crates/engine/src/planner.rs:2482-2505 | the nested loops take out that content, and leave `null` |
| SetAside.SetAsideInParams | crates/engine/src/planner.rs:2226-2239 | the same for the `spec` of a workload's params, with longer paths |
| SetAside.PutBack | crates/engine/src/planner.rs:2242-2244 | the loop puts each content back |
| SecretRefs.ReferencesAreRight | crates/engine/src/planner.rs:2381-2407 | references in a definition's secret inputs taint exactly, and render to the input with each reference replaced by its secret |
| SecretReading.ReadSecrets | crates/engine/src/executor.rs:305-357 | succeeds exactly when nothing refuses (criteria that do not match; a secret without source, permission, decision or stored value); success reads every referenced secret, each for an owner that may give it out; an error names what really refuses |
| SecretReading.Authorize | crates/engine/src/executor.rs:404-425 | granted exactly when some owner may use the secret and every owner before it was forbidden; a store error before that leaves it undecided |
| SecretReading.OwnersAre | crates/engine/src/executor.rs:336-343 | a secret's owners are the environment's values or the resources whose outputs it came from, as its sources say |
| SecretReading.InputsRender | crates/engine/src/executor.rs:305-332 | with the secrets read, every input of the job renders |
| SecretReading.Collect | crates/engine/src/executor.rs:1301-1308 | exactly the references inside are added |
| Translate.TranslationPreservesMeaning | crates/core/src/workload.rs:1053-1190 | in a string whose names read back, each placeholder reads the same resource output, secret or value as the original, in every scope |
| Translate.TranslatedStringParsesIff | crates/core/src/workload.rs:1061-1096 | a translated string parses to the original's literals, in order, with each placeholder translated, exactly when the printed names of every translated placeholder are not empty and leave no quote open |
| Translate.TranslatedReadsIff | crates/core/src/workload.rs:1126-1178 | the same for one placeholder: its text is one placeholder with the translated segments |
| Translate.StringTranslatesIff | crates/core/src/workload.rs:1053-1178 | a string is translated exactly when it parses, every resource it names is declared with a known type that has the output, no secret output has fields, and no secret reaches a plain field; and it is marked secret exactly when it reads one |
| Translate.SingleQuoteFreeReadsBack | crates/core/src/workload.rs:1181-1190 | names that are not empty and hold no single quote read back, unless a dotted name after the output holds a brace |
| Translate.PlainStringReadsBack | crates/core/src/workload.rs:1061-1096 | a string whose names are not empty and hold no quotes reads back |
| Translate.TranslatedPlaceholderMeansTheSame | crates/core/src/workload.rs:1126-1178 | a translated placeholder is interpreted as the dependency or shared resource that its key names, with the same path |
| Translate.PathReadsBackIff | crates/core/src/workload.rs:1181-1190 | a translated path reads back exactly when its names are not empty |
| Translate.EmptyNameBreaks | crates/core/src/workload.rs:1181-1190 | an empty dependency name does not read back |
| Translate.QuoteBreaks | crates/core/src/workload.rs:1181-1190 | a name with a quote leaves the placeholder open |
| Translate.WriteTranslated | crates/core/src/workload.rs:1067-1082 | the loop over parts writes the translated text and notes secrets |
| TranslateJson.SecretsAreListed | crates/core/src/workload.rs:1053-1123 | the pointers listed are exactly those of strings with a placeholder whose declared type says that the output is secret, and all of them pass the sink test |
| TranslateJson.SpecSecretsAreListed | crates/core/src/workload.rs:822-888 | a spec that translates reads secrets in variables and file content only, and the pointers of exactly those strings are listed |
| TranslateJson.SpecSinksAreRight | crates/core/src/workload.rs:1043-1051 | for every string of a spec the sink test on its pointer agrees with its path |
| TranslateJson.TranslateInto | crates/core/src/workload.rs:1053-1123 | the recursion rewrites every string and appends the pointers in order |
| TranslateJson.TranslateOne | crates/core/src/workload.rs:1061-1096 | one string: unchanged if literal, refused if it reads a secret outside a sink |
| JsonPointer.EscapeKeyEscapes | crates/core/src/workload.rs:1026-1028 | the two replacements escape each character once |
| JsonPointer.UnescapeUndoesEscape | crates/core/src/workload.rs:1026-1028 | reading escapes back (section 4 of RFC 6901) gives the key, and an escaped key has no slash |
| JsonPointer.PointerIsInjective | crates/core/src/workload.rs:1098-1119 | different paths have different pointers |
| JsonPointer.SecretSinkIff | crates/core/src/workload.rs:1043-1051 | a pointer is taken for a secret sink exactly when its path, without leading empty keys, is one |
| JsonPointer.SinksAre | crates/core/src/workload.rs:1043-1051 | the paths that may hold a secret are exactly a container's variables, the content of its files, and a function's variables |
| JsonPointer.SinkTestIsRightIff | crates/core/src/workload.rs:1043-1051 | when exactly the test on the pointer agrees with the path |
| JsonPointer.EmptyKeyMisleads | crates/core/src/workload.rs:1043-1051 | a path, outside any spec, for which it does not |
| Redact.RedactedIsClean | crates/core/src/redact.rs:55-71 | redacted text contains no form |
| Redact.RedactIsIdempotent | crates/core/src/redact.rs:55-71 | redacting twice changes nothing, and exactly clean text is left alone |
| Redact.PassKeepsUncovered | crates/core/src/redact.rs:75-111 | one pass keeps exactly the characters no occurrence covers, and writes one marker for each covered run |
| Redact.Occurrences | crates/core/src/redact.rs:79-89 | every occurrence of a form is found, overlapping ones included |
| Redact.Merge | crates/core/src/redact.rs:94-110 | merging sorted matches in one sweep gives the pass |
| Redact.Redactor.constructor | crates/core/src/redact.rs:24-28 | a redactor starts without forms |
| Redact.Redactor.Add | crates/core/src/redact.rs:31-42 | exactly the forms of the non-empty values are added, each once |
| Redact.Redactor.RunPass | crates/core/src/redact.rs:75-111 | nothing exactly when the text is clean, otherwise the pass |
| Redact.Redactor.Redact | crates/core/src/redact.rs:55-71 | the loop computes the redacted text, which is clean |
| RedactForms.FormsAre | crates/core/src/redact.rs:124-140 | the forms of a secret are exactly the secret, its JSON text, its JSON text as Go escapes it, and both with HCL's escapes, each defined character by character |
| RedactForms.FormsStandForSecret | crates/core/src/redact.rs:124-140 | each form reads back as the secret: as it is, as JSON, or as an HCL template and then JSON |
| RedactForms.SecretIsMarked | crates/core/src/redact.rs:55-71 | a secret alone in a text becomes `[REDACTED]`, or nothing when a secret occurs in the marker |
| RedactForms.RedactedIs | crates/core/src/redact.rs:55-71 | the result is the text after the first pass that leaves it clean, or only the marker if nine passes do not |
| CanonicalNumber.PrintDenotes | crates/core/src/canonical.rs:76-107 | each layout is a number of the JSON grammar, and denotes exactly digits times ten to the n - k |
| CanonicalNumber.SameTextIffSameValue | crates/core/src/canonical.rs:19-28 | two numbers print alike exactly when they denote the same value |
| CanonicalLayout.ExponentIff | crates/core/src/canonical.rs:87-106 | a number is written with an exponent exactly when it is not zero and its magnitude is below 10^-6 or at least 10^21 |
| CanonicalLayout.PrintIsShortest | crates/core/src/canonical.rs:76-107 | no fraction ends in a zero, an exponent follows exactly one digit that is not zero, and a sign is there exactly for negative values |
| Canonical.SameTextIffEquivalent | crates/core/src/canonical.rs:9-55 | two values print the same text exactly when they are equal up to member order and number representation (sections 3.2.2 and 3.2.3 of RFC 8785) |
| JsonReader.ReadUndoesWrite | crates/core/src/canonical.rs:9-73 | a reader for the JSON grammar (RFC 8259), given canonical text followed by anything that does not continue it, returns what follows and a document that denotes the value, with sorted members |
| JsonReader.DenotedAreEquivalent | crates/core/src/canonical.rs:9-73 | values that one document denotes are equal up to member order and number representation |
| JsonReader.EscapesAreShort | crates/core/src/canonical.rs:57-73 | exactly seven characters have a two-character escape, other control characters one with four lower-case digits, and no other character any |
| Canonical.WriteEnds | crates/core/src/canonical.rs:15-55 | canonical texts are uniquely readable: text followed by anything determines the value and the rest |
| Canonical.SortIsSorted | crates/core/src/canonical.rs:41-42 | members are ordered by their UTF-16 code units |
| Utf16.SortedIsUnique | crates/core/src/canonical.rs:41-42 | that order determines the sequence of keys |
| Utf16.LessIff | crates/core/src/canonical.rs:41-42 | keys are ordered by the first character in which they differ, where characters beyond the basic plane come before U+E000 and after the rest; a proper prefix comes first |
| Canonical.WriteValue | crates/core/src/canonical.rs:15-55 | the recursive writer appends the canonical text, in which `JsonReader.ReadUndoesWrite` finds the value again |
| Canonical.WriteString | crates/core/src/canonical.rs:57-73 | the loop appends the quoted, escaped string |
| Canonical.WriteArray | crates/core/src/canonical.rs:30-39 | the loop appends the items |
| Canonical.WriteObject | crates/core/src/canonical.rs:40-53 | the loop appends the members in order |
| Timestamp.CivilDateIsRight | crates/cli/src/output.rs:36-48 | for every day, the computed date is a Gregorian date with that day number |
| Timestamp.CivilDateInvertsDayNumber | crates/cli/src/output.rs:36-48 | and every date comes from its day number |
| Timestamp.ConsecutiveDays | crates/cli/src/output.rs:36-48 | consecutive days map to consecutive dates |
| Timestamp.Epoch | crates/cli/src/output.rs:39-40 | day zero is 1970-01-01 |
| Timestamp.TimestampIsRight | crates/cli/src/output.rs:36-55 | for every millisecond count, date and time of day are valid and denote its second (section 5.6 of RFC 3339) |
| Timestamp.TextReads | crates/cli/src/output.rs:49-55 | from year 0 to 9999 the text has the form of section 5.6 of RFC 3339 and reads back as the same date and time |
| Timestamp.SameTextIffSameSecond | crates/cli/src/output.rs:36-55 | in every year, two timestamps have the same text exactly when they are in the same second |

## Left out

- Scheduler.RunDeployment: stops where resources that the deployment leaves out are deleted, and does not model log lines or the final records; the artifact, version and deletion checks are one map of what is missing.
- Deployment.DeploymentsEndAlike: the placeholders that are added to a workload's params for its dependencies' outputs are taken as part of those outputs; prior state and the provenance of secrets are not inputs.
- Scopes.OutputsAreShown: the scope is a relation between what has finished and what is shown, not a loop over maps; of several nodes under one key the choice is by some fixed order, which is not said to be the order of nodes.
- Graph.BuildGraph: requests carry where they come from as a value instead of a path text, so requests from two places in one definition for the same resource count once, and a conflict names its two requests in the order they came.
- NodeRun.RunNode: attempts are numbered by the model; permits, the job's resolution, prior state, backoff and the store's answers are given by the environment.
- DriverRun.Converge: time passes in calls and pauses only, so scheduling delays between them are not counted.
- Executor.RunProvision: reading secrets, planning and permits are answers of the environment, and so are whether outputs are valid, whether they can be stored, and what a sealed cookie is.
- TranslateJson.TranslateInto: rewrites values instead of updating them in place; taking out and putting back content marked `noExpand` before and after translation is not repeated here.
- Taint.Split: JSON maps are sequences of members, so two members with one key are not merged.
- Redact.Redactor.Add: keeps forms without repetition but not sorted, which no result depends on; texts are sequences of characters rather than of UTF-8 bytes.
- JsonReader.ReadUndoesWrite: the reader takes no white space, no capital `E` and no surrogate pairs as escapes, none of which canonical text has.
- CanonicalNumber.PrintDenotes: starts from given shortest digits and exponent; finding them for a double is left to the standard library.
- `call_timeout`, `parse_timeout` and the durations and cron expressions of `workload.rs`: only easy members.
- The store, secret stores, cloud credentials, HTTP driver, registry, API server, CLI plumbing and `planner/deprovision.rs`, `planner/recover.rs`, `planner/log.rs`: input and output, or not part of this model.
- Wording of errors and log lines.
