# Conven: proofs about the shared connections, the RPC guards and the generated configuration

Conven runs a few changed services locally and routes the rest to the cluster. Four parts of it have
to be right without anyone watching. This project models them in Dafny 4.11 and proves what they keep.

**Shared connections** (`LeaseProtocol`, `ConnectionRegistry`, `LeaseRuns`). Workspaces share tunnel
processes through records on disk, each with a process and the leases of the workspaces that use it.
`Registry` is a class whose methods are the operations that run under the registry lock. Between and during
steps processes may exit, whole groups may die and pids may be reused. Every method keeps the registry
invariant and one guarantee to the other workspaces (`Step`), which composes over any run of any operations
(`Serve`), and what each operation promises its own caller carries over to runs as well (`LeaseLasts`,
`BystandersHit`). A ghost counter records every outside call that fails, so that the methods also say what a
request comes to when none does.

**RPC guards** (`GoSyntax`, `GoSemantics`, `RpcGuards`, `RpcAliases`, `RpcCertifier`, `RpcSoundness`,
`RpcConstruction`, `RpcSafety`, `RpcLiterals`, `RpcTarget`, `RpcTargetRuns`, `RpcTargetWrites`, `RpcRepair`,
`RpcRepairRuns`, `RpcRepairEnds`, `RpcDenotations`, `RpcDecisions`, `RpcCoverage`). A small Go with a
short-circuit interpreter, the abstract evaluator of guard conditions, the alias fixpoint, the inspection
that certifies a package for disabled bindings, the target inspection and the source repair loop, with what
it does to runs and where it ends. Both directions are proved: what the inspections accept is safe, and what
they must accept they do, told from the values of the guards. Composite literals fill their fields by name
or by position and leave the others at their zero values. Opaque code answers from an arbitrary oracle and
may call any function literal of the frame, so the theorems hold for every such behaviour. A pointer is a
copy of what it points to; to make up for that, a variable whose address the function takes anywhere may
read as anything of its kind at any moment, so that whatever is written through the pointer, by whomever, is
among the runs.

**Generated configuration** (`YamlNodes`, `YamlClone`, `YamlKeys`, `YamlPaths`, `YamlPatch`, `YamlGuard`,
`YamlLayers`, `ConfigPlan`, `RpcRoutes`, `BindingFallbacks`, `ExternalDependencies`, `ExternalPlaces`,
`PropertyFiles`). YAML nodes are heap objects, shared through aliases and possibly cyclic; the in-place path
updates are proved against functions on trees, and the layered fold of patches and guards, the fallback
merge and the graph walks are proved about those.

**Algorithms** (`DependencySync`, `CommandSuggestions`, `CommentStripping`, `ProcessTree`).

`Options` and `Collections` hold an option type and facts about finite sets.

## What turned out false of the code

- *A certified package never uses a blank binding.* It may when it declares a configuration with a literal that
  fills the binding and later assigns the real one to the same variable: `var c = Config{A: ...}`, or
  `var c = Config{...}` with the value in the binding's position, a guarded use of `c.A`, then `c = cfg`
  (`RpcLiterals.LiteralEscapesCertification`, for both spellings). The tables treat the variable as the
  real configuration from the start. For packages whose literals fill no binding, by name or by position,
  certification is sound (`RpcSafety.CertifiedNeverUses`).
- *In an accepted function every guard around a client construction leads to it under a target-only
  configuration.* The target inspection runs without the certification and does not look at writes:
  `cfg.A.Target = ""; if cfg.A.Target != "" { use(cfg.A) }` is accepted, and a run from a target-only
  configuration skips the construction; the same goes for `c := &cfg.A; c.Target = ""`
  (`RpcTargetWrites.AcceptedLeadsAstray`, for both). The claim holds, over whole runs, for packages that leave
  their bindings alone (`RpcTargetRuns.LeavesBindings`): no assignment or increment writes through an alias or
  along a binding's field name, no alias is assigned again, no address is taken along a binding's field name
  or of a variable whose struct type is a client configuration, a configuration or one that holds a
  configuration, and no literal builds a configuration or leaves a field that holds one unset
  (`RpcTargetRuns.GuardsLeadOn`).
- *A configuration accepted as disabled is never active.* It is active exactly when its endpoint list, or its Etcd
  mapping with hosts, has content under an explicit `!!null` tag: the disable check looks at the tag
  first, the route decision at the kind (`RpcRoutes.DisabledIsInactiveExactly`, `RpcRoutes.DisabledYetActive`).
- *Agreeing guards always verify in the end.* Verification fails exactly when, in the file as the guards found
  it, one of them has to create a key whose text an integer key already has, or a merge key
  (`YamlLayers.VerificationFailsOnClash`, `YamlLayers.SameTextFails`). The same condition on the remote
  document decides whether it can be read again with the fallbacks merged in
  (`BindingFallbacks.MergeKeepsDocument`). A property guard verifies exactly when its key is clean and its
  value neither starts nor ends with white space other than a line break: the reading is trimmed, the
  expectation is not (`PropertyFiles.VerifiedExactly`, `PropertyFiles.BlankCannotBeVerified`). A key with a
  line break even makes the file unreadable (`PropertyFiles.LineBreakSpoilsFile`).
- *A second dependency synchronization changes nothing.* It does exactly unless some application has an
  active binding with the empty name that a service provides (`DependencySync.SecondRunIsIdle`,
  `DependencySync.NamelessExample`).
- *No recovery signals a connection somebody holds.* The connection of the recovered record is never held, but
  forced recovery of an unverified record signals a process group by number, and a connection of
  another record may run in that group (`LeaseRuns.ForcedRecoveryHitsBystander`). Only a forced release can do
  so, or the recovery of a record without a lease that counts and whose leader no longer ran
  (`LeaseRuns.BystandersHit`).

## Model

| member | source | states |
|---|---|---|
| RpcGuards.EvaluateIsSound | internal/config/disabled_rpc.go:364-432 | the evaluator is sound for short-circuit evaluation: with a sound lookup, a decided condition evaluates to its verdict or gets stuck, without effect, whatever its undecided subterms do |
| RpcAliases.OnePass | internal/config/disabled_rpc.go:517-588 | one sweep of the body computes the specified tables and reports a change just when there was one |
| RpcAliases.BuildTables | internal/config/disabled_rpc.go:507-588 | the `changed` loop ends and yields the fixpoint of the sweep from the parameters |
| RpcAliases.Fixpoint | internal/config/disabled_rpc.go:517-588 | a further sweep leaves the tables alone |
| RpcAliases.PassProgress | internal/config/disabled_rpc.go:517-588 | every sweep that changes something leaves strictly fewer entries to add, so the loop terminates |
| RpcAliases.PassStable | internal/config/disabled_rpc.go:517-588 | when a whole sweep changes nothing, no single assignment would |
| RpcAliases.FixpointJustified | internal/config/disabled_rpc.go:517-588 | every alias in the final tables was defined by an assignment of the body whose right side resolves to the same binding in the final tables |
| RpcAliases.FixpointTyped | internal/config/disabled_rpc.go:838-869 | in a typed body the tables agree with Go's static types: configurations, carriers and aliases have the struct types they are recorded with |
| RpcDenotations.TablesComplete | internal/config/disabled_rpc.go:517-588 | the final tables miss nothing: an assignment of the body whose right side denotes a binding, a configuration or a carrier, a literal that carries one included, leaves its variable in the tables |
| RpcDenotations.MembersExact | internal/config/disabled_rpc.go:913-967 | a whole configuration is denoted by a variable that holds one or by a field of a carrier, under any parentheses, dereferences and address operators, and by nothing else |
| RpcDenotations.ResolveExact | internal/config/disabled_rpc.go:969-981 | a binding is denoted by an alias of it or by its field selected from a whole configuration, in parentheses or not, and by nothing else |
| RpcDenotations.FieldPathExact | internal/config/disabled_rpc.go:1008-1021 | the fields of a binding, however deep, have the path by which they are selected |
| RpcCertifier.InspectFunction | internal/config/disabled_rpc.go:490-772 | the staged inspection (tables, mutated aliases, then all nodes) reports exactly the failure of the specified judgement |
| RpcSoundness.ResolveEval | internal/config/disabled_rpc.go:969-981 | an expression that resolves to a binding evaluates to that binding's configuration, and its only effect is the use of it, which conditions and alias definitions do not have |
| RpcSoundness.LookupSound | internal/config/disabled_rpc.go:1008-1021 | what the analysis says of a field path of a binding holds in every state whose configurations agree with the profile |
| RpcSoundness.HelperSound | internal/config/disabled_rpc.go:307-338 | a helper with a verdict returns it on every agreeing configuration, without effect; a valid helper returns false on every blank one |
| RpcSoundness.HelperCallSound | internal/config/disabled_rpc.go:983-992 | a condition that hands the binding to a proven helper is false in every blank state |
| RpcSoundness.ConditionSound | internal/config/disabled_rpc.go:983-1006 | every decided condition takes its verdict in every blank state and touches nothing |
| RpcDecisions.EvaluateDecides | internal/config/disabled_rpc.go:364-432 | the evaluator is complete on a grammar: guards built from known fields, `""`, `0` and `len` of empty lists with `!`, `&&`, `||`, `==`, `!=` and `>` at matching types have the verdict that is their value, and refer to the binding just when they mention a field |
| RpcDecisions.GuardEvaluates | internal/config/disabled_rpc.go:364-432 | in a state in which the fields can be read, such a guard evaluates to that value, without effect |
| RpcDecisions.HelperDecides | internal/config/disabled_rpc.go:307-362 | a helper whose body is such a guard over its argument has the verdict that is its value, for blank and for target-only arguments |
| RpcDecisions.ParamPathOf | internal/config/disabled_rpc.go:434-447 | in a helper, the fields of the argument have the path by which they are selected |
| RpcDecisions.ParamPathOnly | internal/config/disabled_rpc.go:434-447 | and nothing else has a path |
| RpcDecisions.ValidHelperExactly | internal/config/disabled_rpc.go:307-338 | a helper of the grammar is accepted if and only if it mentions its argument and calling it with a configuration in which nothing is set returns false |
| RpcDecisions.RouteGuardValid | internal/config/disabled_rpc.go:307-338 | the guard over discovery type, target, endpoints and Etcd is a proven helper wherever `len` is the builtin |
| RpcCoverage.CertifiedExactly | internal/config/disabled_rpc.go:589-772 | certification is exact on the list of all nodes with what lies above each: no alias is assigned again, and every node that denotes a binding is not written to and sits in a condition found false, or below a branch a condition excludes, with function literals cutting; nodes that denote none do not look like one |
| RpcCoverage.GuardedIsAccepted | internal/config/disabled_rpc.go:490-772 | a function is certified once every use sits in, or below, a condition whose value on blank fields excludes it, whether a guard of the grammar or a call of such a helper |
| RpcCoverage.WrittenExact | internal/config/disabled_rpc.go:1060-1076 | a node is an assignment target just when its nearest assignment has it on the left, or increments it |
| RpcCoverage.ExcludedExact | internal/config/disabled_rpc.go:1036-1058 | a use is guarded just when it lies below a branch that a condition keeps from running, with no function literal between |
| RpcConstruction.BuildKeeps | internal/config/disabled_rpc.go:557-583 | a literal that fills no binding by name or position, missing fields at their zero values, builds a struct in which every configuration is blank; under a target-only profile, one that builds no configuration keeps the profile |
| RpcConstruction.SharedElsewhere | internal/config/rpc_target.go:60-105 | code that leaves target-only configurations alone takes no address of a variable that a configuration is entrusted to |
| RpcSafety.AcceptedFrame | internal/config/disabled_rpc.go:589-602 | acceptance and Go's declaration rules give final tables that are typed, justified and stable, with no alias ever reassigned |
| RpcSafety.InspectedClean | internal/config/disabled_rpc.go:717-772 | an accepted expression in a place that can run contains no node that denotes the binding or hides behind a binding's field name |
| RpcSafety.SafeCondition | internal/config/disabled_rpc.go:1023-1034 | a condition is decided and evaluates to its verdict, or does not mention the binding; either way the binding stays unused |
| RpcSafety.SafeInvoke | internal/config/disabled_rpc.go:783-803 | a call of a function of the package, even one that passes the configuration, leaves the caller's frame sound and the binding unused |
| RpcSafety.CertifiedNeverUses | internal/config/disabled_rpc.go:490-772 | disable certification is sound when no literal fills a binding, by name or by position: no execution of any function of a certified package, with any arguments, opaque results and interleaved function literals, uses, hands on or writes a binding that is blank in every configuration it is given |
| RpcLiterals.LiteralEscapesCertification | internal/config/disabled_rpc.go:557-583 | a concrete certified package, given only a blank configuration, that uses the binding because a declared literal fills it, once by name and once by position |
| RpcTarget.StmtExact | internal/config/rpc_target.go:60-105 | the inspection accepts just when every dependent if around every call site that passes a binding is proven to lead to the call; call sites are defined independently |
| RpcTarget.ReportExact | internal/config/rpc_target.go:60-105 | a report is about the first call site that does not pass, its first argument with a blocking if, and the innermost such if; it is repairable if and only if that if of the function has neither init statement nor else and compares the binding's own DiscovType with `""` |
| RpcCoverage.TargetExactly | internal/config/rpc_target.go:60-105 | when the ifs around constructions that concern the binding are guards of the grammar, a function is accepted if and only if every such guard has the value that leads to the construction while only the target is set |
| RpcCoverage.TargetDecides | internal/config/rpc_target.go:50-79 | guards of the grammar over the fields of the binding and over helpers called on it have their value on a target-only configuration as verdict |
| RpcTarget.TargetLookupSound | internal/config/rpc_target.go:50-58 | the target-only field values, and helper results, hold in every state where the binding is target-only |
| RpcTarget.HelperOnSound | internal/config/rpc_target.go:73-77 | a helper called on the binding returns its target verdict in every target-only state |
| RpcTarget.AcceptedTakesBranch | internal/config/rpc_target.go:60-105 | when the inspection accepts, every binding-dependent if around a client construction takes the branch that contains it, in every single state that respects the tables with a target-only configuration; what holds over runs is `RpcTargetRuns.GuardsLeadOn` |
| RpcTargetRuns.KeepsInvoke | internal/config/rpc_target.go:60-105 | in a package that leaves its bindings alone, and takes no address of them, every call, with any fuel, oracle, interleaved function literals and writes through pointers, leaves all configurations agreeing with the profile and every decision so far leading on |
| RpcTargetRuns.GuardsLeadOn | internal/config/rpc_target.go:60-105 | over whole runs from target-only configurations of such a package: in every accepted function, every dependent if the run reaches around a client construction goes the way that leads to it |
| RpcTargetWrites.AcceptedLeadsAstray | internal/config/rpc_target.go:18-48 | two concrete accepted functions that empty the target first, by name or through a pointer, so that the guard skips the construction on a target-only configuration; each meets all of the condition but one part |
| RpcRepair.RepairTargetGuards | internal/config/update_rpc_target.go:38-50 | the inspect-and-repair loop terminates; every repair is one the inspection asked for, and what is left is accepted, or blocked first by an if that is no bare discovery guard of the binding; no more repairs are made than there are bare discovery guards |
| RpcRepairEnds.RepairedExactly | internal/config/update_rpc_target.go:38-50 | the loop ends with an accepted package if and only if every if that blocked a construction at first was a bare `x.DiscovType != ""` on the binding that is passed on |
| RpcRepairEnds.FineKept | internal/config/update_rpc_target.go:56-66 | a repair decides for no if whether it passes or is such a guard: the extended one passes for every binding, and all others keep their verdicts |
| RpcRepairEnds.TablesKept | internal/config/disabled_rpc.go:507-588 | the tables of a repaired function are the same, but for the text of the statements that define aliases |
| RpcRepairEnds.SitesKept | internal/config/rpc_target.go:60-105 | the call sites of a repaired function are the same, with the ifs around them as the repair leaves them |
| RpcRepairEnds.DiscoveryOnlyRepaired | internal/config/rpc_target_test.go:16-16 | the discovery-only guard is reported as repairable, and the repaired function is accepted |
| RpcRepair.StmtLocated | internal/config/rpc_target.go:82-96 | a repairable report always names a bare discovery guard that exists, of a receiver without calls |
| RpcRepair.FewerGuards | internal/config/update_rpc_target.go:56-66 | a repair strictly decreases the number of bare discovery guards, nested function literals included |
| RpcRepair.RepairProgress | internal/config/update_rpc_target.go:38-50 | over a whole package no repair adds a guard and a repair of an inspected function removes one |
| RpcRepair.RepairPreserves | internal/config/update_rpc_target.go:64-66 | taking the extensions back gives the original program: nothing else was rewritten |
| RpcRepair.ExtendedVerdicts | internal/config/update_rpc_target.go:64-64 | the repaired guard is proven true on target-only configurations, where the old one was proven false, and stays proven false on blank ones |
| RpcRepair.RepairedGuardDiffers | internal/config/update_rpc_target.go:64-64 | at run time old and new guard differ if and only if DiscovType is empty and Target is not, and then the new one holds; evaluation has no further effect |
| RpcRepairRuns.GuardFollows | internal/config/update_rpc_target.go:64-64 | where the receiver is a client configuration with a target only where it has discovery, the extended guard evaluates in the repaired package as the old one in the original |
| RpcRepairRuns.InvokeFollows | internal/config/update_rpc_target.go:38-66 | step by step, with the same oracle and two units of fuel more, a call in the repaired package does what the call in the original does, as long as the extended guards are asked about such receivers |
| RpcRepairRuns.RepairedRunsAlike | internal/config/update_rpc_target.go:38-66 | over whole runs and any number of repairs: a finished run whose extended guards find a target only where they find discovery is a run of the repaired package too, with the same result, the same bindings used, and every if decided the same way on the same variables |
| LeaseProtocol.StepTrans | internal/runtime/connection.go:1644-1682 | the guarantee of a step composes with that of the next one under the same lock |
| LeaseProtocol.LeaseMove | internal/runtime/connection.go:1366-1399 | writing back the leases others rely on, with the caller's own possibly renewed, keeps the invariant and the guarantee |
| LeaseProtocol.RecordMove | internal/runtime/connection.go:289-306 | recording a connection started in this step keeps the invariant, at most one tunnel included |
| LeaseProtocol.StartMove | internal/runtime/connection.go:630-696 | a process started as leader of a new group shares its group with no running connection |
| LeaseProtocol.SignalMove | internal/runtime/connection.go:1086-1101 | a signal is safe when nobody but the caller holds an effective lease of the record |
| LeaseProtocol.RemoveMove | internal/runtime/connection.go:1401-1414 | removing a record whose group is gone loses nothing: no orphan, no lease of a living group |
| LeaseProtocol.HandedOutStays | internal/runtime/connection.go:1206-1266 | a handed-out process stays releasable across any step of any workspace |
| ConnectionRegistry.VerifiedAlone | internal/runtime/connection.go:986-1019 | a verified leader shares its process group with no other record's connection |
| ConnectionRegistry.LeftSaves | internal/runtime/connection.go:1240-1248 | the leases that remain when the caller leaves contain every lease others rely on, and when none remains nobody does |
| ConnectionRegistry.Registry.PruneLeases | internal/runtime/connection.go:1416-1458 | the loop keeps exactly the leases younger than five minutes or whose workspace is locked by someone else, irregular or serving the connection, and reports a change just when one was dropped |
| ConnectionRegistry.Registry.RecordState | internal/runtime/connection.go:1268-1284 | current means the recorded leader itself runs; neither current nor unverified means its whole group is gone |
| ConnectionRegistry.Registry.TidyRecord | internal/runtime/connection.go:1507-1537 | one record is pruned, refused when unverified, removed when gone or unleased, and kept otherwise; without a failed call it is kept just when its leader runs and leases remain, and refused only while its group is alive without a leader known to run |
| ConnectionRegistry.Registry.ActiveRecords | internal/runtime/connection.go:1485-1540 | the sweep lists exactly the remaining records of the driver, each current and leased; without a failed call it breaks off only at a record whose group is alive without a leader known to run |
| ConnectionRegistry.Registry.ForceStopGroup | internal/runtime/connection.go:1021-1050 | at most three signals, each to a connection nobody else holds; success means the process and its group are gone |
| ConnectionRegistry.Registry.StopConnection | internal/runtime/connection.go:986-1019 | unless forced only a verified leader is signalled; success on an owned connection means its group is gone, and without a failed call only an unforced stop of a group without such a leader fails |
| ConnectionRegistry.Registry.SaveLeases | internal/runtime/connection.go:1366-1399 | the write happens completely or not at all and keeps the guarantee to others |
| ConnectionRegistry.Registry.RemoveRecord | internal/runtime/connection.go:1401-1414 | only the one record goes, and only when its group is gone |
| ConnectionRegistry.Registry.StartProcess | internal/runtime/connection.go:630-696 | the new leader was never started before and no record changes |
| ConnectionRegistry.Registry.EnsureAttempts | internal/runtime/connection.go:261-338 | either a new connection is recorded with the caller's lease alone, or no record changes and a leftover process is reported to the caller |
| ConnectionRegistry.Registry.ShareRecord | internal/runtime/connection.go:163-176 | sharing adds the caller's lease with the time of the step to that record only, and hands out its connection as not owned |
| ConnectionRegistry.Registry.StartFresh | internal/runtime/connection.go:185-259 | a tunnel is started only after the sweep found no other, so at most one is ever recorded |
| ConnectionRegistry.Registry.EnsureConnection | internal/runtime/connection.go:78-259 | the whole outcome for records, leases and what is handed out; an invalid request changes nothing, and when no outside call fails a valid one is refused only for an unverified record, endpoints that do not answer, or another active tunnel, a current leased record with answering endpoints is shared, and otherwise answering endpoints are external and a new connection is started |
| ConnectionRegistry.Registry.ReleaseConnection | internal/runtime/connection.go:1206-1266 | leases others rely on stop the release, success means the connection is gone or still leased by others, and without a failed call only an unforced release of what cannot be verified fails |
| ConnectionRegistry.Registry.ReleaseRecord | internal/runtime/connection.go:1240-1265 | the recorded case of a release: the last workspace out stops the connection and drops the record, or keeps an unleased record when it could not |
| ConnectionRegistry.Registry.RecoverRecord | internal/runtime/connection.go:1610-1638 | one record after forced recovery: only what others hold is left, whoever is signalled was unleased, and without a failed call it succeeds |
| ConnectionRegistry.Registry.RecoverUnleased | internal/runtime/connection.go:1589-1642 | when complete, exactly what others hold is left, and the number of recovered connections is right; without a failed call it is complete |
| ConnectionRegistry.Registry.RenewRetained | internal/runtime/connection.go:1144-1192 | only the caller's lease of the named process gets a new time; without a failed call the outcome is determined: a retained tunnel that runs, is leased and answers is renewed, and the refusals are those of an unpinned target, a missing or different record, an unverified leader and a missing lease |
| LeaseRuns.LeaseSurvives | internal/runtime/connection.go:1206-1266 | no lost lease against others, from the guarantee alone: while only other workspaces act, a lease that stays effective stays in its record with its very time unless the whole process group went away |
| LeaseRuns.OwnTurn | internal/runtime/connection.go:78-259 | the owner's own ensure, renewal, wait or release of something else leaves its effective lease in the record, at its time or the time of the turn, unless the group is gone |
| LeaseRuns.LeaseLasts | internal/runtime/connection.go:1206-1266 | no lost lease, over whole served runs and whoever acts: until its owner releases this connection or recovers, an effective lease stays in the record of its process unless the whole group went away, and only its owner's turns give it a new time |
| LeaseRuns.HeldIsSpared | internal/runtime/connection.go:1485-1540 | lease safety, over whole runs: while another workspace holds an effective lease, no ensure, list, release or recovery signals that connection unless its group is gone |
| LeaseRuns.ManagedStaysRecorded | internal/runtime/connection.go:109-190 | no orphan: a connection handed out as managed is on record for as long as its leader lives |
| LeaseRuns.HandedOutForever | internal/runtime/connection.go:1206-1223 | whatever an ensure step handed out may be released at any later time |
| LeaseRuns.ForcedRecoveryHitsBystander | internal/runtime/connection.go:1589-1642 | a concrete run in which forced recovery of a stale record signals a group where another workspace's leased connection runs |
| LeaseRuns.Serve | internal/runtime/connection.go:1644-1682 | any sequence of requests of any workspaces, with arbitrary surroundings, is a run in which each step meets the contract of its operation; in every state at most one record is a ktctl tunnel, and every signal that reached another record's connection was forced and its leader unverified |
| LeaseRuns.ServedGently | internal/runtime/connection.go:1003-1019 | ensuring, renewing, waiting and unforced releases send no forced signal |
| LeaseRuns.BystandersHit | internal/runtime/connection.go:1589-1642 | in every served run a signal reaches another record's connection only in a forced release, or in the recovery of a record that had no lease that counts, whose leader no longer ran at the start and whose group those connections ran in then |
| YamlNodes.TrappedDenotesNothing | internal/materialize/binding_fallback.go:44-57 | a node from which a cycle or an alias to nothing can be reached stands for no value at all |
| YamlNodes.DenotesUnique | internal/materialize/binding_fallback.go:44-57 | a node stands for at most one value |
| YamlClone.CloneBindingNode | internal/materialize/binding_fallback.go:44-57 | the recursion with its visiting set ends on every graph; success gives a fresh alias-free tree of the same value, a refusal names the walk that returns to itself |
| YamlClone.ExpandNode | internal/materialize/binding_fallback.go:44-57 | expansion succeeds if and only if no cycle and no alias to nothing is reachable, if and only if the node has a value, and the copy holds exactly that value |
| YamlClone.HoldsDenotes | internal/materialize/binding_fallback.go:44-57 | an alias-free tree stands for itself, so its copy is the identity up to anchors |
| YamlKeys.ValidateUniqueKeys | internal/materialize/yaml.go:418-464 | visiting every node once, the walk either finds everything reachable in order or names a walk to a bad mapping |
| YamlKeys.ExploredWalk | internal/materialize/yaml.go:418-464 | although nodes are visited once, every walk from the root meets only well-formed mappings after acceptance |
| YamlKeys.CheckDocument | internal/materialize/yaml.go:418-464 | the check ends on any graph and accepts if and only if every reachable mapping has scalar keys with pairwise distinct identifiers |
| YamlPaths.ReadBack | internal/materialize/yaml.go:285-307 | what a patch or guard wrote at a path is read back there |
| YamlPaths.ReadElsewhere | internal/materialize/yaml.go:285-307 | every path that is not a prefix or extension of the written one reads as before |
| YamlPaths.WriteSucceeds | internal/materialize/yaml.go:118-169 | exactly when a write goes through: no non-mapping on the way, and for a guard a scalar, or nothing where it may create |
| YamlPaths.WriteKeepsKeysUnique | internal/materialize/yaml.go:418-464 | no write introduces a duplicate typed key |
| YamlPaths.WriteKeepsGuarded | internal/materialize/yaml.go:227-283 | a guarded document stays one if and only if the write creates no merge key and no key with the text of an existing one |
| YamlPaths.WriteKeepsClashes | internal/materialize/yaml.go:227-283 | a write that does not clash leaves it open, both ways, which writes at the same or incomparable paths would |
| YamlPaths.KeysFineExact | internal/materialize/yaml.go:227-283 | a document keeps to the rules for its keys just when no mapping in it has a key that is no scalar or two of one identifier and, if it is guarded, none that is neither string nor integer, a merge key, or two that read alike |
| YamlPatch.MappingPosition | internal/materialize/yaml.go:344-352 | the loop finds the first string key, or none |
| YamlPatch.ApplyYaml | internal/materialize/yaml.go:27-85 | the in-place update through a descending pointer fails, leaving the document alone, exactly when the write does, and otherwise the same root holds the written tree |
| YamlGuard.DereferenceAlias | internal/materialize/yaml.go:320-327 | the loop returns what a parsed alias stands for |
| YamlGuard.SeenExactly | internal/materialize/yaml.go:106-169 | with aliases present, a write is seen at exactly the paths that end in the same key of the same mapping |
| YamlGuard.ApplyYamlGuard | internal/materialize/yaml.go:106-169 | the guard passes just when its way exists or may be created and ends at a scalar or at nothing; its value is seen at exactly the paths that then end in the same key of the same mapping, created mappings included, and nothing else readable changes |
| YamlLayers.EditDocument | internal/materialize/yaml.go:27-85 | building the nodes, editing them in place and reading them back is the write on trees |
| YamlLayers.PatchAll | internal/materialize/materialize.go:180-200 | the patch loop is the left fold of the patches, optional ones skipped when their target is missing |
| YamlLayers.GuardAll | internal/materialize/materialize.go:201-212 | the guard loop is the left fold of the guards |
| YamlLayers.PatchExact | internal/materialize/materialize.go:180-200 | an optional patch whose target is missing does nothing; every other one is written to a file with unambiguous keys, or refused, exactly as stated |
| YamlLayers.PresentExact | internal/materialize/materialize.go:168-179 | a guard that may not create is let through just when its place holds a scalar in a guarded document before anything is written |
| YamlLayers.VerifiedMeans | internal/materialize/materialize.go:362-385 | a guard is verified just when its place holds a scalar of the guarded typed value in a guarded document |
| YamlLayers.ConflictNotVerified | internal/materialize/materialize.go:362-385 | guards that ask for different values of one place are never both verified |
| YamlLayers.Materialize | internal/materialize/materialize.go:168-226 | the application is published if and only if every stage succeeds, and is then the patches and guards applied in order; no mapping of a published file has ambiguous keys, and no two guards ask for different values of one place |
| YamlLayers.LaterPatchWins | internal/materialize/materialize.go:180-200 | a patch that no later patch overlaps is what the file says in the end |
| YamlLayers.PatchesElsewhere | internal/materialize/materialize.go:180-200 | a path no patch overlaps reads as it did before all of them |
| YamlLayers.GuardsHold | internal/materialize/materialize.go:201-212 | pairwise agreeing guards all read back their values in the end, whatever the patches wrote |
| YamlLayers.VerificationExact | internal/materialize/materialize.go:362-385 | the final verification then succeeds if and only if every guarded file can still be read |
| YamlLayers.GuardLeavesReadable | internal/materialize/yaml.go:227-283 | a guard leaves its file readable if and only if what it creates does not clash with a key that is there |
| YamlLayers.GuardsClash | internal/materialize/materialize.go:201-212 | which guards clash can be told from the file as it was before all of them, and decides whether it can be read after them |
| YamlLayers.VerificationFailsOnClash | internal/materialize/materialize.go:362-385 | the exact failure, on the files as they were: some guard has to create a key that reads like one that is there, or a merge key |
| YamlLayers.SameTextFails | internal/materialize/yaml.go:227-283 | a concrete document, keyed by the integer 8080, whose only guard cannot be verified |
| ConfigPlan.PlanPatches | internal/runtime/config_plan.go:170-230 | the loops collect policy, server, service, routing and disabled-binding patches in exactly this order, over the sorted dependencies; the routes are one per bound dependency, local when it is resolved so, with the mode of the local or the remote rule |
| ConfigPlan.LaterLayerWins | internal/runtime/config_plan.go:170-230 | an unconditional patch is what the file says in the end unless a later patch of its layer or of a later layer overlaps it |
| ConfigPlan.DisabledHaveLastWord | internal/runtime/contract_go_zero.go:58-71 | whatever the earlier layers wrote, the discovery type of every disabled binding is empty or missing afterwards, and nothing appears that was not there |
| ConfigPlan.PlannedDisabled | internal/runtime/config_plan.go:226-230 | the same for the whole planned configuration |
| ConfigPlan.PlannedRoute | internal/runtime/config_plan.go:186-225 | at a bound dependency that nothing later overlaps, the planned configuration reads what the local rule gives when it is resolved local and that rule rewrites, and what the remote rule gives when it is not and that rule rewrites |
| ConfigPlan.PlannedElsewhere | internal/runtime/config_plan.go:170-230 | everywhere else, and where the rule preserves, it reads what the patches of policy, servers and service left |
| ConfigPlan.PlannedServicePatch | internal/runtime/config_plan.go:170-185 | a patch of the service wins over those of the servers and the policy |
| ConfigPlan.PlannedServerPatch | internal/runtime/config_plan.go:170-185 | a patch of a server kind wins over those of earlier kinds and of the policy |
| ConfigPlan.PlannedPolicyPatch | internal/runtime/config_plan.go:170-185 | a patch of the policy stands where nothing later overlaps it |
| ConfigPlan.EmptyingKeeps | internal/runtime/contract_go_zero.go:58-71 | emptying one place keeps every emptied place emptied, also when their paths overlap |
| ConfigPlan.PlanFallbacks | internal/runtime/config_plan.go:269-289 | the fallbacks are exactly the declared bindings that are asked for and neither disabled nor steered by a route, each once, in the order of declaration |
| ConfigPlan.BorrowedInOrder | internal/runtime/config_plan.go:279-288 | the fallbacks keep the order of the declarations |
| ConfigPlan.AskedBindings | internal/runtime/config_plan.go:270-274 | the insertions and deletions over unordered maps come to the same set in any order |
| ConfigPlan.OverriddenNotBorrowed | internal/runtime/config_plan.go:269-289 | planning and merging together never take a disabled or steered binding from the repository |
| BindingFallbacks.MergeBindingFallbacks | internal/materialize/binding_fallback.go:59-94 | the loop that extends the root mapping computes the specified merge and the origin of every binding |
| BindingFallbacks.MergeConservative | internal/materialize/binding_fallback.go:59-94 | every remote entry keeps its place and value; an absent key is present afterwards, with the repository's value, if and only if it was requested and active there |
| BindingFallbacks.MergeSucceeds | internal/materialize/binding_fallback.go:59-94 | merging succeeds if and only if every request names a binding and finds it valid, in the remote document or else in the repository |
| BindingFallbacks.CompleteRouteAdded | internal/materialize/binding_fallback.go:59-94 | a requested binding that is absent, and whose first route is complete in the repository, comes in with the value it has there |
| BindingFallbacks.MergeAppends | internal/materialize/binding_fallback.go:80-94 | nothing but the reported entries is appended, in their order, and nothing before them moves |
| BindingFallbacks.OriginsExact | internal/materialize/binding_fallback.go:66-90 | the report names as taken from the repository exactly the absent bindings requested while active, each once, and as preserved those requested while present |
| BindingFallbacks.MergeChecks | internal/materialize/binding_fallback.go:73-89 | every requested binding present in the end was checked and found valid, and every absent one was inactive or not offered |
| BindingFallbacks.MergeIdempotent | internal/materialize/binding_fallback.go:59-94 | merging again, with all or a prefix of the requests, adds nothing |
| BindingFallbacks.MergeKeepsDocument | internal/materialize/binding_fallback.go:59-94 | keys stay unique, also for a binding requested twice: the result is a readable document if and only if no requested, active and absent binding is a merge key or reads like a key the remote document came with |
| RpcRoutes.ConsulDecides | internal/rpcconfig/validate.go:45-50 | in a well-typed mapping with Consul discovery the Consul settings decide, whatever else is there: active when host, port and key are usable, an error otherwise |
| RpcRoutes.EndpointsDecide | internal/rpcconfig/validate.go:52-76 | otherwise the direct endpoints decide, if there are any: active when all are addresses; while their spelling is unknown there must be none |
| RpcRoutes.TargetDecides | internal/rpcconfig/validate.go:78-87 | then the target decides, whatever Etcd says |
| RpcRoutes.EtcdDecides | internal/rpcconfig/validate.go:88-94 | then Etcd decides, once it has hosts or a key |
| RpcRoutes.NothingConfigured | internal/rpcconfig/validate.go:95-113 | with none of them the client is inactive, unless the other endpoint spelling or Etcd discovery was meant |
| RpcRoutes.UnknownDiscovery | internal/rpcconfig/validate.go:38-44 | no other discovery type is accepted |
| RpcRoutes.OnlyWellTyped | internal/rpcconfig/validate.go:31-41 | a mapping that is not well typed is refused |
| RpcRoutes.AbsentInactive | internal/rpcconfig/validate.go:28-30 | what is absent or null is inactive |
| RpcRoutes.DisabledIsInactiveExactly | internal/runtime/disabled_bindings.go:126-166 | a configuration accepted as disabled and free of errors is active exactly when an endpoint list or an Etcd mapping has content under an explicit null tag |
| RpcRoutes.DisabledYetActive | internal/rpcconfig/validate.go:27-114 | a concrete configuration that is accepted as disabled and judged active |
| ExternalDependencies.CheckKeys | internal/runtime/external_dependencies.go:139-158 | the key check is exact: scalar string or integer keys, no merge key, no identifier and no text twice |
| ExternalDependencies.LookUp | internal/runtime/external_dependencies.go:234-249 | the lookup returns the value of the first string key, one alias followed |
| ExternalDependencies.CyclesHaveNoList | internal/runtime/external_dependencies.go:122-133 | a node the walk can return to has no finite list at any depth |
| ExternalDependencies.UnfoldedUnique | internal/runtime/external_dependencies.go:122-213 | the unfolded list does not depend on the depth used to compute it |
| ExternalDependencies.Walk | internal/runtime/external_dependencies.go:122-213 | with its stack the walk ends on every graph; it succeeds just when the unfolded list exists and then appends exactly that list, one entry per alias path |
| ExternalDependencies.Inspect | internal/runtime/external_dependencies.go:50-82 | the inspection succeeds if and only if some depth gives a list, and finds that list in preorder |
| ExternalPlaces.ListExact | internal/runtime/external_dependencies.go:122-213 | the report lists exactly the dependencies that the places of the document declare, a place being a node with a path that leads to it: a mapping with `discovType: consul` and a Consul mapping with host, port and key, where one may be |
| ExternalPlaces.WhyNone | internal/runtime/external_dependencies.go:122-232 | without a list, some route leads to a node of an unsupported kind or tag, to unusable or repeated keys, to a client that declares nothing, or back to a node on it |
| ExternalPlaces.NoneAt | internal/runtime/external_dependencies.go:122-232 | and any such route leaves the document without a list |
| ExternalPlaces.UnderIs | internal/runtime/external_dependencies.go:234-249 | the value of a key is that of the first entry with it, one alias followed |
| PropertyFiles.ReadProperty | internal/materialize/properties.go:70-93 | the reading loop over the lines of a text rejects malformed lines and duplicates exactly as specified |
| PropertyFiles.WriteProperty | internal/materialize/properties.go:95-132 | the writing loop replaces the one entry or appends it exactly as specified, and joins the lines to the new text |
| PropertyFiles.ParseDecides | internal/materialize/properties.go:134-163 | a line is a comment, or read up to its first unescaped separator: an empty key is an error, anything else an entry, both sides trimmed |
| PropertyFiles.UnseparatedDecides | internal/materialize/properties.go:134-163 | a line without a separator is blank, a comment or an error |
| PropertyFiles.ReadExact | internal/materialize/properties.go:70-93 | reading fails exactly for a bad line or a repeated key, finds nothing exactly where no line has the key, and otherwise the value of the one line that has it |
| PropertyFiles.EscapeRoundTrip | internal/materialize/properties.go:182-200 | unescaping undoes escaping |
| PropertyFiles.EscapeInjective | internal/materialize/properties.go:182-200 | different values are never escaped alike |
| PropertyFiles.SplitThenJoin | internal/materialize/properties.go:75-129 | the lines of a text are unbroken and joining them gives the text back |
| PropertyFiles.JoinThenSplit | internal/materialize/properties.go:75-129 | unbroken lines are what their text is split into |
| PropertyFiles.WrittenLineParses | internal/materialize/properties.go:134-163 | a written line parses back to its key if and only if the key has no outer white space to trim, no comment sign in front and no bare separator |
| PropertyFiles.WrittenLineHasKey | internal/materialize/properties.go:134-163 | on a line of its own a key is found again for exactly these keys, of all strings |
| PropertyFiles.WriteThenRead | internal/materialize/properties.go:70-132 | a text to which a clean key was written reads back the escaped value, trimmed |
| PropertyFiles.VerifiedExactly | internal/materialize/properties.go:52-68 | a guard written to a text verifies if and only if its key is clean, line breaks excluded, and its value has no outer white space that escaping leaves; for every key and value |
| PropertyFiles.GuardsVerifiedExactly | internal/materialize/properties.go:52-68 | the same after any number of guards under clean keys that ask for one value per key |
| PropertyFiles.BlankCannotBeVerified | internal/materialize/properties.go:52-68 | a concrete guard that is written and cannot be verified |
| PropertyFiles.LineBreakSpoilsFile | internal/materialize/properties.go:95-132 | a concrete key with a line break, written to an empty file, after which no key at all can be read |
| PropertyFiles.OtherKeysUnchanged | internal/materialize/properties.go:70-132 | after writing a clean key the reading of every other key, errors included, is unchanged |
| DependencySync.SynchronizeApplicationDependencies | internal/config/update_dependencies.go:17-145 | the loops over unordered maps compute one determined result, or one determined refusal, and every service not reported as changed is the same |
| DependencySync.BoundIsActive | internal/config/update_dependencies.go:83-118 | every bound dependency of a synchronized service names an active binding |
| DependencySync.BindingsExact | internal/config/update_dependencies.go:63-82 | the bindings of a synchronized service are exactly the mappings of its application that it knows or that are named like RPC clients |
| DependencySync.DependenciesExact | internal/config/update_dependencies.go:83-118 | what is not stale stays as it was, everything else is new, bound to the only provider of an active binding that nothing retained holds, and every such named binding with a provider is bound to it |
| DependencySync.RoutesExact | internal/config/update_dependencies.go:119-138 | the routes of a synchronized service exactly: a stale alias loses its route, every other one keeps it, outside `local` every bound alias without one gets mode `remote`, and there are no others |
| DependencySync.OtherRoutesStay | internal/config/update_dependencies.go:119-138 | the routes of the other owners are left alone |
| DependencySync.RefusedFor | internal/config/update_dependencies.go:63-118 | a readable application is refused for a binding that is no mapping, a binding with several providers or one without an RPC port, and otherwise only when a name is taken already |
| DependencySync.SecondLook | internal/config/update_dependencies.go:63-118 | a second look at a synchronized service finds the same bindings active, drops nothing and keeps everything |
| DependencySync.SecondRunSettles | internal/config/update_dependencies.go:17-145 | a synchronized service is a fixed point if and only if it has no provided binding with the empty name |
| DependencySync.SecondRunIsIdle | internal/config/update_dependencies.go:17-145 | a second run over all scans changes no service and no route if and only if no scan has such a binding |
| DependencySync.NamelessExample | internal/config/update_dependencies.go:95-118 | a concrete manifest that a second run changes again |
| CommandSuggestions.CommandEditDistance | internal/cli/cli.go:1040-1075 | the table yields the recursive optimal-string-alignment distance |
| CommandSuggestions.DistanceIsMinimal | internal/cli/cli.go:1040-1075 | the distance is the least cost of all edit scripts, and is attained |
| CommandSuggestions.DistanceSymmetric | internal/cli/cli.go:1040-1075 | the distance is symmetric |
| CommandSuggestions.ZeroJustForEqual | internal/cli/cli.go:1040-1075 | the distance is zero if and only if the strings are equal |
| CommandSuggestions.AtDistanceExact | internal/cli/cli.go:1018-1038 | the selection at a distance holds exactly the candidates at that distance |
| CommandSuggestions.SimilarCommands | internal/cli/cli.go:1018-1038 | the suggestions are exactly the candidates at the least distance, in order, when that is within one edit for what is shorter than five characters and two for everything else |
| CommentStripping.StripCStyleComments | internal/config/analyzer_java.go:419-478 | the in-place lexer computes the specified text, character for character |
| CommentStripping.StripsPieces | internal/config/analyzer_java.go:419-478 | a text put together from code, quoted literals and comments is stripped to the same text with every comment blanked and every literal kept |
| CommentStripping.EveryTextParses | internal/config/analyzer_java.go:419-478 | every text is put together that way |
| CommentStripping.QuotedStays | internal/config/analyzer_java.go:419-478 | what stands between an opening quote in code and the next unescaped one of its kind stays, comment openers included |
| CommentStripping.NewlinesStay | internal/config/analyzer_java.go:419-478 | every newline stays where it is and every other character is kept or blanked |
| CommentStripping.StripIdempotent | internal/config/analyzer_java.go:419-478 | stripping twice is stripping once, from any lexer state |
| CommentStripping.NothingOpens | internal/config/analyzer_java.go:419-478 | in the result no comment opens in code |
| CommentStripping.CleanTextStays | internal/config/analyzer_java.go:419-478 | text in which no comment opens is untouched |
| ProcessTree.DescendantDepths | internal/runtime/connection.go:794-811 | the fixpoint loop ends; the depths are those of exactly the processes that descend from the root |
| ProcessTree.DepthsExact | internal/runtime/connection.go:794-811 | the domain is exactly the reachable pids, each depth a length of its chain and below the size of the map |
| ProcessTree.ChildIsDeeper | internal/runtime/connection.go:794-811 | with unique pids a child is exactly one deeper than its parent |
| ProcessTree.KillElevatedDescendants | internal/runtime/connection.go:813-831 | a failure-free pass kills every descendant exactly once and before its parent, and never the root |

## Left out

Certification and repair:

- RpcSafety.CertifiedNeverUses: excludes packages in which some literal fills a binding, harmless ones too.
- RpcCertifier.InspectFunction: leaves out the checks on whole configurations and their carriers (internal/config/disabled_rpc.go:619-711) and the refusal of `FieldByName`, which only refuse more.
- RpcTargetRuns.GuardsLeadOn: its condition on the package is sufficient; harmless writes to a binding, and harmless addresses in a configuration, are excluded too.
- RpcRepairRuns.RepairedRunsAlike: about runs that finish; a run the model stops is not followed further.
- The certification and target theorems take what opaque code returns to agree with the profile, as the arguments do, `new`, missing map entries and failed type assertions included, and to be no pointer into a configuration the package holds. The certification theorem takes what is written through pointers to agree too; there the source refuses the addresses of configurations (internal/config/disabled_rpc.go:645-657). Reads through a pointer see its copy. A run stops at the zero value of a configuration nested more than one struct deep, and `var` without a value is not part of the mini-Go.
- Certification judges one package: calls into other packages of the module, methods, multiple assignment, `switch`, `select`, channels and package-level variables that hold configurations are not part of the mini-Go.
- Function literals run only while their frame does; goroutines that outlive it are not modelled.
- The two messages for an escaping and for an unguarded use are one failure, and the report does not tell guarded bindings from unused ones.
- RpcRepairEnds.RepairedExactly: takes functions to go by their names and packages to be typed.
- RpcRepair.RepairTargetGuards: rewrites syntax trees, one binding at a time; splicing the source text, re-parsing it, file replacement and the loops over services and bindings are not modelled.

Shared connections:

- The clock, the workspace locks, the sessions and the endpoints that answer are fixed during one step and arbitrary between steps; loading, saving and removing a record, probing a process and delivering a signal may fail at any time.
- Clean-up of a launch that failed before it had a process, Kubernetes recovery, the replacement check (1103-1142), retry messages, status printing and the mechanics of the lock file.
- ConnectionRegistry.Registry.StartProcess: takes the process group from the operating system as positive and new, which is what starting a group leader gives.

Configuration:

- YAML encoding and decoding is the identity; styles, comments, line numbers and the document wrapper node are not modelled. How scalars decode is a parameter, constrained only in that strings decode to themselves and identifiers tell types apart.
- YamlPaths.WriteKeepsGuarded: states the rules of guarded documents for alias-free trees; the check of those rules on shared graphs (227-283) is not modelled.
- YamlGuard.ApplyYamlGuard: when a guard fails after creating mappings nothing is stated about the nodes, which are then discarded.
- YamlLayers.Materialize: works on parsed files; staging directories, secure paths, permissions, publication and the environment driver are not modelled, and the remote source is taken as given.
- ConfigPlan.PlanPatches: template expansion, the file defaults, server isolation guards and the fields that describe the plan are not modelled; splitting a dotted path is a parameter.
- ConfigPlan.PlanFallbacks: carries the binding names only, not the endpoint key found in the source.
- Address syntax, white space, number and duration decoding in the route decision are parameters.
- ExternalPlaces.ListExact: takes trimming to leave the empty text empty.
- ExternalDependencies.Inspect: does not model the final sort of the list, nor reaching the services found.
- DependencySync.SynchronizeApplicationDependencies: nil and empty slices and maps are the same, the notes are not modelled, and an error leaves no partial manifest; the second-run theorems take service names as non-empty (internal/config/load.go:195) and one scan per service.

Algorithms:

- CommandSuggestions.SimilarCommands: lower-casing is a parameter.
- CommentStripping.StripCStyleComments: characters stand for bytes; quoted-literal stripping and brace matching are not modelled.
- ProcessTree.KillElevatedDescendants: assumes that a process table lists every pid once, as `ps` does; reading that table and `sudo` are not modelled.

Not modelled at all, because they would only add easy members: the remaining command line, manifest
validation and migration, port assignment, log scraping, the regex-based analyzers and repository scanning.
