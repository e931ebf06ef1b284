# ios-tidy, verified

A Dafny model of the parts of `ios-tidy` where loops, shared state or interleavings stand behind
what the program promises, with proofs of those promises.

| files | what they model |
|---|---|
| `Common`, `Strings`, `Ordering`, `Paths` | 64-bit integers, the string helpers, stable and unstable sorting, container paths |
| `SandboxFs`, `Cleaner`, `CleanerLaws`, `CleanRun`, `StaleClean` | one app's sandbox as a mutable tree, `BuildPlan` and `Execute` over it, cleans of several targets, and cleans whose plans are older than the tree |
| `Flags`, `FlagLaws` | the argument splitter composed with `flag.FlagSet.Parse`, against a permuting reference parser |
| `Probes`, `ProbeStore`, `StoreRace` | the probe cache: the three freshness scans, `Save` and `Load`, and interleaved saves |
| `CleanGate`, `DryRunFlag` | the gates in front of a deletion in both programs, and `--dry-run` anywhere on the command line |
| `RunSafety`, `RunSteps`, `RunExamples` | whole runs of both programs, the methods as steps of those runs, and concrete runs |
| `Dial`, `Fetch` | the cancellable dial and the two-way fetch, as step systems over all interleavings |
| `Apps`, `Recommendations`, `RecommendationLaws` | sorting and limiting apps, the offload candidates, the storage planner |
| `Tables`, `TableLaws`, `Bytes` | table rendering and reading back, and the scaling loop of `FormatBytes` |

How the model is set up:

* Code that changes things step by step is imperative: the sandbox file system, the probe store and
  the table are classes; loops are loops with invariants. Each method is tied to a specification
  function or predicate, and the lemmas are about those.
* A file-system operation may fail at any call, and a failed removal may already have deleted any
  part of what it was given. The calls and the device's answers go into a ghost log that only the
  operations themselves extend, so a method that skips a call or makes up a failure breaks its
  contract; the specification of `Execute` is a function of plan and trace, and the laws hold for
  every trace. The probe store logs the system's operations in the same way.
* Go's `int64` and `uint64` sums are written out (`WrapI64`, `WrapU64`). Exact sums are kept next
  to the wrapped ones. Sizes are non-negative `int64` values.
* `sort.SliceStable` is `StableSort`. `slices.SortFunc` is only known to return a sorted
  permutation. `flag.FlagSet.Parse` follows the "Command line flag syntax" section of the `flag`
  package documentation. Clocks, prompts and device answers are arbitrary inputs.
* In a whole run a clean passes its gates, builds its plans and deletes in three events. Between
  them anything else may happen, other cleans of the same sandbox included; one event's walks or
  removals are not interleaved with another's.

## Where the code and its description part

* `cmd/ios-tidy/storage.go:73` speaks of the first error. The code prefers the device-info error,
  which may be the later one (`Fetch.ReturnsFirstErrorIff`, `Fetch.LaterErrorReturned`).
* `cmd/ios-tidy/flags.go:31-34` says the appended `--` is harmless and nothing is left over. A value
  flag at the end without its value takes it as the value (`FlagLaws.SplitIsFaithfulIff`), and after
  a user's own `--` one `--` is left over.
* `internal/iosbackend/sandbox.go:46-48` says a late client is closed. A client that the dial
  returns together with an error is closed by the drain only; it stays open whenever the select
  received the reply, whether or not the call was cancelled (`Dial.SettledHandle`, `Dial.LeaksIff`).
* `internal/recommendations/recommendations.go:220` calls the scan order-insensitive. It is exactly
  when tied latest entries agree (`Probes.OrderFreeIff`; `Probes.OrderMatters` is a list where it is
  not), and it agrees with the gates' scans exactly while `UnixNano` keeps the probe times in order
  (`Probes.ScannersAgreeIff`, `Probes.ScannersDisagree`).
* Freshness is looked at in the gates only. A clean that waits at its prompt deletes with an older
  probe, or after a refusal was saved (`RunExamples.StaleCleanDeletes`,
  `RunExamples.RefusedCleanDeletes`); `RunSafety.AuthorisedAtDeletionIff` says exactly when it is
  still authorised.
* `cmd/ios-tidy-mcp/tools.go:1718` says both programs see the same cache files. With `--store-dir`
  the CLI consults another cache (`RunExamples.OtherDirectoryDeletes`,
  `RunSafety.SharedCacheDecidesIff`).
* `cmd/ios-tidy/apps.go:393` says within the TTL of now. The age is bounded from above only, so an
  entry from the future passes (`Probes.FutureIsAccepted`).
* `executeRemoveAll` counts correctly exactly when no child that holds planned files is listed and
  removed twice (`CleanerLaws.ExactConservation`, `CleanerLaws.DuplicateListingOverReports`).
* A clean counts the planned files of a removed child as freed. When another clean deleted some of
  them after the planning they are counted again (`StaleClean.StaleOverReports`). Without failed
  removals the count is within the drop exactly when every counted file was still there
  (`StaleClean.StaleClaimIff`); in general exactly when no more is missing than failed removals
  deleted (`StaleClean.ClaimWithinDropIff`).
* A row longer than the header makes `Table.Render` panic (`Tables.Table.Render`).

## Model

| member | source | states |
|---|---|---|
| Paths.IndexByte | internal/sandbox/cleaner.go:157-164 | the index of the first occurrence, or -1 when there is none |
| Paths.TopLevelChildIsContainer | internal/sandbox/cleaner.go:142-155 | a path is bucketed under a listed child exactly when that child is it or contains it |
| Paths.TopLevelChildExists | internal/sandbox/cleaner.go:138-151 | every path below the root has such a child |
| Paths.JoinIsChildIff | internal/iosbackend/sandbox.go:116-120 | joining a directory and a listed name gives an immediate child exactly when the name is neither empty, "." nor ".." |
| Paths.DotDotLeavesTarget | internal/iosbackend/sandbox.go:117-119 | joining ".." gives a path above the target, which covers what is not in it |
| SandboxFs.FS.RawList | internal/iosbackend/sandbox.go:111-115 | every entry's name, and possibly "." and ".."; or an error |
| SandboxFs.FS.List | internal/iosbackend/sandbox.go:105-131 | whatever names the device gives, dots included: distinct immediate children that exist, and every child whose Stat succeeded; or an error |
| SandboxFs.FS.Walk | internal/iosbackend/sandbox.go:148-158 | a walk without error visits every node at or below the root exactly once |
| SandboxFs.FS.RemoveAll | internal/iosbackend/sandbox.go:167-175 | success removes the path and everything below it; failure removes any part of that and nothing else; the call is logged |
| SandboxFs.FS.Remove | internal/iosbackend/sandbox.go:160-165 | the same for one path |
| Cleaner.BuildPlan | internal/sandbox/cleaner.go:48-65 | one walk; the first error met by it wins; otherwise the plan lists every file under the root exactly once with its size, and the int64 total |
| Cleaner.PlanOfWalk | internal/sandbox/cleaner.go:50-64 | the walk callback, for every sequence of visits |
| Cleaner.Execute | internal/sandbox/cleaner.go:75-83 | result, new tree and calls as functions of the plan and of what the device answered; a failed listing is the one failure, otherwise the failures are the failed tries with path and error, in order, and there are none exactly when all succeeded |
| Cleaner.ExecuteRemoveAll | internal/sandbox/cleaner.go:89-136 | one listing and one RemoveAll per listed child, each success credited with its bucket; a failed listing removes nothing and reports that one failure |
| Cleaner.BucketFiles | internal/sandbox/cleaner.go:100-109 | both per-child maps hold the tally of the planned files under each child |
| Cleaner.RemoveChildren | internal/sandbox/cleaner.go:110-135 | counts, bytes and failures of the removal loop |
| Cleaner.ExecutePerFile | internal/sandbox/cleaner.go:166-175 | one Remove per planned file, in order, each success counted and each failure reported |
| CleanerLaws.Conservation | internal/sandbox/cleaner.go:89-175 | whatever fails, reported plus unclaimed files are the planned files, and the same for bytes |
| CleanerLaws.ExactConservation | internal/sandbox/cleaner.go:110-135 | for arbitrary listings, conservation holds exactly when no child with planned files is credited twice |
| CleanerLaws.CreditExact | internal/sandbox/cleaner.go:118-134 | the credited count equals the planned files under removed children exactly under that condition, and is never lower |
| CleanerLaws.DuplicateListingOverReports | internal/sandbox/cleaner.go:110-135 | a listing with one child twice reports one file as two |
| CleanerLaws.DocumentsAccounting | internal/sandbox/cleaner.go:166-175 | for Documents, removed files plus failures are the planned files |
| CleanerLaws.Frame | internal/sandbox/cleaner.go:67-83 | nothing outside the target root changes, and a directory at the root survives, also when the plan is older than the tree |
| CleanerLaws.DocumentsFrame | internal/sandbox/cleaner.go:73-79 | cleaning Documents keeps every directory and every unplanned node |
| CleanerLaws.DropIsPlannedFilesGone | internal/sandbox/cleaner.go:75-175 | the drop in file count and bytes is exactly the planned files that are gone |
| CleanerLaws.NeverOverReports | internal/sandbox/cleaner.go:118-134 | the claim never exceeds what really disappeared, even after partial deletions by failed removals |
| CleanerLaws.SmoothRunMeetsPlan | internal/sandbox/cleaner.go:75-83 | without failures and with a complete listing, the claim is the plan and the real drop |
| CleanRun.BuildPlans | cmd/ios-tidy-mcp/tools.go:1656-1663 | one walk per target, in order: all plans, or the error of the first walk that fails, before anything has changed |
| CleanRun.ExecutePlans | cmd/ios-tidy/apps.go:349-355 | results in order, each the report of its plan, by just the calls of those plans |
| CleanRun.ReportResults | cmd/ios-tidy/apps.go:361-381 | the summed figures; exit 0 exactly when no result has a failure |
| CleanRun.FailuresAreFailedCalls | cmd/ios-tidy/apps.go:361-381 | the failures of the summary are the listings and removals that failed |
| CleanRun.RunFrame | cmd/ios-tidy-mcp/tools.go:1697-1706 | a clean of several targets changes nothing outside them, also with plans older than the tree |
| CleanRun.PlanStillAccurate | cmd/ios-tidy-mcp/tools.go:1656-1698 | executing some targets leaves the plan of another one exact |
| CleanRun.RunNeverOverReports | cmd/ios-tidy-mcp/tools.go:1695-1706 | over all targets and failures, the claim never exceeds the real drop |
| CleanRun.DryRunPredictsRun | cmd/ios-tidy-mcp/tools.go:1656-1706 | without failures, the claims are the planned totals and the drop in the file system |
| CleanRun.TwoWalksAgree | internal/sandbox/cleaner.go:48-65 | two plans of one target on one tree, by whatever walks, hold as many files and bytes |
| CleanRun.SmoothReport | internal/sandbox/cleaner.go:75-83 | in a run without failures and with complete listings, every target's report is its plan |
| CleanRun.DryRunFigureIsRunFigure | cmd/ios-tidy-mcp/tools.go:1656-1713 | the int64 total of one call's plans is what another call, with plans of its own, reports freed |
| CleanRun.ReportedTotals | cmd/ios-tidy/apps.go:366-369 | the reported totals are the exact ones, bytes in an int64 |
| StaleClean.StaleAccount | internal/sandbox/cleaner.go:75-175 | one target, whatever the plan's age: what was there plus what is claimed but was missing is what is left plus the claim plus what failed removals deleted |
| StaleClean.RunAccount | cmd/ios-tidy/apps.go:349-355 | the same account over several targets |
| StaleClean.ClaimWithinDropIff | cmd/ios-tidy/apps.go:342-369 | the claim stays within the drop exactly when no more is missing than failed removals deleted, for the count and for the bytes |
| StaleClean.StaleClaimIff | internal/sandbox/cleaner.go:118-134 | without failed removals a target's count stays within the drop exactly when every counted file was still there |
| StaleClean.StaleOverReports | internal/sandbox/cleaner.go:118-134 | a plan executed after another clean emptied its child counts a file that was gone |
| CleanRun.BuiltInTargetsApart | internal/sandbox/cleaner.go:16-20 | no built-in target contains another |
| Flags.SplitFlagsAndPositionals | cmd/ios-tidy/flags.go:35-92 | the scan's output is Split's flag tokens with a sentinel, and its positionals |
| FlagLaws.SameName | cmd/ios-tidy/flags.go:67-71 | the splitter and Parse read the same flag name, unless Parse rejects the token's syntax |
| FlagLaws.SplitThenParse | cmd/ios-tidy/flags.go:35-92 | for every argument list, what splitting then parsing does in terms of the reference parser |
| FlagLaws.SplitIsFaithfulIff | cmd/ios-tidy/flags.go:9-34 | same success, assignments, positionals and leftovers as the reference, exactly unless a trailing value flag swallows the appended sentinel |
| FlagLaws.SwallowsSentinelIff | cmd/ios-tidy/flags.go:82-90 | that happens exactly when the reference reports a missing value and the flag accepts "--" |
| FlagLaws.DanglingFlagExample | cmd/ios-tidy/flags.go:87-90 | a trailing `--device` gets the value "--" |
| FlagLaws.SplitPartitions | cmd/ios-tidy/flags.go:49-91 | flag tokens and positionals are an order-preserving partition of the arguments |
| FlagLaws.SplitOfItems | cmd/ios-tidy/flags.go:49-86 | complete flags go to one list, positionals to the other, whatever their interleaving |
| FlagLaws.PositionIndependence | cmd/ios-tidy/flags.go:13-18 | any interleaving of the same complete flags and positionals splits, so parses, the same way |
| FlagLaws.SplitOfDangling | cmd/ios-tidy/flags.go:82-90 | a value flag at the end becomes complete with the appended sentinel as its value |
| FlagLaws.ItemsOf | cmd/ios-tidy/flags.go:49-86 | every argument list is complete items and a tail, or ends in a value flag without its value |
| FlagLaws.ParseOfFlags | cmd/ios-tidy/flags.go:78-86 | a successful parse of split flags makes one assignment per flag, in order, under the splitter's name |
| FlagLaws.FlagWithEquals | cmd/ios-tidy/apps.go:116-119 | `--name=value` assigns exactly that value, to boolean flags too, and is refused when the flag does not accept it |
| FlagLaws.BareFlag | cmd/ios-tidy/apps.go:116-119 | a bare boolean flag is true and takes nothing; a bare value flag takes the next token, whatever it is, and needs one; unknown names are refused |
| FlagLaws.MalformedFlag | cmd/ios-tidy/apps.go:116-119 | an empty name and a third dash are refused |
| Probes.ProbeVendedAndFresh | cmd/ios-tidy-mcp/tools.go:105-124 | found, age and freshness are those of the newest entry, first on ties |
| Probes.ProbeVendedFresh | cmd/ios-tidy/apps.go:396-415 | the newest entry is vended and at most the TTL old |
| Probes.IsVendedInResults | internal/recommendations/recommendations.go:223-241 | the entry with the largest UnixNano, first on ties, is vended |
| Probes.NewestIsFirstLatest | cmd/ios-tidy/apps.go:399-407 | the scan returns the first of the latest entries |
| Probes.NewestIsLatestBy | cmd/ios-tidy-mcp/tools.go:101-115 | the scan returns a latest entry, and none only when there is none |
| Probes.ScannersAgreeIff | internal/recommendations/recommendations.go:223-241 | the three scans agree on every list over given probe times exactly when UnixNano keeps those times in order |
| Probes.McpImpliesCli | cmd/ios-tidy-mcp/tools.go:78-124 | what the MCP gate accepts the CLI gate accepts and the planner calls vended |
| Probes.FreshnessWindow | cmd/ios-tidy-mcp/tools.go:78-124 | a vended entry passes the MCP gate while younger than five minutes and the CLI gate up to 24 hours old; no other outcome passes |
| Probes.FutureIsAccepted | cmd/ios-tidy/apps.go:396-415 | a vended entry dated ahead of the clock, however far, passes both gates |
| Probes.ScannersDisagree | internal/recommendations/recommendations.go:223-241 | a list the planner calls vended and both gates refuse, for every clock and TTL |
| Probes.DecisionsSurviveSortIff | internal/apps/probe_store.go:58-69 | every result of the unstable sort keeps all freshness decisions exactly when tied latest entries agree |
| Probes.OrderFreeIff | internal/recommendations/recommendations.go:219-241 | the vended classification of a bundle is the same for every order of the list exactly when its tied latest entries agree |
| Probes.OrderMatters | internal/recommendations/recommendations.go:219-222 | a list of two tied entries and its reverse are classified differently |
| ProbeStore.FileProbeStore.Save | internal/apps/probe_store.go:50-117 | mkdir, marshal, create, write, close and rename in that order until one fails, and then a removal of the temporary file; success exactly when all succeeded, with the device's file replaced by the whole sorted payload and nothing else; failure leaves every file, but for a temporary file whose removal failed |
| ProbeStore.FileProbeStore.Load | internal/apps/probe_store.go:119-142 | no file is an empty result, a whole file its entries with each outcome by its word, and an error exactly a torn file or a failed read |
| ProbeStore.OutcomeRoundTrip | internal/apps/probe_store.go:144-155 | each outcome has its own word; parsing what was written gives the outcome back; the other way round exactly for the four known words |
| ProbeStore.DiskRoundTrip | internal/apps/probe_store.go:76-83 | each result has a disk row with its own word for the outcome, and the rows read back as the results |
| ProbeStore.SaveLoadRoundTrip | internal/apps/probe_store.go:50-142 | Load after Save returns a sorted permutation of what was saved |
| StoreRace.StepKeepsInv | internal/apps/probe_store.go:92-116 | every file operation of every saver keeps the invariant on final and temporary files |
| StoreRace.FinalIsInitialOrComplete | internal/apps/probe_store.go:92-95 | in every interleaving the final file is the initial one or one saver's complete payload |
| StoreRace.ReadersNeverSeeTorn | internal/apps/probe_store.go:92-94 | a reader meets a torn file only if there was one at the start |
| StoreRace.LiveRunsHaveDistinctTemps | internal/apps/probe_store.go:94-96 | no two live savers share a temporary file |
| StoreRace.NoTempsRemain | internal/apps/probe_store.go:101-115 | when all savers have returned and removals worked, only the initial temporary files exist |
| StoreRace.SavesAreAtomic | internal/apps/probe_store.go:90-116 | interleaved saves refine atomic ones: Load sees the last renamed payload |
| StoreRace.OkMeansRenamed | internal/apps/probe_store.go:112-116 | a saver returns success exactly when its rename took effect |
| StoreRace.SoloRun | internal/apps/probe_store.go:50-117 | a saver that nothing interrupts leaves the files as Save does, whichever operation fails |
| StoreRace.SoloOps | internal/apps/probe_store.go:92-116 | and by the operations that Save goes through from the temporary file on, in the same order |
| StoreRace.SaverStands | internal/apps/probe_store.go:96-116 | in every interleaving each saver goes through the operations of an uninterrupted Save in that order, renames only what it has written and closed, and returns only at their end |
| CleanGate.CheckCliGates | cmd/ios-tidy/apps.go:98-240 | the gates in order: each refusal, or the options to go on with |
| CleanGate.CliRefusalIff | cmd/ios-tidy/apps.go:116-168 | exit code 2 exactly for a bad command line, 0 exactly for an acceptable bundle without a device, otherwise 1 |
| CleanGate.CliConfirmCodes | cmd/ios-tidy/apps.go:275-340 | exit code 0 exactly for a dry run or a declined prompt, 1 exactly for a prompt that fails; --yes does not answer for Documents |
| CleanGate.SettingIff | cmd/ios-tidy/apps.go:101-107 | a boolean flag is on exactly when its last setting is a true value |
| CleanGate.TextSettingIff | cmd/ios-tidy/apps.go:101-107 | a text flag has the text of its last setting |
| CleanGate.RunAppsClean | cmd/ios-tidy/apps.go:98-344 | it deletes exactly when gates and confirmations pass and all walks succeed, and then cleans just the chosen targets; otherwise the tree is unchanged, and a refused run makes no call; exit code 0 exactly when no call of the deletion failed |
| CleanGate.TargetsApart | internal/sandbox/cleaner.go:16-20 | whatever is included, no chosen target contains another |
| CleanGate.HandleAppsClean | cmd/ios-tidy-mcp/tools.go:1488-1715 | error, dry-run total or confirmed results, with the tree unchanged unless confirmed; an error exactly when a gate refuses, before any call, or a walk fails |
| CleanGate.CheckMcpGates | cmd/ios-tidy-mcp/tools.go:1488-1640 | the gates in order, or the options to go on with |
| CleanGate.DryRunRows | cmd/ios-tidy-mcp/tools.go:1666-1683 | one row per plan with size, count and first ten paths, and the total |
| CleanGate.SumResults | cmd/ios-tidy-mcp/tools.go:1696-1706 | the freed total |
| CleanGate.CleanedFrame | cmd/ios-tidy/apps.go:242-342 | a clean changes nothing outside the included targets |
| CleanGate.DryRunTellsRun | cmd/ios-tidy-mcp/tools.go:1656-1713 | a dry-run reply tells the reply of a later request on the same tree that differs in dry_run and the confirmations, each with the scope its own gates give it and walks of its own: row by row the same target, files and bytes, the same total, the drop in the file system |
| CleanGate.ShownTargets | cmd/ios-tidy-mcp/tools.go:1640-1683 | a dry run shows a row for tmp, Library/Caches and Documents in that order, each exactly when the request includes it, the first two also when it includes nothing |
| RunSafety.StoreIsLatestSave | internal/apps/probe_store.go:50-142 | in every run each cache, one per store directory and device, holds a sorted permutation of the latest save into it |
| RunSafety.PendingWasGated | cmd/ios-tidy/apps.go:170-342 | a clean that is under way passed its gates at an earlier moment, seeing the cache of its store directory and the clock of then |
| RunSafety.PendingWasPlanned | cmd/ios-tidy/apps.go:242-266 | the plans of a clean under way were built at an earlier moment for its targets in its sandbox, whose present tree is what is left of the tree of then |
| RunSafety.CliGateIff | cmd/ios-tidy/apps.go:116-240 | the CLI goes on exactly when the line parses and names an acceptable bundle, a device is found, the cache of the chosen directory reads and says recently vended, and the sandbox opens; the scope is what the flags ask for, tmp and caches when they ask for nothing |
| RunSafety.McpGateIff | cmd/ios-tidy-mcp/tools.go:1488-1634 | the same for every MCP request, dry runs included; only a real false in dry_run makes it a deletion, and only then do the confirmations count |
| RunSafety.PlannedTargets | cmd/ios-tidy/apps.go:153-160 | in every run a clean plans tmp and Library/Caches exactly when its flag is set or none is, Documents exactly when its own flag is set, and nothing else |
| RunSafety.DeletesAreGated | cmd/ios-tidy/apps.go:209-343 | in every run a clean plans at most as often as it passed its gates, and deletes at most as often as it planned |
| RunSafety.AimIsAuthorised | cmd/ios-tidy-mcp/tools.go:1507-1627 | passing the gates means a recent vended latest entry in the latest save into the consulted cache, no Apple bundle, and all confirmations |
| RunSafety.DeletionIsAuthorised | cmd/ios-tidy/apps.go:146-343 | in every run, with any store directories and any events between gates, planning and deletion, a sandbox changes only by a deletion aimed at it that was authorised by its own cache when it passed its gates |
| RunSafety.AuthorisedAtDeletionIff | cmd/ios-tidy/apps.go:204-342 | a deletion is still authorised when it happens exactly when, with no save into its cache since the gates, the entry seen there is still recent, and otherwise the last such save has a recent vended latest entry |
| RunSafety.SharedCacheDecidesIff | cmd/ios-tidy/apps.go:174-189 | a clean that deletes has a recent vended entry in the shared cache, whatever the caches hold, exactly when its store directory is the default one |
| RunExamples.AuthorisedCleanDeletes | cmd/ios-tidy-mcp/tools.go:1596-1706 | the gates do let a clean through: a saved probe and a confirmed request end in a deletion |
| RunExamples.StaleCleanDeletes | cmd/ios-tidy-mcp/tools.go:1596-1706 | a run in which five minutes pass after the gates: the clean deletes and is not authorised |
| RunExamples.RefusedCleanDeletes | cmd/ios-tidy-mcp/tools.go:1583-1706 | a run in which a refusal is saved after the gates: the clean deletes and is not authorised |
| RunExamples.OtherDirectoryDeletes | cmd/ios-tidy/apps.go:174-224 | a run in which the shared cache says refused, and `apps clean` with another store directory deletes |
| RunSafety.DeletionStaysInTargets | cmd/ios-tidy/apps.go:252-342 | in every run paths outside the included targets stay as they were, however old the plans |
| RunSafety.DocumentsNeedConsent | cmd/ios-tidy/apps.go:280-322 | nothing under Documents changes without the request's own include-documents flag and its own consent |
| RunSafety.DeletionAccount | cmd/ios-tidy/apps.go:242-369 | in every run a deletion's claim and the drop differ by just the claimed files that others had deleted and the files that failed removals deleted |
| RunSafety.UndisturbedClaim | cmd/ios-tidy/apps.go:242-369 | in every run the claim is within the drop when the sandbox is as it was at the planning |
| DryRunFlag.DryRunHonouredAnywhere | cmd/ios-tidy/flags.go:13-18 | on every command line, written as the complete flags, positionals and ending that `FlagLaws.ItemsOf` finds, a bare `--dry-run` anywhere among them stops the clean before deletion |
| DryRunFlag.BooleanValue | cmd/ios-tidy/apps.go:101-107 | `--flag=value` is accepted for a boolean flag of `apps clean` exactly for the words for true and false, and sets just that value |
| DryRunFlag.LastSettingWins | cmd/ios-tidy/apps.go:98-125 | a boolean flag that is only ever set true ends up true |
| RunSteps.SaveProbes | internal/apps/probe_store.go:50-117 | a Save whose operations all succeed is the whole-run machine's save into that cache; any other changes no cache |
| RunSteps.GateCli | cmd/ios-tidy/apps.go:170-209 | the CLI's read of its store directory's cache is a gate step of the machine, and fails only when the file is torn or the read fails |
| RunSteps.GateMcp | cmd/ios-tidy-mcp/tools.go:1580-1600 | the server's read of the shared cache is one |
| RunSteps.PlanClean | cmd/ios-tidy/apps.go:242-266 | building a pending clean's plans on the sandbox as it is then is the machine's planning step |
| RunSteps.DeleteClean | cmd/ios-tidy/apps.go:342-355 | executing those plans on the sandbox as it has become is the machine's deletion, which changes no other sandbox |
| RunSteps.FinishCli | cmd/ios-tidy/apps.go:98-344 | running the CLI's clean undisturbed is planning and deletion of its pending request, or neither: the sandbox it opened ends as the machine says, every other one is unchanged, and without a clear aim nothing changes |
| RunSteps.FinishMcp | cmd/ios-tidy-mcp/tools.go:1488-1715 | the same for the MCP tool |
| RunSteps.RacesAreSaves | internal/apps/probe_store.go:90-116 | interleaved savers in one directory leave what the machine's saves leave, in the order of the renames |
| Dial.StepKeepsInv | internal/iosbackend/sandbox.go:59-87 | every step of caller, dial goroutine and drain keeps the dial's invariant |
| Dial.SettledHandle | internal/iosbackend/sandbox.go:69-87 | once settled, a produced client was closed exactly once, except exactly when it came with an error and the select received it; vended is reported only for a closed client, and a caller that gave up reports an error |
| Dial.SendNeverBlocks | internal/iosbackend/sandbox.go:63-67 | the dial goroutine never waits on its send |
| Dial.StuckIffSettled | internal/iosbackend/sandbox.go:59-87 | no deadlock: a call without a step left has settled, and conversely |
| Dial.CancelFreesCaller | internal/iosbackend/sandbox.go:46-51 | after a cancellation the caller can go on, however long the dial takes |
| Dial.CancelledNeverDials | internal/iosbackend/sandbox.go:50-52 | in every interleaving a call that is cancelled before it looks at its context never dials, opens nothing, and reports an error if anything |
| Dial.LostDeviceNeverDials | internal/iosbackend/sandbox.go:54-57 | neither does a call whose device is not found, and it never reports vended |
| Dial.SelectChoices | internal/iosbackend/sandbox.go:69-79 | while it waits, a caller can take a reply exactly when one was sent, cancelled or not, and give up exactly when cancelled |
| Dial.StepLowersRank | internal/iosbackend/sandbox.go:59-87 | every step but a cancellation lowers the rank |
| Dial.WorkIsBounded | internal/iosbackend/sandbox.go:59-87 | in every interleaving a call makes at most eight steps |
| Dial.SettledOpenClients | internal/apps/probe.go:105-113 | with any number of probes, the clients open after settling are exactly the dropped ones |
| Dial.ProbesLeaveNothingOpen | internal/apps/probe.go:105-113 | if no dial returns a client together with an error, no client stays open |
| Dial.LeaksIff | internal/iosbackend/sandbox.go:79-86 | a client can stay open exactly when the dial returns it together with an error |
| Fetch.RunKeepsInv | cmd/ios-tidy/storage.go:82-99 | in every interleaving a worker past a failed call has cancelled the context |
| Fetch.FailureCancels | cmd/ios-tidy/storage.go:78-96 | once a failed worker has gone on, or the caller has returned, the derived context is cancelled |
| Fetch.ReturnedAnswer | cmd/ios-tidy/storage.go:70-108 | on return both workers have finished; success exactly when both calls succeeded, with their values; otherwise the device-info error before the app-list error |
| Fetch.StuckIffReturned | cmd/ios-tidy/storage.go:77-99 | no deadlock |
| Fetch.ErrorHasCause | cmd/ios-tidy/storage.go:65-76 | if the caller never cancels, an error means a call failed before any cancellation |
| Fetch.ReturnsFirstErrorIff | cmd/ios-tidy/storage.go:101-107 | the first error is returned exactly unless the app list failed first and the device info failed as well |
| Fetch.LaterErrorReturned | cmd/ios-tidy/storage.go:73-74 | a run in which the returned error is not the first one |
| Apps.Sort | internal/apps/sort.go:13-25 | the array becomes a permutation of itself in descending usage, equal ones by bundle ID |
| Apps.UsageIs | internal/recommendations/recommendations.go:243-248 | usage is the uint64 sum of the two sizes, wrapping, and the signed usage the same bits as an int64 |
| Ordering.LexLeIff | internal/apps/sort.go:24 | the string order of the tie-break: prefixes first, otherwise the first difference |
| Ordering.StableKeepsTies | internal/recommendations/recommendations.go:275-282 | a stable sort keeps the order of what its order does not tell apart |
| Apps.SortIsDeterminate | internal/apps/sort.go:9-13 | with distinct bundle IDs every sort of every permutation gives the same list |
| Apps.TopIff | internal/apps/sort.go:9-37 | an app is among the first n kept ones exactly when fewer than n kept ones precede it |
| Apps.SelectThirdParty | cmd/ios-tidy-mcp/tools.go:539-545 | the apps that are not Apple's, in order |
| Apps.OffloadCandidates | cmd/ios-tidy-mcp/tools.go:536-582 | filter, sort, filter, limit |
| Apps.CandidatesDeterminate | cmd/ios-tidy-mcp/tools.go:570-582 | the rows do not depend on the order of the list or on ties, and filtering after sorting is filtering first |
| Apps.CandidateListedIff | cmd/ios-tidy-mcp/tools.go:536-582 | an app is listed exactly when it is a large enough third-party app with fewer than the limit before it |
| Apps.CandidatesInOrder | cmd/ios-tidy-mcp/tools.go:559-582 | the rows stand in descending usage, equal ones by bundle ID, and are at most the limit |
| Recommendations.HasLargeApp | internal/recommendations/recommendations.go:439-449 | some third-party app reaches 1 GiB by the unsigned sum |
| Recommendations.HasPerAppRec | internal/recommendations/recommendations.go:365-371 | some recommendation is about one app |
| Recommendations.RecommendApps | internal/recommendations/recommendations.go:307-354 | the per-app loop with its two counters |
| Recommendations.Build | internal/recommendations/recommendations.go:257-404 | the payload: low exactly under 10% free or with an unknown total, high exactly from 25% on, the device and sizes of the input, and the recommendations |
| RecommendationLaws.ScanTopN | internal/recommendations/recommendations.go:307-354 | from any counters, the loop takes the first remaining eligible apps of each category |
| RecommendationLaws.CategoryIsTopFive | internal/recommendations/recommendations.go:272-396 | in the final list each category is its first five eligible apps by size and bundle ID, in that order |
| RecommendationLaws.RowMeaning | internal/recommendations/recommendations.go:285-354 | every row: a sandbox clean is for a vended app through apps_clean, an offload for another one through the settings, each with the app's name, size and priority, high from 2 GiB and medium from 500 MiB; crash logs are high, the general review medium, and nothing is uninstalled |
| RecommendationLaws.ActionIff | internal/recommendations/recommendations.go:307-354 | an app gets a sandbox clean, or an offload, exactly when it is a third-party app of at least 50 MiB that is vended, or not, with fewer than five of its kind before it |
| RecommendationLaws.PlanOrder | internal/recommendations/recommendations.go:385-396 | rows stand by falling priority, then falling bytes, then bundle ID |
| RecommendationLaws.OtherCategories | internal/recommendations/recommendations.go:285-300 | besides the apps the list holds one high crash-log row exactly from 5 MiB on, the medium fallback, and never an uninstallation |
| RecommendationLaws.RecommendedIff | internal/recommendations/recommendations.go:90-93 | an app is recommended exactly when it is eligible and fewer than five eligible apps of its kind precede it |
| RecommendationLaws.OrderIndependent | internal/recommendations/recommendations.go:250-256 | permuting apps or probe results leaves the recommendations unchanged, given distinct bundle IDs and agreeing ties |
| RecommendationLaws.FallbackIff | internal/recommendations/recommendations.go:356-383 | the generic review is emitted exactly when the total is known, under 10% is free, and no third-party app reaches 50 MiB; for all sizes, wrapped ones included |
| RecommendationLaws.LargeMeansPerApp | internal/recommendations/recommendations.go:372-449 | below 2^63 bytes a large app implies a per-app recommendation |
| RecommendationLaws.AtMostEleven | internal/recommendations/recommendations.go:282-383 | at most eleven recommendations |
| RecommendationLaws.PlanIsSorted | internal/recommendations/recommendations.go:385-396 | the answer is a sorted permutation of what was built |
| RecommendationLaws.AppOrderIsRecOrder | internal/recommendations/recommendations.go:425-434 | priority never falls when bytes grow |
| RecommendationLaws.AppRecsDescend | internal/recommendations/recommendations.go:385-434 | app recommendations come out in descending bytes |
| Tables.ComputeWidths | internal/ui/table.go:120-130 | the widths array |
| Tables.WidthIsLongest | internal/ui/table.go:120-130 | every cell fits its column and some cell fills it |
| Tables.Table.Render | internal/ui/table.go:119-178 | panics exactly when a row is longer than the header; otherwise writes header, separator and rows |
| Tables.RenderTable | internal/ui/table.go:21-43 | writes the header and the rows with the last column unpadded |
| TableLaws.CellSpan | internal/ui/table.go:140-157 | cell i stands at the same columns in every line |
| TableLaws.ReadBack | internal/ui/table.go:119-178 | splitting the text gives all lines at one length, and trimming a cell's columns gives the cell |
| TableLaws.RenderShows | internal/ui/table.go:134-177 | header, dashes and rows in that order, each cell at the end of its column that its alignment says, left by default, with two spaces between columns |
| TableLaws.PlainReadBack | internal/ui/table.go:21-67 | splitting the text of the plain table gives a line per row, with every cell at its column and the last one to the end of its line |
| TableLaws.PlainShows | internal/ui/table.go:21-67 | every cell but the last stands at the left of its column, with two spaces before the next |
| Strings.TrimSpaceIs | cmd/ios-tidy/apps.go:131 | trimming takes away just the white space at both ends |
| Strings.IsSpaceIff | cmd/ios-tidy/apps.go:131 | white space is what Unicode says it is |
| Strings.AppleSystemIff | cmd/ios-tidy/apps.go:425-427 | an Apple bundle ID is one with something, or nothing, after `com.apple.`; `com.apple` is not one |
| Strings.PrintableIff | internal/cmdutil/ascii.go:19-28 | printable means every character from U+0020 to U+007E |
| Bytes.FormatBytes | internal/ui/bytes.go:17-30 | div is the one power of 1000 with div <= b < 1000 * div, it does not overflow, and the suffix exists |
| Bytes.SuffixInRange | internal/ui/bytes.go:27-30 | no uint64 needs a seventh suffix |
| Bytes.ScaleMonotone | internal/ui/bytes.go:22-26 | larger numbers never get a smaller suffix |

## Left out

- The device: AFC, house_arrest, lockdown, installation_proxy and crash reports are abstract operations that may fail or answer anything their type allows.
- Loading the cache and reading the clock are one event of a whole run, while the source reads the cache first, so a save or a clock step between the two is not modelled.
- Which directory a `--store-dir` text names is a fixed but arbitrary mapping; whether it is allowed is part of whether the read succeeds.
- Whether house_arrest.New ever returns a client together with an error: no source in the repository shows it, so `Dial.LeaksIff` is about that reply and not about a known behaviour.
- Writers of a sandbox other than cleans: between a clean's planning and its deletion files may disappear but not appear or change, and two cleans' removals do not interleave within one deletion.
- `SandboxFs.FS.RawList`: the names in one directory are distinct, non-empty and free of slashes; `Paths.Join` is `path.Join` on directories that are already clean, which the target roots are.
- Context cancellation inside BuildPlan and Execute is one of the ways an operation may fail.
- The second com.apple check behind the cache load in both programs repeats the first one on the same value.
- JSON text, file permissions, directory creation and the atomicity of rename(2) itself: a file holds a whole record or is torn, and rename replaces one name at once.
- `SandboxFs.FS.Walk`: symbolic links and entries that change during the walk are not modelled.
- `ProbeStore.FileProbeStore.Save`: the time stamp SavedAt is a parameter.
- Message texts, rationale strings and exit messages; the floating-point percentage is an exact rational, so a boundary that floating point would round is decided exactly.
- `Bytes.FormatBytes`: the decimal digits of the quotient are not modelled, only the scale and the suffix.
- `Tables.RenderTable`: a failing writer is not modelled; text is counted in code points, as the source does.
- Device resolution and the prompt's own reading of an answer are inputs of the gates.
- `apps list`, `apps probe`'s selection of bundles, crash-log matching and pulling, and the registration of flags and tools would only add easy members.
- How the text of a dial error is sorted into refused, error or unknown: a failed probe reports any outcome but vended.
- The last-match helpers that choose between two refusal texts.
