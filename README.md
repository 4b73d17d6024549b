# OpenStudio core pieces, modelled in Dafny

This project models five pieces of OpenStudio and proves what they promise.

- **Plant load-range partition** (`PlantLoadScheme`, `load_scheme.dfy`). A plant equipment operation load scheme keeps an ordered list of load ranges `[lower, upper]`, each with its own equipment list. While every limit added is non-negative, the ranges tile `[0, 1e9]`. `addLoadRange` does not check for a negative limit: one is accepted, and the new first range `[0, u]` then ends below where it starts (`NegativeLimitInvertsFirstRange`). `LoadScheme` is a class whose `ranges` field the operations update in place. Its invariant `Valid()` says that the ranges form a chain: the first starts at 0, each starts where the previous one ends, the upper limits never decrease and the last is 1e9, and no list repeats a piece of equipment. It does not demand that a range's lower limit be at most its upper limit, since the source does not either. Every operation is proved against specification functions: `FirstAbove`, `Split`, `Merge` and `RemoveAll`.
- **FSU DACE algorithm options** (`FSUDaceOptions`, `fsudace_options.dfy`). This is a bag of named options held as a `map`, plus the algorithm type and the optional CVT trial type. The class covers:
  - a constructor that writes the defaults;
  - validating setters that refuse out-of-range values and then leave the bag as it was;
  - setters that create an option or overwrite it;
  - clear operations;
  - the serialised form, which carries `trial_type` only when one is set, and the restoring constructor.
- **Dakota input file and command line** (`DakotaInput`, `dakota_input.dfy`). These are pure functions that build each section of `dakota.in` from the initializer's fields, the file as Ruby's `puts` writes it, and the Dakota argument string. The sections are read back line by line, and the numbers are parsed back, to state exact-output and case-split lemmas.
- **XML preprocessor job cache** (`XMLPreprocessor`, `xml_preprocessor_job.dfy`). It covers tool-name validation, the lazily filled cache of the last `xml` input file, and the invalidation of that cache when the base path changes.
- **Job trees and their run order** (`JobTree`, `RunManagerModel`, `JobRunOrderScenario`).
  - `JobTree` states the scheduling rules as predicates over a job arena:
    - a child runs once its parent succeeded;
    - a finished job runs once its node and the node's whole child tree succeeded;
    - a tree's status and last run are derived from its jobs.
  - `RunManager` is a class over that arena. Its methods create, link and enqueue jobs, and `WaitForFinished` loops, running the smallest eligible job until none is left.
  - `JobRunOrder` builds both trees of the job-run-order test, runs them, and proves every assertion of the test about the result.

## Model

| member | source | states |
|---|---|---|
| PlantLoadScheme.LoadScheme.constructor | openstudiocore/src/model/PlantEquipmentOperationLoadScheme.cpp:237-247 | a new scheme holds exactly one range, lower 0 and upper 1e9 (44-47), with an empty equipment list, and is a partition |
| PlantLoadScheme.FirstAbove | openstudiocore/src/model/PlantEquipmentOperationLoadScheme.cpp:69-75 | the index the loop stops at: every earlier range has upper <= u, and the range found has upper > u |
| PlantLoadScheme.FirstAboveInRange | openstudiocore/src/model/PlantEquipmentOperationLoadScheme.cpp:67-98 | on a partition a range with upper > u exists exactly when u < 1e9, so addLoadRange fails exactly for u >= 1e9 |
| PlantLoadScheme.LoadScheme.AddLoadRange | openstudiocore/src/model/PlantEquipmentOperationLoadScheme.cpp:67-99 | returns true iff u < 1e9; on success the first range with upper > u is split into [its lower, u] (new) and [u, its upper]; on failure nothing changes; the partition is kept |
| PlantLoadScheme.SplitAt | openstudiocore/src/model/PlantEquipmentOperationLoadScheme.cpp:75-92 | the split keeps the ranges before, inserts [lower_k, u] with the deduplicated equipment at k, moves range k's lower to u and keeps its upper and list, and shifts the rest by one |
| PlantLoadScheme.SortedUnique | openstudiocore/src/model/PlantEquipmentOperationLoadScheme.cpp:82-88 | the new range's list is strictly sorted (so free of duplicates) and holds exactly the given equipment |
| PlantLoadScheme.InsertSorted | openstudiocore/src/model/PlantEquipmentOperationLoadScheme.cpp:84-85 | inserting into a strictly sorted list keeps it strictly sorted and adds exactly the one element |
| PlantLoadScheme.StrictlySortedHasNoDuplicates | openstudiocore/src/model/PlantEquipmentOperationLoadScheme.cpp:85 | a strictly sorted list has no duplicates |
| PlantLoadScheme.SplitIsPartition | openstudiocore/src/model/PlantEquipmentOperationLoadScheme.cpp:75-94 | splitting at u < 1e9 keeps first lower 0, contiguity, last upper 1e9, ordered limits and duplicate-free lists |
| PlantLoadScheme.NegativeLimitInvertsFirstRange | openstudiocore/src/model/PlantEquipmentOperationLoadScheme.cpp:75-92 | a negative limit is accepted: the new first range [0, u] has upper below lower, and contiguity still holds |
| PlantLoadScheme.FirstWithUpper | openstudiocore/src/model/PlantEquipmentOperationLoadScheme.cpp:107-110 | the first range whose upper equals u, or the list's length when none does |
| PlantLoadScheme.LoadScheme.RemoveLoadRange | openstudiocore/src/model/PlantEquipmentOperationLoadScheme.cpp:101-130 | returns empty and changes nothing when only one range exists, u >= 1e9 or no upper equals u; otherwise the matched range is never the last, its list is returned, and it is merged into its successor; the partition is kept |
| PlantLoadScheme.MergeIsPartition | openstudiocore/src/model/PlantEquipmentOperationLoadScheme.cpp:113-123 | dropping a range and lowering its successor's lower to the dropped range's lower keeps the partition |
| PlantLoadScheme.AddThenRemoveRoundTrip | openstudiocore/src/model/PlantEquipmentOperationLoadScheme.cpp:67-130 | removing the range just added at a fresh limit u finds it, returns its deduplicated equipment and restores the original ranges |
| PlantLoadScheme.LoadScheme.LoadRangeUpperLimits | openstudiocore/src/model/PlantEquipmentOperationLoadScheme.cpp:132-143 | one upper limit per range, in order |
| PlantLoadScheme.LoadScheme.EquipmentAt | openstudiocore/src/model/PlantEquipmentOperationLoadScheme.cpp:145-160 | the list of the first range ending at u, or empty when none does |
| PlantLoadScheme.FirstWithUpperLacking | openstudiocore/src/model/PlantEquipmentOperationLoadScheme.cpp:164-177 | the first range ending at u whose list lacks e; the loop passes over matching ranges that already hold e |
| PlantLoadScheme.LoadScheme.AddEquipmentAt | openstudiocore/src/model/PlantEquipmentOperationLoadScheme.cpp:162-180 | returns true iff some range ending at u lacks e, and then appends e to the first such range only; otherwise nothing changes; lists stay duplicate-free |
| PlantLoadScheme.LoadScheme.AddEquipment | openstudiocore/src/model/PlantEquipmentOperationLoadScheme.cpp:182-199 | returns true iff the last range lacks e, and then appends e to it; otherwise nothing changes |
| PlantLoadScheme.RemoveAll | openstudiocore/src/model/PlantEquipmentOperationLoadScheme.cpp:213 | the list without e, every other element kept |
| PlantLoadScheme.LoadScheme.RemoveEquipment | openstudiocore/src/model/PlantEquipmentOperationLoadScheme.cpp:201-222 | returns true iff the first range ending at u held e, and then removes e from it; otherwise nothing changes |
| PlantLoadScheme.RemoveAddedEquipment | openstudiocore/src/model/PlantEquipmentOperationLoadScheme.cpp:162-222 | removing equipment just appended to a list that lacked it restores the list |
| PlantLoadScheme.RemoveAllKeepsNoDuplicates | openstudiocore/src/model/PlantEquipmentOperationLoadScheme.cpp:213 | removal keeps a list duplicate-free |
| FSUDaceOptions.FSUDaceAlgorithmOptions.constructor | openstudiocore/src/analysis/FSUDaceAlgorithmOptions.cpp:43-54 | samples 10, the five flags false, no trial type, seed max(rand, 1) >= 1, and the bag is consistent |
| FSUDaceOptions.FSUDaceAlgorithmOptions.Restore | openstudiocore/src/analysis/FSUDaceAlgorithmOptions.cpp:56-63 | the restoring constructor keeps the algorithm type, trial type and options it is given |
| FSUDaceOptions.MinElement | openstudiocore/src/analysis/FSUDaceAlgorithmOptions.cpp:170 | the smallest element of a non-empty list: it is in the list and no element is smaller |
| FSUDaceOptions.FSUDaceAlgorithmOptions.SetSamples | openstudiocore/src/analysis/FSUDaceAlgorithmOptions.cpp:158-167 | true iff value >= 1; then samples() == value; otherwise the bag is unchanged; consistency is kept |
| FSUDaceOptions.FSUDaceAlgorithmOptions.SetSequenceStart | openstudiocore/src/analysis/FSUDaceAlgorithmOptions.cpp:169-183 | true iff every element is >= 0; then sequenceStart() == value, whether or not the option existed; otherwise nothing changes |
| FSUDaceOptions.FSUDaceAlgorithmOptions.SetSequenceLeap | openstudiocore/src/analysis/FSUDaceAlgorithmOptions.cpp:185-199 | true iff every element is >= 1; then sequenceLeap() == value; otherwise nothing changes |
| FSUDaceOptions.FSUDaceAlgorithmOptions.SetFlag | openstudiocore/src/analysis/FSUDaceAlgorithmOptions.cpp:201-223 | sets one boolean flag and no other option changes; its getter returns the value set |
| FSUDaceOptions.FSUDaceAlgorithmOptions.SetFixedSequence | openstudiocore/src/analysis/FSUDaceAlgorithmOptions.cpp:201-205 | only fixedSequence changes, and fixedSequence() returns the value |
| FSUDaceOptions.FSUDaceAlgorithmOptions.SetLatinize | openstudiocore/src/analysis/FSUDaceAlgorithmOptions.cpp:207-211 | only latinize changes, and latinize() returns the value |
| FSUDaceOptions.FSUDaceAlgorithmOptions.SetVarianceBasedDecomp | openstudiocore/src/analysis/FSUDaceAlgorithmOptions.cpp:213-217 | only varianceBasedDecomp changes, and its getter returns the value |
| FSUDaceOptions.FSUDaceAlgorithmOptions.SetQualityMetrics | openstudiocore/src/analysis/FSUDaceAlgorithmOptions.cpp:219-223 | only qualityMetrics changes, and its getter returns the value |
| FSUDaceOptions.FSUDaceAlgorithmOptions.SetFixedSeed | openstudiocore/src/analysis/FSUDaceAlgorithmOptions.cpp:257-261 | only fixedSeed changes, and fixedSeed() returns the value |
| FSUDaceOptions.FSUDaceAlgorithmOptions.SetSeed | openstudiocore/src/analysis/FSUDaceAlgorithmOptions.cpp:225-239 | true iff value >= 1; then seed() is Some(value), created or overwritten; otherwise seed() is unchanged |
| FSUDaceOptions.FSUDaceAlgorithmOptions.SetNumTrials | openstudiocore/src/analysis/FSUDaceAlgorithmOptions.cpp:241-255 | true iff value >= 1; then numTrials() is Some(value); otherwise unchanged |
| FSUDaceOptions.FSUDaceAlgorithmOptions.SetTrialType | openstudiocore/src/analysis/FSUDaceAlgorithmOptions.cpp:263-265 | the trial type is set and the options are untouched |
| FSUDaceOptions.FSUDaceAlgorithmOptions.ClearOption | openstudiocore/src/analysis/FSUDaceAlgorithmOptions.cpp:267-281 | removes exactly the named option; consistency is kept unless a mandatory option is removed |
| FSUDaceOptions.FSUDaceAlgorithmOptions.ClearSequenceStart | openstudiocore/src/analysis/FSUDaceAlgorithmOptions.cpp:267-269 | sequenceStart() is empty afterwards (82-88) |
| FSUDaceOptions.FSUDaceAlgorithmOptions.ClearSequenceLeap | openstudiocore/src/analysis/FSUDaceAlgorithmOptions.cpp:271-273 | sequenceLeap() is empty afterwards (90-96) |
| FSUDaceOptions.FSUDaceAlgorithmOptions.ClearSeed | openstudiocore/src/analysis/FSUDaceAlgorithmOptions.cpp:275-277 | seed() is none afterwards (130-136) |
| FSUDaceOptions.FSUDaceAlgorithmOptions.ClearNumTrials | openstudiocore/src/analysis/FSUDaceAlgorithmOptions.cpp:279-281 | numTrials() is none afterwards (138-144) |
| FSUDaceOptions.FSUDaceAlgorithmOptions.ClearTrialType | openstudiocore/src/analysis/FSUDaceAlgorithmOptions.cpp:283-285 | trialType() is none afterwards (154-156) |
| FSUDaceOptions.ToVariant | openstudiocore/src/analysis/FSUDaceAlgorithmOptions.cpp:287-296 | the map holds the attributes and the algorithm type, and holds trial_type exactly when a trial type is set |
| FSUDaceOptions.FSUDaceAlgorithmOptions.Serialised | openstudiocore/src/analysis/FSUDaceAlgorithmOptions.cpp:287-296 | trial_type is a key of the serialised map exactly when the options have a trial type |
| FSUDaceOptions.FromVariant | openstudiocore/src/analysis/FSUDaceAlgorithmOptions.cpp:298-309 | a trial type is restored exactly when the key is present; the algorithm type and attributes are read back |
| FSUDaceOptions.VariantRoundTrip | openstudiocore/src/analysis/FSUDaceAlgorithmOptions.cpp:287-309 | reading back the serialised map gives the same algorithm type, trial type and attributes |
| FSUDaceOptions.SerialiseAndRestore | openstudiocore/src/analysis/FSUDaceAlgorithmOptions.cpp:287-309 | options restored from their own serialised form equal the originals |
| DakotaInput.DecimalRoundTrip | openstudiocore/ruby/openstudio/analysis/DakotaInitializer.rb:168 | the decimal text of an integer (Integer#to_s) parses back to the integer |
| DakotaInput.Puts | openstudiocore/ruby/openstudio/analysis/DakotaInitializer.rb:120-132 | puts writes a string unchanged when it ends in a newline, and adds one otherwise |
| DakotaInput.JoinPathInDirectory | openstudiocore/ruby/openstudio/analysis/DakotaInitializer.rb:186-188 | a joined path starts with the directory, ends with the file name, and has one separator between them |
| DakotaInput.LinesOfUnlines | openstudiocore/ruby/openstudio/analysis/DakotaInitializer.rb:138-207 | text appended line by line splits back into the same lines |
| DakotaInput.FixedSections | openstudiocore/ruby/openstudio/analysis/DakotaInitializer.rb:138-142 | the header is the fixed comment line then a blank line; the responses section (200-207) declares one objective function, no gradients and no hessians, then a blank line |
| DakotaInput.StrategyTabularFile | openstudiocore/ruby/openstudio/analysis/DakotaInitializer.rb:144-152 | strategy, single_method, tabular_graphics_data, then dakota_tabular_1.dat and a blank line without a restart file, or dakota_tabular_2.dat and no blank line with one |
| DakotaInput.Method | openstudiocore/ruby/openstudio/analysis/DakotaInitializer.rb:154-156 | the base method section raises "Derived class must define."; a derived section is used as given |
| DakotaInput.Variables | openstudiocore/ruby/openstudio/analysis/DakotaInitializer.rb:165-171 | the section exists exactly when there is a problem to read nx from |
| DakotaInput.VariablesDeclareNx | openstudiocore/ruby/openstudio/analysis/DakotaInitializer.rb:165-171 | the variables section is three lines, its second declares continuous_design equal to the problem's nx, and its last is blank |
| DakotaInput.DriverInterface | openstudiocore/ruby/openstudio/analysis/DakotaInitializer.rb:175-184 | with a driver: an asynchronous fork whose evaluation_concurrency reads back as cores, exchanging params.in and results.out with file_tag, nine lines ending blank |
| DakotaInput.NonDriverInterface | openstudiocore/ruby/openstudio/analysis/DakotaInitializer.rb:185-196 | without a driver: a fork running dummy_driver.rb, with params.in and results.out as paths joined onto the output directory, six lines ending blank |
| DakotaInput.InFileIsSectionsInOrder | openstudiocore/ruby/openstudio/analysis/DakotaInitializer.rb:110-136 | dakota.in is header, strategy, method, variables, interface and responses in that order, with no model section (126) |
| DakotaInput.BaseMethodRaises | openstudiocore/ruby/openstudio/analysis/DakotaInitializer.rb:120-124 | with the base method section only the header and strategy reach the file before the exception |
| DakotaInput.FreshAndRestartCallsDiffer | openstudiocore/ruby/openstudio/analysis/DakotaInitializer.rb:260-265 | the arguments are exactly `dakota.in -o syscall1.out -write_restart dakota1.rst` for a fresh run and `dakota.in -o syscall2.out -write_restart dakota2.rst -read_restart '<restart file>'` for a restart, so the two never coincide |
| DakotaInput.KickOffAction | openstudiocore/ruby/openstudio/analysis/DakotaInitializer.rb:259-309 | nothing is started exactly when no Dakota executable was found; a system call is made exactly when one was found and a driver is used |
| DakotaInput.DriverKickOffCommand | openstudiocore/ruby/openstudio/analysis/DakotaInitializer.rb:266-273 | on more than one node the command is exactly `mpirun -np <nodes> <exe> -i <arguments>`; otherwise it is `<exe> -i <arguments>` |
| DakotaInput.ScriptKickOff | openstudiocore/ruby/openstudio/analysis/DakotaInitializer.rb:274-280 | without a driver the run manager gets a two-line script that calls Dakota on ../ plus the run's arguments and then prints Done. |
| XMLPreprocessor.GetToolVersion | openstudiocore/src/runmanager/lib/XMLPreprocessorJob.cpp:72-79 | fails with "Invalid tool version request: " plus the name unless the name is xmlpreprocessor, and otherwise gives the default version |
| XMLPreprocessor.LastByExtension | openstudiocore/src/runmanager/lib/XMLPreprocessorJob.cpp:98 | none exactly when no file has the extension; otherwise a file with the extension that no later file shares |
| XMLPreprocessor.EmptyCacheSelectsLastXml | openstudiocore/src/runmanager/lib/XMLPreprocessorJob.cpp:93-103 | an empty cache stays empty exactly when no input is an xml file (97-101); otherwise it holds the last xml file with (include, include) appended to its required files (99) |
| XMLPreprocessor.GetFilesIsIdempotent | openstudiocore/src/runmanager/lib/XMLPreprocessorJob.cpp:95 | once filled, the cache is not changed by another lookup, whatever the files |
| XMLPreprocessor.XMLPreprocessorJob.constructor | openstudiocore/src/runmanager/lib/XMLPreprocessorJob.cpp:49-60 | a new job looks up its xml input among the files it is given |
| XMLPreprocessor.XMLPreprocessorJob.GetFiles | openstudiocore/src/runmanager/lib/XMLPreprocessorJob.cpp:93-103 | fills the cache only when it is empty; a filled cache is kept |
| XMLPreprocessor.XMLPreprocessorJob.BasePathChanged | openstudiocore/src/runmanager/lib/XMLPreprocessorJob.cpp:88-91 | the cache is emptied |
| XMLPreprocessor.XMLPreprocessorJob.StartHandler | openstudiocore/src/runmanager/lib/XMLPreprocessorJob.cpp:81-85 | requires an xml input to be found; the cached file is required in the run directory as in.xml |
| XMLPreprocessor.RestartAfterBasePathChange | openstudiocore/src/runmanager/lib/XMLPreprocessorJob.cpp:81-91 | after a base-path change the next start selects the last xml file of the new inputs |
| JobTree.Outcome | openstudiocore/src/runmanager/lib/Test/JobRunOrder_GTest.cpp:125-130 | a job succeeds exactly when its kind succeeds: a null job always, a Ruby job only with a Ruby tool and a succeeding script |
| JobTree.RootOf | openstudiocore/src/runmanager/lib/Test/JobRunOrder_GTest.cpp:122 | the root of a job's tree: an older job with no link, which is what enqueue is given |
| JobTree.RunStepKeepsInvariant | openstudiocore/src/runmanager/lib/Test/JobRunOrder_GTest.cpp:48-58 | running an eligible job keeps the run invariant: every job that ran did so after what it waits for succeeded, and is not out of date |
| JobTree.DependencyRanFirst | openstudiocore/src/runmanager/lib/Test/JobRunOrder_GTest.cpp:48-58 | whatever a job that ran waits for ran strictly earlier and succeeded, and neither job is out of date |
| JobTree.ParentRunsBeforeChild | openstudiocore/src/runmanager/lib/Test/JobRunOrder_GTest.cpp:175-198 | a parent ran strictly before each child that ran, and neither is out of date |
| JobTree.FinishedJobRunsLast | openstudiocore/src/runmanager/lib/Test/JobRunOrder_GTest.cpp:200-202 | a finished job ran after its node and after every job of the node's child tree |
| JobTree.RanAfterDependency | openstudiocore/src/runmanager/lib/Test/JobRunOrder_GTest.cpp:48-58 | checkFinishedAfter holds for a job that ran and anything it waits for |
| JobTree.BlockedBelow | openstudiocore/src/runmanager/lib/Test/JobRunOrder_GTest.cpp:216-218 | nothing below a job that did not succeed ever runs |
| JobTree.FailureBlocksFinishedJob | openstudiocore/src/runmanager/lib/Test/JobRunOrder_GTest.cpp:219-222 | a failure in a node's child tree keeps the node's finished job, and everything below it, from running |
| JobTree.ReadyJobHasRun | openstudiocore/src/runmanager/lib/Test/JobRunOrder_GTest.cpp:150-173 | once nothing may run, a job of an enqueued tree whose dependencies succeeded has run, with its kind's outcome |
| JobTree.SuccessfulTreeSucceeds | openstudiocore/src/runmanager/lib/Test/JobRunOrder_GTest.cpp:153-173 | once nothing may run, every job of an enqueued tree of succeeding jobs succeeded, finished jobs included |
| JobTree.TreeStatusOf | openstudiocore/src/runmanager/lib/Test/JobRunOrder_GTest.cpp:205 | failed exactly when some job of the tree failed; finished only when every job succeeded |
| JobTree.LatestRun | openstudiocore/src/runmanager/lib/Test/JobRunOrder_GTest.cpp:204 | the latest run time among the tree's jobs, attained by one of them |
| JobTree.TreeLastRunIsLatest | openstudiocore/src/runmanager/lib/Test/JobRunOrder_GTest.cpp:204-205 | a finished tree's last run is that of a job that ran no earlier than every other job of the tree |
| JobTree.FailedTreeHasNoLastRun | openstudiocore/src/runmanager/lib/Test/JobRunOrder_GTest.cpp:225-226 | a tree holding a failed job has status failed and no last run |
| JobTree.FreshArenaInvariant | openstudiocore/src/runmanager/lib/Test/JobRunOrder_GTest.cpp:70-147 | trees built before anything ran, in dependency order, satisfy the run invariant |
| JobTree.AppendKeepsInvariant | openstudiocore/src/runmanager/lib/Test/JobRunOrder_GTest.cpp:70-94 | a new root job keeps the run invariant |
| JobTree.RelinkKeepsOrder | openstudiocore/src/runmanager/lib/Test/JobRunOrder_GTest.cpp:96-120 | hanging a root below an older job keeps every job waiting only on older jobs |
| JobTree.EnqueueKeepsInvariant | openstudiocore/src/runmanager/lib/Test/JobRunOrder_GTest.cpp:122 | enqueueing more trees keeps the run invariant |
| RunManagerModel.RunManager.constructor | openstudiocore/src/runmanager/lib/Test/JobRunOrder_GTest.cpp:67 | a new run manager has no jobs and an empty queue |
| RunManagerModel.RunManager.NewJob | openstudiocore/src/runmanager/lib/Test/JobRunOrder_GTest.cpp:70-94 | appends a job of the given kind, unlinked and not run, and keeps the invariant |
| RunManagerModel.RunManager.AddChild | openstudiocore/src/runmanager/lib/Test/JobRunOrder_GTest.cpp:96-118 | the child is linked below its parent, nothing else changes, and the invariant is kept |
| RunManagerModel.RunManager.SetFinishedJob | openstudiocore/src/runmanager/lib/Test/JobRunOrder_GTest.cpp:120 | the job becomes the node's finished job, nothing else changes, and the invariant is kept |
| RunManagerModel.RunManager.NewerRootIsUnwaited | openstudiocore/src/runmanager/lib/Test/JobRunOrder_GTest.cpp:96-145 | a root newer than every finished job is in no finished job's way, so it may gain children |
| RunManagerModel.RunManager.Enqueue | openstudiocore/src/runmanager/lib/Test/JobRunOrder_GTest.cpp:122 | the root joins the queue and nothing else changes |
| RunManagerModel.RunManager.SetPaused | openstudiocore/src/runmanager/lib/Test/JobRunOrder_GTest.cpp:68 | only the paused flag changes |
| RunManagerModel.RunManager.FindEligible | openstudiocore/src/runmanager/lib/Test/JobRunOrder_GTest.cpp:150 | the smallest eligible job, or none exactly when no job may run |
| RunManagerModel.RunManager.RunOne | openstudiocore/src/runmanager/lib/Test/JobRunOrder_GTest.cpp:150 | records the eligible job's outcome and run time, advances the clock, and keeps the invariant |
| RunManagerModel.RunManager.WaitForFinished | openstudiocore/src/runmanager/lib/Test/JobRunOrder_GTest.cpp:149-150 | runs jobs until none may run; the trees keep their shape and jobs that ran earlier are untouched |
| JobRunOrderScenario.NewChainOfFive | openstudiocore/src/runmanager/lib/Test/JobRunOrder_GTest.cpp:70-114 | five new jobs, each the child of the one before |
| JobRunOrderScenario.NewChildChain | openstudiocore/src/runmanager/lib/Test/JobRunOrder_GTest.cpp:96-118 | a chain of five null jobs hung below the head |
| JobRunOrderScenario.BuildSuccessfulTree | openstudiocore/src/runmanager/lib/Test/JobRunOrder_GTest.cpp:70-122 | the head with three child chains and a finished chain of five, enqueued |
| JobRunOrderScenario.BuildFailingTree | openstudiocore/src/runmanager/lib/Test/JobRunOrder_GTest.cpp:125-147 | the failing head with a chain whose fourth job is a Ruby job without tools, and a finished chain of two, enqueued |
| JobRunOrderScenario.TreesAreApart | openstudiocore/src/runmanager/lib/Test/JobRunOrder_GTest.cpp:122-147 | the jobs of the failing tree have their own root and lie outside the successful tree |
| JobRunOrderScenario.SuccessfulTreeSucceeded | openstudiocore/src/runmanager/lib/Test/JobRunOrder_GTest.cpp:153-173 | every job of the successful tree, head and finished chain included, succeeded and ran; the tree is finished (205) |
| JobRunOrderScenario.SuccessfulTreeRunOrder | openstudiocore/src/runmanager/lib/Test/JobRunOrder_GTest.cpp:175-202 | every pair the test checks finished in order |
| JobRunOrderScenario.ChildChainRunOrder | openstudiocore/src/runmanager/lib/Test/JobRunOrder_GTest.cpp:175-202 | a child chain ran after the head, in order, and before the first finished job |
| JobRunOrderScenario.FinishedChainRunOrder | openstudiocore/src/runmanager/lib/Test/JobRunOrder_GTest.cpp:178-198 | the finished chain ran after the head, in order |
| JobRunOrderScenario.SuccessfulTreeLastRun | openstudiocore/src/runmanager/lib/Test/JobRunOrder_GTest.cpp:204 | the successful tree's last run is the last run of the fifth finished job |
| JobRunOrderScenario.FailingTreeOutcome | openstudiocore/src/runmanager/lib/Test/JobRunOrder_GTest.cpp:208-226 | failed 1-3 succeeded in order before failed 4, which failed; failed 5 and both finished jobs never ran and did not succeed; the head succeeded; the tree failed with no last run |
| JobRunOrderScenario.JobRunOrder | openstudiocore/src/runmanager/lib/Test/JobRunOrder_GTest.cpp:60-228 | building, enqueueing, unpausing and waiting leave a quiescent arena in which the successful tree is finished with every job succeeded and its last run that of the fifth finished job, the head ran before the first chain and the chains before the finished jobs, failed 4 ran after failed 3 and failed, failed 5 and the failing finished jobs never ran, and the failing tree failed with no last run; the full list of ordered pairs is `SuccessfulTreeRunOrder` |

## Left out

- I/O and processes: file writes, `Dir.chdir`, `system` and `mpirun`, the run-manager polling loop of `kick_off_run`, `instantiate_problem`, and the path watcher are not modelled. The text that would be written, and the command that would be run, are modelled instead.
- `create_driver_file` and `create_path_watcher`, with the text of dakota_driver.rb and dummy_driver.rb, are not part of this model: they only write files.
- DakotaInput.Variables: when no problem was given, Ruby raises a NoMethodError on `nil`. The model gives a failure carrying that error's message; the Ruby exception object and its backtrace are not modelled.
- DakotaInput.ModelSection: the model section is defined but never written (DakotaInitializer.rb:126); it carries no lemma.
- `OpenStudio::system_complete` and `OpenStudio::Path` are not modelled: the absolute output directory and restart file are inputs, and path joining is `JoinPath`.
- FSUDaceOptions.FSUDaceAlgorithmOptions.constructor: `rand()` is a parameter, clamped to at least 1 as the source does.
- The algorithm and trial type enumerations are carried by their value names; which names are valid is not part of this model.
- FSUDaceOptions.ToVariant: the base class's `AlgorithmOptions_Impl::toVariant()` is not part of this model. Its map is modelled as holding only the attribute list under `attributes`, so the exact key set stated is that of this model.
- getIntVectorFromAttribute, `createAttributeFromVector`, `deserializeUnorderedVector` and the QVariant encoding are modelled as the identity on the stored values. The attribute list round-trips as a whole.
- FSUDaceOptions.FSUDaceAlgorithmOptions.SetSequenceStart requires a non-empty list: the source dereferences `min_element` of an empty vector without a check (FSUDaceAlgorithmOptions.cpp:170).
- FSUDaceOptions.FSUDaceAlgorithmOptions.SetSequenceLeap requires a non-empty list for the same reason (FSUDaceAlgorithmOptions.cpp:186).
- clone, `algorithmType()` and the public wrapper class only copy or delegate, and are not modelled separately.
- Log messages are not modelled.
- PlantLoadScheme: the FloatCompare `equal` tolerance is exact equality here, and the bounds are reals with no rounding.
- PlantLoadScheme: the extensible groups and `ModelObjectList` storage are a sequence of records. `addModelObject` is taken to append and always succeed.
- PlantLoadScheme.LoadScheme.AddLoadRange: a negative limit is not rejected, as in the source, so the model does not promise that every range has lower <= upper.
- PlantLoadScheme.LoadScheme.ClearLoadRanges: its source body is empty (PlantEquipmentOperationLoadScheme.cpp:224-226), so the model changes nothing and states nothing.
- PlantLoadScheme: the other `_Impl` constructors (49-65, 228-233) only forward to the base class.
- XMLPreprocessor.XMLPreprocessorJob.StartHandler: `copyRequiredFiles` for the weather file is not modelled. Neither are `buildDescription`, `descriptionImpl`, `shutdownJob` or the file system.
- XMLPreprocessor.XMLPreprocessorJob.StartHandler requires an xml input to be found. The source dereferences the empty optional when there is none (XMLPreprocessorJob.cpp:84), which is undefined behaviour.
- FileInfo and `Files::getLastByExtension` are not part of this model. The lookup is `LastByExtension`, and "not found" is `None` rather than an exception that `getFiles` catches.
- The run manager's own implementation (`RunManager`, `Job_Impl`) is not part of this model. Its scheduling rules are stated as the specification that the job-run-order test pins down.
- Concurrency, the worker pool, the job database and real process execution are not modelled. `WaitForFinished` runs one eligible job at a time, the smallest id first.
- RunManagerModel.RunManager.WaitForFinished: each run gets its own strictly increasing time. The test also accepts equal times for a parent and child, because of timer resolution. So the model proves "strictly before", which is stronger than the test's "no later than".
- RunManagerModel.RunManager.WaitForFinished requires the manager to be unpaused. The test unpauses before waiting (JobRunOrder_GTest.cpp:149-150), and a paused manager would wait forever.
- RunManagerModel.RunManager.AddChild is modelled only while nothing has run and the child is still a root, which is how the test uses it. Re-linking a job that ran, and cycle detection, are not modelled: ids follow dependency order instead.
- RunManagerModel.RunManager.SetFinishedJob is modelled under the same conditions. Detaching a previous finished job is not modelled.
- Job ids follow dependency order, so `JobRunOrderScenario` creates each head before the jobs below it and links each chain bottom-up. The test creates the heads after their chains. Nothing runs before a tree is enqueued, so the order of creation and linking does not change the outcome.
- Out-of-date detection by file timestamps and checksums is not modelled. A job is out of date when it never ran, or when something it waits for has not run or ran no earlier than it did.
- Tree statuses are waiting, running, finished and failed. Starting and canceled, `requestStop`, and the `force` flag of `enqueue` are not modelled.
- A Ruby job fails in the scenario because it has no tools; the model gives a Ruby job's kind a flag for a Ruby tool and a flag for a succeeding script.
