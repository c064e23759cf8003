# Sporos verification

A Dafny model of Sporos, the service that finds local files for torrent candidates, links them and
injects the torrents. Four parts are modelled, each in the form its code has:

* **The file-assignment engine** (`Hungarian`, `Matching`, `OptimalAssignment`, `Components`, `Files`,
  `Objective`, `Edges`, `Assign`, `Bounds`, `Decision`, `Evaluate`, `Reordering`, `Consistency`, `Choice`, with
  `Sums`, `Sorting`, `Reindex`, `Numbers` and `Ledgers` below them; `Paths`, `Scoring`, `Agreement`, `Conclusions` and
  `MatchEvidence` say what its answers mean in the terms of the request). The in-place Hungarian algorithm is
  proved against linear-programming duality; the dummy-column reduction, the component split, the bucket
  index and the ban-one-edge test are joined to one statement about the unique maximum-weight matching of
  the whole graph; on top of it the matcher's decision is independent of input order and consistent. A
  ledger of every number the solver computes shows that none of them overflows.
* **Injection safety** (`Pieces`, `Injection`, `ObservationBound`, `LongestRuns`, `Completion`,
  `SmoothRun`, `InjectionExecutor`). The sweep of piece states is compared with the byte-by-byte meaning of "every
  linked file is intact". The workflow around it is a state machine in which any activity may be cut
  between two effects and executed again, and the client may show any torrent state at every step; the
  workflow code is proved to be a run of that machine.
* **Durable hand-off** (`Outbox`, `OutboxProgress`, `OutboxService`, `Retry`, `Ingress`). Dispatchers claim
  rows under leases, stall, crash and interleave in any order, with clocks that need not be monotone;
  start requests may be inserted although their answer is lost; the dispatch cycle is proved to be a run
  of that machine.
* **Incremental publication and paging** (`Publication`, `DirectoryScan`, `Backfill`, `RateLimit`).

Methods follow the code's loops and updates; each is tied to a specification by its postconditions,
and the lemmas are about the specifications. Tables are maps, each transaction is one step, and
everything the outside world decides (clocks, client answers, read orders, crashes) is a parameter
over which the statements quantify.

Some results say where the code does less than one might expect, each with the exact condition:

* An observation that is cut after it stored a terminal state but before its result is known is executed
  again, does not recognise the terminal state, and goes on. Each such cut can cost 30 more observations
  than the 61 (`ObservationBound.ObservationIsBounded`, reached by `LongestRuns.BoundIsReached`), and a
  recorded completion can be replaced by a failure (`Completion.CompletionCanBeOverwritten`); it is safe
  exactly once the workflow has ended (`Completion.CompletionSurvives`). Safety
  (`Injection.NeverStartsUnsafely`) holds in every run.
* The piece sweep never looks back, so it can call a damaged file safe when the linked files are out of
  order (`Pieces.MisorderedLayoutIsMisread`); `Pieces.InspectionIsExact` gives the condition, which every
  layout the service writes meets.
* The gap between claims shrinks only for a claim within one gap of the largest representable time
  (`RateLimit.ClaimsAreApart`, `RateLimit.NoGapAtTheEnd`).

## Model

| member | source | states |
|---|---|---|
| `Hungarian.Solve` | crates/sporos-matcher/src/matcher.rs:508-570 | For every cost matrix with at least one row and no more rows than columns, whose spread leaves room below the i128 sentinel: the result is an injective row-to-column assignment of minimum total cost; the final potentials certify it (reduced costs non-negative, zero on matched pairs, column potentials non-positive and zero on unmatched columns); its cost is the negated root potential; every number computed on the way lies within twice the spread of the costs and every root potential within rows times the spread; at most rows·rows·columns cells are read |
| `Hungarian.Scan` | crates/sporos-matcher/src/matcher.rs:525-540 | One pass over the columns relaxes exactly the unscanned ones, remembers the scanned column each improvement came from, returns the nearest unscanned column and its distance, and reads at most one cell per column |
| `Hungarian.Shift` | crates/sporos-matcher/src/matcher.rs:541-548 | The shift raises the potentials of scanned rows and lowers those of scanned columns by the distance, lowers the other minima, touches nothing else, and keeps the sum of all potentials |
| `Hungarian.Advance` | crates/sporos-matcher/src/matcher.rs:520-553 | One turn of the search loop keeps the alternating tree, its tight edges, the frontier minima and dual feasibility, with one more column scanned |
| `Hungarian.Search` | crates/sporos-matcher/src/matcher.rs:515-553 | The search ends at a free column after scanning at most as many columns as rows are placed, with every invariant of the tree |
| `Hungarian.Augment` | crates/sporos-matcher/src/matcher.rs:554-561 | Walking the remembered columns back to the root moves each row one column along tight edges and loses none |
| `Hungarian.InsertRow` | crates/sporos-matcher/src/matcher.rs:515-561 | Inserting a row turns a settled state of row − 1 rows into a settled state of row rows, and moves the root potential by no more than one cell's value |
| `Hungarian.ShiftKeepsFeasible` | crates/sporos-matcher/src/matcher.rs:541-548 | No shift by the distance to the nearest column makes a reduced cost of a processed row negative |
| `Hungarian.WeakDuality` | crates/sporos-matcher/src/matcher.rs:508-570 | Feasible potentials bound the cost of every assignment from below |
| `Hungarian.SettledCost` | crates/sporos-matcher/src/matcher.rs:511-553 | Between rows, the cost matched so far equals the negated root potential and the sum of the potentials |
| `Hungarian.SettledMinimum` | crates/sporos-matcher/src/matcher.rs:508-570 | A settled state of all rows holds a minimum-cost assignment |
| `Hungarian.PotentialBounds` | crates/sporos-matcher/src/matcher.rs:511-553 | Between rows every row potential lies between the least and the greatest cost and every column potential between their negated spread and 0 |
| `Hungarian.SearchBounds` | crates/sporos-matcher/src/matcher.rs:517-553 | The same bounds hold at every head of the search loop, and every minimum lies between 0 and twice the spread |
| `Hungarian.TurnWithin` | crates/sporos-matcher/src/matcher.rs:520-553 | Every difference, reduced cost, minimum, distance and potential of one turn of the search loop lies within twice the spread, and the root potential within one spread of where the row began |
| `Matching.MaximumExists` | crates/sporos-matcher/src/matcher.rs:251-381 | Every graph has a maximum-weight matching on any set of rows |
| `Matching.Exchange` | crates/sporos-matcher/src/matcher.rs:359-368 | A maximum of a closed part can replace what any maximum of the whole does there |
| `Matching.JoinUnique` | crates/sporos-matcher/src/matcher.rs:309-376 | Unique maxima of disjoint closed parts join to the unique maximum of their union |
| `Matching.AmbiguityLifts` | crates/sporos-matcher/src/matcher.rs:359-368 | An ambiguous maximum of one closed part makes the maximum of the whole ambiguous |
| `Matching.UniqueWhenEveryEdgeNeeded` | crates/sporos-matcher/src/matcher.rs:359-368 | With strictly positive weights, if banning any chosen edge lowers the best weight then the chosen maximum is the only one |
| `Matching.AmbiguousWhenEdgeSpared` | crates/sporos-matcher/src/matcher.rs:359-368 | If banning a chosen edge leaves the best weight unchanged then there is another maximum |
| `OptimalAssignment.Optimal` | crates/sporos-matcher/src/matcher.rs:460-504 | For every weight matrix and banned pair, the pairs returned are a maximum-weight matching among those avoiding the ban, and the total is its weight and the last root potential; for weights up to a cap, every number of the solve lies within twice the cap, the root potential within rows times the cap, and the total within the most pairs a matching can have times the cap |
| `OptimalAssignment.BoundsReached` | crates/sporos-matcher/src/matcher.rs:496-503 | The bound on the total, and so on the root potential, is reached for every size and weight |
| `OptimalAssignment.KeptIsBest` | crates/sporos-matcher/src/matcher.rs:486-503 | A minimum-cost assignment of the matrix with dummy columns, stripped of dummies and missing edges, is a best matching |
| `OptimalAssignment.WithDummiesIsAssignment` | crates/sporos-matcher/src/matcher.rs:478-486 | Every matching extends by dummy columns to an assignment whose cost is its negated weight |
| `OptimalAssignment.SolveComponent` | crates/sporos-matcher/src/matcher.rs:359-368 | The ban-one-edge loop reports ambiguity exactly when the maximum is ambiguous, and otherwise returns the unique maximum; the cells of all its solves stay within the charge, and all their numbers within the ranges of one solve |
| `Components.Component` | crates/sporos-matcher/src/matcher.rs:425-458 | The search returns, sorted and without repeats, the smallest closed set of candidates and sources that holds the start, disjoint from what was seen, and marks exactly those as seen |
| `Assign.ComponentIsReached` | crates/sporos-matcher/src/matcher.rs:425-458 | What the search returns are exactly the nodes every closed part holding the start must hold |
| `Scoring.ScoresWhenPairable` | crates/sporos-matcher/src/matcher.rs:572-605 | Two files score exactly when they have one size and one role, one extension unless they are videos, a common episode whenever both name one, and in season mode, for videos, a common episode in any case |
| `Scoring.ScoreTellsAgreements` | crates/sporos-matcher/src/matcher.rs:606-621 | A score is 1 plus 1,000,000 for the same path, 100,000 for the same name, 10,000 for a common episode, 1,000 for the extension of a video, 100 for the normalised title and 10 for the directory |
| `Scoring.StrongerAgreementWins` | crates/sporos-matcher/src/matcher.rs:12-18 | The strongest agreement on which two pairs differ decides which scores more |
| `Paths.PrimaryPathMeans` | crates/sporos-matcher/src/matcher.rs:883-895 | A path is a video's exactly when its extension is listed or it lies in a directory BDMV or VIDEO_TS, letters counting alike in either case |
| `Paths.OptionalPathMeans` | crates/sporos-matcher/src/matcher.rs:897-913 | A path is optional exactly when its name without extension is sample, or its extension or one of its components is listed, letters counting alike in either case |
| `Paths.RolesMean` | crates/sporos-matcher/src/matcher.rs:875-881 | A file is required when it is neither padding nor optional; a video is a required file at a video path |
| `Paths.PathIsBasename` | crates/sporos-matcher/src/matcher.rs:915-922 | A path is its parent, a slash and its last component, which has no slash; the parent's last component is the directory's name |
| `Paths.NameIsStem` | crates/sporos-matcher/src/matcher.rs:924-932 | A name is its stem, a dot and its extension, which has no dot, or has no dot at all |
| `Files.ScoredPairSharesBucket` | crates/sporos-matcher/src/matcher.rs:417-423 | Every pair that scores, in plain and season mode, falls into one bucket, although buckets fold letter case and scores do not |
| `Edges.BuildBuckets` | crates/sporos-matcher/src/matcher.rs:262-272 | Each bucket lists, in order, exactly the source files with its key |
| `Edges.BucketLosesNothing` | crates/sporos-matcher/src/matcher.rs:276-290 | The edges found through the candidate's bucket are exactly all pairs of the row that score |
| `Edges.BuildEdges` | crates/sporos-matcher/src/matcher.rs:273-290 | Edge lists and reverse lists hold exactly all scoring pairs of the graph, and the edge budget is exceeded exactly when there are more of them than allowed |
| `Edges.ScoresSummed` | crates/sporos-matcher/src/matcher.rs:291-297 | The score unit computed from the edge lists is one more than the sum of all scores |
| `Edges.TotalPrimaryBytes` | crates/sporos-matcher/src/matcher.rs:298-303 | The loop adds up the sizes of exactly the primary candidates |
| `Objective.LevelBounds` | crates/sporos-matcher/src/matcher.rs:291-304 | In every matching the score sum stays below the score unit and the primary bytes below the bytes the required unit allows for |
| `Objective.WeightIsLevels` | crates/sporos-matcher/src/matcher.rs:338-358 | The weight of a matching is its three levels in mixed radix |
| `Objective.WeightOrdersLexicographically` | crates/sporos-matcher/src/matcher.rs:291-304 | One matching weighs at most as much as another exactly when it is lexicographically no better in required files mapped, then primary bytes mapped, then score |
| `Objective.WeightsPositive` | crates/sporos-matcher/src/matcher.rs:343-356 | Every edge weight is strictly positive |
| `Bounds.UniqueMaximumIsLexicographicallyBest` | crates/sporos-matcher/src/matcher.rs:338-358 | The matching the engine returns is best on the three levels in order, and no other matching equals it |
| `Bounds.BudgetsFit` | crates/sporos-matcher/src/matcher.rs:291-304 | Within given file and edge budgets no weight exceeds the bound the budgets imply, for any u64 sizes |
| `Bounds.ComponentsBounded` | crates/sporos-service/src/config.rs:863-872 | Under limits the configuration accepts no component that is solved has more than 793 candidates or a matching of more than 149 pairs, whatever its shape |
| `Bounds.HeaviestFits` | crates/sporos-service/src/config.rs:863-872 | Under limits the configuration accepts twice the heaviest edge fits i128 and the heaviest matching u128; under the default limits the heaviest edge times the files of a component fits i128 |
| `Bounds.ScoreTotalByPath` | crates/sporos-matcher/src/matcher.rs:291-297 | With distinct candidate paths all scores together are at most 111,111 for each edge and 1,000,000 for each source, because a source shares its path with at most one candidate |
| `Bounds.DistinctFits` | crates/sporos-service/src/config.rs:863-872 | With distinct candidate paths, under limits the configuration accepts, 793 times any weight fits i128, whatever the sizes and however the files divide into candidates and sources |
| `Bounds.UnitsFit` | crates/sporos-matcher/src/matcher.rs:291-304 | Under limits the configuration accepts the sum of scores fits u64, the two units fit u128, and every weight passes the i128 assertion, for any u64 sizes |
| `Bounds.AssignSafely` | crates/sporos-matcher/src/matcher.rs:251-381 | In every solve of every component each difference, reduced cost, minimum, distance and potential that is read back fits i128 whenever the budgets leave room for the heaviest edge; under limits the configuration accepts every total fits u128, and with distinct candidate paths every root potential i128; under the default limits also when paths repeat; and the answer is the one of `Assign.AssignWith` |
| `Assign.SettleComponent` | crates/sporos-matcher/src/matcher.rs:317-375 | One component is charged before it is solved; it is over budget, ambiguous for the whole graph, or joins its unique maximum to what is settled so far |
| `Assign.SolveAll` | crates/sporos-matcher/src/matcher.rs:305-380 | The component loop decides the whole graph, and the cells read by all solves never exceed the operation limit |
| `Assign.ChargeMeans` | crates/sporos-matcher/src/matcher.rs:325-329 | A component is charged (min(candidates, sources) + 1) · candidates² · (sources + candidates) operations |
| `Assign.FileLimitsMean` | crates/sporos-matcher/src/matcher.rs:257-261 | A problem has too many files when candidates and sources together exceed the limit, and a component when they exceed either limit |
| `Assign.AssignWith` | crates/sporos-matcher/src/matcher.rs:251-381 | Within the budgets, the engine reports ambiguity exactly when the graph of all scoring pairs has more than one maximum-weight matching, and otherwise lists the unique maximum with its scores; the cells read never exceed max_assignment_operations; every number of every solve is within the range its budgets and weights imply |
| `Evaluate.Validate` | crates/sporos-matcher/src/matcher.rs:830-859 | A manifest is refused exactly when it is empty, has piece length 0, repeats an ordinal or composed path, has an unsafe path (a drive prefix is told by the second byte), or has a file lying under another file's path |
| `Evaluate.FindClash` | crates/sporos-matcher/src/matcher.rs:845-857 | The slash-by-slash lookup finds a clash exactly when some path continues another after a slash |
| `Evaluate.InputBudgetExceeded` | crates/sporos-matcher/src/matcher.rs:383-408 | The fold refuses exactly when candidate files and the files of all available sources together exceed the limit |
| `Evaluate.BuildMappings` | crates/sporos-matcher/src/matcher.rs:624-648 | Whatever the order of the pairs, the sorted mappings are those of the matching in candidate order |
| `Evaluate.EvaluateSource` | crates/sporos-matcher/src/matcher.rs:107-164 | The result is the specified evaluation of a source on the mappings of the unique maximum, which the rows of Agreement and Conclusions describe; the numbers of its assignment fit their types |
| `Evaluate.EvaluateSeason` | crates/sporos-matcher/src/matcher.rs:166-213 | The result is the specified evaluation of a season from all matching episodes together |
| `Evaluate.EvaluateAll` | crates/sporos-matcher/src/matcher.rs:70-96 | The loop stops early exactly when some evaluation is ambiguous, and otherwise collects all decisions and all conflicts |
| `Evaluate.Evaluate` | crates/sporos-matcher/src/matcher.rs:34-99 | The decision is the specified one for every request whose file and edge limits leave the solver room, which includes all limits the configuration accepts; under the latter no number of any assignment it solves overflows, root potentials and totals included |
| `Reordering.ProblemReordered` | crates/sporos-matcher/src/matcher.rs:251-381 | Reordering the source files changes neither the verdict nor the mappings |
| `Reordering.DecisionIgnoresOrder` | crates/sporos-matcher/tests/properties.rs:10-45 | For distinct source identities, the decision is the same under any reordering of the candidate's files, the sources, and the files inside each source |
| `Consistency.MatchesAreConsistent` | crates/sporos-matcher/src/matcher.rs:650-728 | Every match maps existing candidate files to existing files of available sources of equal size, one to one, in strictly increasing ordinals; mapped plus missing required bytes are the required bytes; the ratio is at most 1,000,000 and reaches it exactly when nothing is missing; a strict match maps every required file at its own path |
| `Choice.ChoiceIsUndisputed` | crates/sporos-matcher/src/matcher.rs:730-758 | For distinct source identities, a match is a decision of best quality, and although only the two best decisions are compared, no decision of the same quality maps differently |
| `Choice.TiedDecisionsAreEmpty` | crates/sporos-matcher/src/matcher.rs:70-96 | Two decisions of one mode with equal mappings map nothing |
| `Agreement.CompatibleWhenAgreeing` | crates/sporos-matcher/src/matcher.rs:760-828 | Releases are compatible exactly when they agree field by field: one Arr identity if both have one and otherwise a common title, equal or unknown kinds (a pack takes episodes in season mode), years, seasons, dates and absolute numbers equal where both are set, and in plain mode equal episodes; otherwise the first comparison that differs is reported |
| `Agreement.MatchesAgree` | crates/sporos-matcher/src/matcher.rs:34-213 | In every match each mapping pairs a candidate file with a file of an available source whose release agrees with the candidate's, in season mode an episode of its season; the two files are pairable, and the mapping's score is what they agree on |
| `Conclusions.SourcesAreTried` | crates/sporos-matcher/src/matcher.rs:58-74 | An available source whose release agrees is tried with its files; one whose release does not is answered with the first comparison that differs |
| `Conclusions.SeasonIsTried` | crates/sporos-matcher/src/matcher.rs:76-90 | A season is tried exactly when that is allowed and the candidate is a season pack |
| `Conclusions.SeasonTakesEpisodes` | crates/sporos-matcher/src/matcher.rs:170-180 | A season is put together from exactly the files of the available, agreeing episodes of that season |
| `Conclusions.JudgedByCoverage` | crates/sporos-matcher/src/matcher.rs:118-163 | A source is strict exactly when every required file is mapped at its own path, otherwise flexible when every one is mapped and that is allowed, otherwise partial when a video is mapped and that is allowed, and otherwise unmatched, with a size conflict exactly when a required file has a namesake of another size |
| `Conclusions.SeasonJudgedByVideo` | crates/sporos-matcher/src/matcher.rs:191-212 | A season is decided exactly when a video is mapped |
| `Conclusions.MatchIsChosenFirst` | crates/sporos-matcher/src/matcher.rs:730-758 | No decision goes before the match that is answered: by stricter mode, more video bytes, more files at their own paths, fewer sources, more of them in the client, more files |
| `Conclusions.DecidedLeadsToMatch` | crates/sporos-matcher/src/matcher.rs:730-740 | With no ambiguous source, a decision on any source leads to a match or to an ambiguous tie |
| `Conclusions.AmbiguityRefuses` | crates/sporos-matcher/src/matcher.rs:60-90 | An ambiguous source refuses the whole request |
| `Conclusions.NothingFoundSaysMost` | crates/sporos-matcher/src/matcher.rs:982-1000 | When nothing matches, the reason is the one that says most among those of the sources and the season |
| `Conclusions.RefusedOutright` | crates/sporos-matcher/src/matcher.rs:36-56 | A request is answered as already present exactly when it is valid and some source has one of its hashes; a match implies that it is valid, not present and within the file limit |
| `Conclusions.AcceptedPathsStayInside` | crates/sporos-matcher/src/matcher.rs:861-873 | No path of an accepted manifest is absolute or has an empty, single-dot or double-dot component |
| `Conclusions.NothingMapped` | crates/sporos-matcher/src/matcher.rs:1002-1035 | Without a match nothing is mapped, and the required bytes are missing unless the request is rejected |
| `Conclusions.RequiredBytesAre` | crates/sporos-matcher/src/matcher.rs:953-961 | The required bytes are the sizes of the required files |
| `Paths.SafePathStaysBelow` | crates/sporos-matcher/src/matcher.rs:861-873 | A path is accepted exactly when it is not empty, has no backslash, NUL or drive, and none of its components, composed or not, is empty or made of dots that leave the directory |
| `MatchEvidence.MatchesCount` | crates/sporos-matcher/src/matcher.rs:650-728 | The evidence of a match counts its mappings, those of videos and their bytes, those at their own paths, its sources, those of them in the client, and the candidate's files, required files and videos; the source identities are those of the mapped sources, ascending; the reason names the mode |
| `Consistency.MappedWithinRequired` | crates/sporos-matcher/src/matcher.rs:656-668 | Mapped required bytes never exceed the required bytes and reach them when every required file is mapped |
| `Consistency.MappingsOneToOne` | crates/sporos-matcher/src/matcher.rs:624-648 | No source file is mapped twice |
| `Consistency.RatioWithin` | crates/sporos-model/src/matching.rs:289-295 | The ratio of a part is the part in millionths of the whole, rounded down; it is 1,000,000 exactly for the whole |
| `Pieces.LayOutLegacy` | crates/sporos-service/src/injection.rs:1018-1034 | Offsets derived from file sizes, aligned for v2-only torrents with saturation, give exactly the linked intervals and the size of the address space, or overflow |
| `Pieces.LayOutStored` | crates/sporos-service/src/injection.rs:1035-1052 | A stored layout gives exactly the linked intervals and the furthest end, or overflow |
| `Pieces.Sweep` | crates/sporos-service/src/injection.rs:1053-1094 | The two-cursor sweep counts missing bytes exactly, refuses unreadable or miscounted states, and reports safe exactly when no piece that is not present touches the first interval ending behind the piece's start |
| `Pieces.InspectPieces` | crates/sporos-service/src/injection.rs:1006-1095 | For every layout the report is the specified one of the sweep; for a layout in order it is exact: safe exactly when every byte of every linked file lies in a present piece |
| `Pieces.SweepIsExact` | crates/sporos-service/src/injection.rs:1072-1077 | The sweep agrees with the overlap criterion on all piece states exactly when, for every piece some interval touches, the first interval ending behind its start touches it |
| `Pieces.InspectionIsExact` | crates/sporos-service/src/injection.rs:1006-1095 | The inspection of a manifest is exact on all piece states exactly under that condition on its linked files |
| `Pieces.SweptIsInspected` | crates/sporos-service/src/injection.rs:1006-1095 | Layouts in order meet the condition |
| `Pieces.MisorderedLayoutIsMisread` | crates/sporos-service/src/injection.rs:1006-1095 | For a manifest storing its second file first, the inspection calls a torrent safe whose first piece, which holds a whole linked file, is missing |
| `Pieces.UndamagedMeansPresent` | crates/sporos-service/src/injection.rs:1072-1077 | The overlap criterion on intervals is the byte-by-byte one |
| `Pieces.InspectionConsistent` | crates/sporos-service/src/injection.rs:1084-1094 | Present and missing bytes add up to the total; the ratio is the present bytes in millionths, rounded down, and full exactly when nothing is missing; nothing missing implies safe |
| `Pieces.LegacyLayoutInOrder` | crates/sporos-service/src/injection.rs:1018-1034 | A derived layout is always in order |
| `Pieces.LegacyFilesFollow` | crates/sporos-service/src/injection.rs:1018-1034 | Derived files lie one after the other, and with only a v2 hash each begins at the next multiple of the piece length |
| `Pieces.LayOutParsed` | crates/sporos-service/src/torrent.rs:273-344 | The parser's offsets are those of BEP 3 concatenation, or of BEP 52 piece alignment, and it fails exactly when one of them overflows |
| `Pieces.StoredLayoutInOrder` | crates/sporos-service/src/torrent.rs:273-331 | A layout the parser stored fits and is in order |
| `Pieces.LegacyAgreesWithStored` | crates/sporos-service/src/injection.rs:1018-1052 | A manifest without padding, stored without a layout, is inspected as if the parser's layout had been stored |
| `Pieces.PaddingMovesFiles` | crates/sporos-service/src/torrent.rs:275-296 | With padding the two differ: a file behind a padding stretch is laid out one byte earlier without the stored layout |
| `InjectionExecutor.Executor.RunWorkflow` | crates/sporos-service/src/injection.rs:46-94 | The workflow with its retry loops, under any answers of the client, any cuts between two effects and any lost results, reaches exactly the state of a run of the model, so every theorem about runs holds of it; it returns only a terminal result |
| `InjectionExecutor.Executor.Attempt` | crates/sporos-service/src/injection.rs:96-110 | Executing an activity until it answers is a run of cut executions and one completed one |
| `InjectionExecutor.Executor.Observe` | crates/sporos-service/src/injection.rs:363-430 | An observation performs its effects from the stored row and what the client shows, up to where a crash cuts them, and returns its result when none is missing |
| `InjectionExecutor.Executor.InspectAndDecide` | crates/sporos-service/src/injection.rs:397-429 | Inspection, decision, and only then the command that follows it |
| `InjectionExecutor.Executor.VerifyFinal` | crates/sporos-service/src/injection.rs:432-469 | Completion when the torrent agrees with the stored decision, otherwise another attempt |
| `InjectionExecutor.Executor.Wait` | crates/sporos-service/src/injection.rs:388-394 | Counts an attempt and fails at the thirtieth |
| `Injection.EffectKeepsSound` | crates/sporos-service/src/injection.rs:726-899 | Every effect an activity may have on the row keeps the safety invariant |
| `Injection.StepKeepsSound` | crates/sporos-service/src/injection.rs:46-94 | So does every event: completed activities, activities cut between any two effects, exhausted retries and new passes |
| `Injection.NeverStartsUnsafely` | crates/sporos-service/src/injection.rs:363-469 | In every run, a start is sent only when the row stores finalizing, resume and integrity_safe, written by an inspection after this pass's recheck request whose sweep reported safe and whose torrent and report meet the plan's resume policy; for a layout in order, every byte of every linked file was then present |
| `Injection.DecisionsFollowPolicy` | crates/sporos-service/src/injection.rs:397-429 | In every run each stored decision is to resume exactly when the sweep reported safe and the policy is met |
| `Injection.AllowedIsMet` | crates/sporos-service/src/injection.rs:1097-1120 | The policy test is what the policy says: never; only when the client lacks nothing and no byte is missing; always; every threshold that is set, or at least one that is set |
| `Injection.NeverStartsUnderNever` | crates/sporos-service/src/injection.rs:363-469 | Under the policy never to resume no run starts the torrent |
| `Injection.StartsOnlyComplete` | crates/sporos-service/src/injection.rs:363-469 | Under the policy to resume only what is complete, a start follows a decision whose torrent had nothing left to download and whose pieces were all present |
| `SmoothRun.SmoothRunCompletes` | crates/sporos-service/src/injection.rs:46-94 | For every plan and all piece states its inspection accepts, when nothing goes wrong the workflow performs exactly the effects from adding the torrent to publishing its completion, in order, with the decision of the plan |
| `SmoothRun.EndsAreAnnounced` | crates/sporos-service/src/injection.rs:901-983 | An activity that ends the workflow leaves the row completed or failed, as its result says, and publishes just that for the plan, the candidate and the task |
| `SmoothRun.StatesMean` | crates/sporos-service/src/qbittorrent.rs:156-178 | Which of the client's states are stopped, checking, queued and started |
| `SmoothRun.WhatPreparingDoes` | crates/sporos-service/src/injection.rs:191-257 | Preparing adds an unknown torrent, stops a running one, records a stopped one, and fails exactly without a client, on a conflict, at another path or under automatic management |
| `SmoothRun.WhatMaterializingDoes` | crates/sporos-service/src/injection.rs:259-338 | Links are stored as complete exactly for a stopped, unmanaged torrent at its path when all were made, and as partial exactly when some were made before one failed |
| `SmoothRun.WhatObservingDoes` | crates/sporos-service/src/injection.rs:363-469 | An observation records checking, settles, inspects, waits, fails at the thirtieth attempt, or verifies the stored decision, each exactly in its case |
| `Injection.CompletesOnlyInAgreement` | crates/sporos-service/src/injection.rs:432-469 | In every run, completion is recorded only when the observed torrent agrees with the stored decision |
| `ObservationBound.ObservationIsBounded` | crates/sporos-service/src/injection.rs:363-469 | After a recheck request at most 61 observations complete before a terminal result, those seeing checking before the decision aside; each observation cut after it closed the row can cost 30 more and no further |
| `LongestRuns.BoundIsReached` | crates/sporos-service/src/injection.rs:363-469 | For every plan, all piece states its inspection accepts and every n there is a run from the start of the workflow with n such cuts and exactly 61 + 30·n observations |
| `Completion.CompletionCanBeOverwritten` | crates/sporos-service/src/injection.rs:515-530 | For every plan and all piece states its inspection accepts, a run from the start of the workflow in which a recorded completion ends as a failure because the observation that recorded it was cut and executed again |
| `Completion.Overwritable` | crates/sporos-service/src/injection.rs:363-430 | While the workflow has not ended, one more execution can turn any stored row into a failed one |
| `Completion.CompletionStands` | crates/sporos-service/src/injection.rs:901-936 | Without such a cut a recorded completion is final |
| `Completion.CompletionSurvives` | crates/sporos-service/src/injection.rs:46-94 | A recorded completion survives every continuation without a new pass exactly when the workflow has ended |
| `OutboxService.Service.RunOnce` | crates/sporos-service/src/outbox.rs:39-115 | A dispatch cycle, under any answers of the engine, lost answers, interference by other dispatchers between any two steps, and crashes, reaches exactly the state of a run of the model, so every theorem about runs holds of it; when it ends well it claimed the first claimable rows, its report adds up, no mark under its token ever changes them again, and each came to what it deserves: what ran already or was accepted is dispatched, what another start holds fails, a refusal with nothing there is retried or fails as the refusal says; when nothing interferes the rows and the engine are exactly those outcomes, one after the other, and the report counts the rows by what they are now |
| `OutboxService.Service.DeliverFirst` | crates/sporos-service/src/outbox.rs:57-112 | One row is started, reconciled when the answer was an error, and marked: with what it deserves whatever others do, and exactly that, changing no other row, when nobody interferes |
| `OutboxService.MarkLeaves` | crates/sporos-service/src/outbox.rs:184-257 | An effective mark changes just its row, to dispatched, to failed for good, or to one more attempt hidden for one to three hundred seconds, as its outcome says |
| `OutboxService.Service.Claim` | crates/sporos-service/src/outbox.rs:128-182 | Leases, under the token and for 60,000 ms, exactly the first claimable rows by visibility and identifier, up to the limit, and returns them as they were; a zero batch or a time out of range changes nothing |
| `OutboxService.MarksChange` | crates/sporos-service/src/outbox.rs:184-257 | A mark of whatever kind changes the table exactly when the token still holds the row and, for a retry, the new count and time fit |
| `Outbox.ClaimTakesEarliest` | crates/sporos-service/src/outbox.rs:128-150 | A claim takes, up to its limit, distinct claimable rows by visibility and then identifier, and leaves out no row that comes before one it takes |
| `Outbox.ClaimSupersedes` | crates/sporos-service/src/outbox.rs:149-165 | A claim moves every earlier token of its rows into the past, whatever the sequence numbers |
| `Outbox.MarkKeepsSound` | crates/sporos-service/src/outbox.rs:56-113 | A mark, by whatever dispatcher and however late, keeps the outbox sound |
| `Outbox.StepKeepsSound` | crates/sporos-service/src/outbox.rs:39-115 | So does every event of dispatchers, engine, clock and crashes |
| `Outbox.EveryRunIsSound` | crates/sporos-service/src/outbox.rs:39-115 | In every run no row is both dispatched and permanently failed; a dispatched row's workflow exists in the engine with exactly its name, version and input; a row failed for a collision finds another start under its instance |
| `Outbox.FinishedForever` | crates/sporos-service/src/outbox.rs:139-147 | A finished row is never claimed or changed again |
| `Outbox.SupersededForever` | crates/sporos-service/src/outbox.rs:184-257 | A mark under a superseded token changes nothing, at that time and ever after |
| `Outbox.OneHolder` | crates/sporos-service/src/outbox.rs:152-165 | Of two dispatchers that remember a row at most one can still change it |
| `Outbox.RetryCountsOnce` | crates/sporos-service/src/outbox.rs:228-257 | A retry adds one to the stored attempts and lets the row be claimed exactly from the delay on |
| `Outbox.LeaseLastsAMinute` | crates/sporos-service/src/outbox.rs:128-165 | A claimed row can be claimed again from 60,000 ms after the claim on, and no earlier |
| `Outbox.ClaimableMeans` | crates/sporos-service/src/outbox.rs:139-147 | A row can be claimed exactly when it is neither dispatched nor failed, its time has come and no lease runs |
| `OutboxProgress.ClaimableWithinBackoff` | crates/sporos-service/src/outbox.rs:139-147 | In every run whose clock readings and visibility times are at most T, every unfinished row is claimable at every time from T + 300,000 ms on |
| `OutboxProgress.NoStarvation` | crates/sporos-service/src/outbox.rs:139-165 | From that time on, as many claims as there are rows, made within one second and interleaved in any way with marks, arrivals and crashes, leave no row unserved: each was claimed, put off by its holder, or finished |
| `Retry.OutboxDelayBounds` | crates/sporos-service/src/outbox.rs:267-276 | The delay lies between its base and 300,000 ms, with at most a fifth of jitter |
| `Retry.OutboxDelayGrows` | crates/sporos-service/src/outbox.rs:267-276 | From the first attempt on, a later attempt never waits less, whatever the jitter |
| `Retry.OutboxBaseDoubles` | crates/sporos-service/src/outbox.rs:267-276 | The base is 1000 ms for the first attempt and doubles with every further one up to 300,000 ms |
| `Retry.OutboxDelaySpreads` | crates/sporos-service/src/outbox.rs:267-276 | Every delay from the base up to a fifth more occurs for some hash |
| `Retry.JitterBounds` | crates/sporos-service/src/retry.rs:70-75 | Saturation or not, the jittered delay lies between four fifths of the delay and the delay |
| `Retry.JitterSpreads` | crates/sporos-service/src/retry.rs:70-75 | The least draw gives four fifths of the delay, the greatest all of it, and a greater draw never less |
| `Retry.ExponentialDoubles` | crates/sporos-service/src/retry.rs:58-62 | The exponential delay is the base at first, doubles with every attempt up to the 32nd, and stays at the cap once it reached it |
| `Retry.DeterministicBounds` | crates/sporos-service/src/retry.rs:52-79 | Every delay lies between four fifths of the capped exponential and the cap, and grows while the exponential doubles |
| `Retry.Backoff.Fail` | crates/sporos-service/src/retry.rs:33-41 | Counts the failure, saturating, and answers the bounded delay of that count |
| `Retry.Backoff.Reset` | crates/sporos-service/src/retry.rs:43-45 | After a success the next failure starts from the base delay again |
| `Ingress.Database.AcceptTask` | crates/sporos-service/src/durable_ingress.rs:47-188 | Accepts as a whole exactly when no table holds something else under the identities and no other key has taken the instance, new exactly when the key was; otherwise the first disagreement is reported and nothing changes |
| `Ingress.AcceptedIsStored` | crates/sporos-service/src/durable_ingress.rs:47-188 | An accepted task leaves its policy, its task and its outbox row with the fields of the request, queued, and everything else as it was |
| `Ingress.RefusedWhenHeld` | crates/sporos-service/src/durable_ingress.rs:47-188 | A task is refused exactly when a table holds another policy, task or outbox row under its identities or its instance is taken, with the error of the first of these |
| `Ingress.ServedOnce` | migrations/0001_durable_ingress.sql:55 | No sequence of requests makes two outbox rows ask for one instance |
| `Ingress.ReplayChangesNothing` | crates/sporos-service/src/durable_ingress.rs:47-115 | Once accepted, repeating a request after any others is a duplicate that changes nothing |
| `Ingress.ServedExtends` | crates/sporos-service/src/durable_ingress.rs:47-115 | No request changes a row that is there |
| `Backfill.Operation.ProducePage` | crates/sporos-service/src/search.rs:863-936 | Creates exactly the missing jobs of the page in one transaction and adds exactly their number to produced_tasks; a refusal leaves no trace |
| `Backfill.AcceptSource` | crates/sporos-service/src/search.rs:900-914 | Creates the missing jobs of one source on every eligible indexer and counts them |
| `Backfill.Operation.Replay` | crates/sporos-service/src/search.rs:987-1056 | Executing earlier pages again, in any order and number, creates and counts nothing |
| `Backfill.Operation.Follow` | crates/sporos-service/src/search.rs:747-773 | Following the cursor to the end, with any replays after any page, creates exactly the wanted jobs and counts each once |
| `Backfill.WantedCount` | crates/sporos-service/src/search.rs:938-962 | The wanted jobs number selected sources times distinct eligible indexers |
| `RateLimit.Limiter.Claim` | crates/sporos-service/src/search.rs:562-586 | Grants exactly when there is no stored time or it has come, storing now + 1000 ms capped at the largest time, and otherwise answers the stored time and changes nothing |
| `RateLimit.Limiter.DependencyError` | crates/sporos-service/src/search.rs:588-643 | The stored time becomes the later of itself and now plus the largest of 1000 ms, the computed delay and the indexer's own delay, capped at the largest time |
| `RateLimit.NeverDecreases` | crates/sporos-service/src/search.rs:562-643 | Over any sequence of claims and errors the stored time never decreases |
| `RateLimit.LimitIsGreatestAsked` | crates/sporos-service/src/search.rs:562-643 | After any run the stored time is the greatest that granted claims and errors asked for, capped, or where it began: no less and no more |
| `RateLimit.NextClaim` | crates/sporos-service/src/search.rs:562-586 | After a claim granted at a time, and no error since, a claim is granted exactly when 1000 ms have passed |
| `RateLimit.ClaimAfterError` | crates/sporos-service/src/search.rs:588-643 | After an error a claim is granted exactly when its delay and 1000 ms have passed and the time stored before has come |
| `RateLimit.ClaimsAreApart` | crates/sporos-service/src/search.rs:562-586 | Two granted claims are at least 1000 ms apart, whatever the clocks; when the first comes within the gap of the largest time, the second can only come at that time |
| `RateLimit.NoGapAtTheEnd` | crates/sporos-service/src/search.rs:562-586 | Two claims at the largest time are both granted |
| `Publication.Manifest.Prepare` | crates/sporos-service/src/qbit_projection.rs:235-271 | Opens the next version, hides what an aborted attempt staged under it, and changes nothing readers see |
| `Publication.Manifest.Project` | crates/sporos-service/src/qbit_projection.rs:273-307 | Stages a batch, hidden, as a whole or not at all |
| `Publication.Manifest.Finish` | crates/sporos-service/src/qbit_projection.rs:309-344 | Makes exactly the first rows of the version visible, in one transaction |
| `Publication.Manifest.LoadInner` | crates/sporos-service/src/qbit_sync.rs:149-187 | With a crash between any two transactions: on success readers see exactly the list received under the next version, otherwise exactly what they saw before; a contiguous, countable reply succeeds when nothing crashes |
| `Publication.Manifest.Load` | crates/sporos-service/src/qbit_sync.rs:141-147 | The same, and a failure that is no crash leaves the manifest stale |
| `Publication.PublishShows` | crates/sporos-service/src/qbit_projection.rs:318-332 | Publishing a staged list shows exactly that list, whatever else was staged under the version before |
| `DirectoryScan.ScanDirectory` | crates/sporos-service/src/data_scan.rs:515-530 | Read in any order, a page holds the smallest names beyond the cursor, in order, and reports more exactly when one is left |
| `DirectoryScan.LessMeans` | crates/sporos-service/src/data_scan.rs:515-530 | Names are ordered by their first difference, a prefix before what continues it |
| `DirectoryScan.CursorListsDirectory` | crates/sporos-service/src/data_scan.rs:502-559 | Following the last name until nothing is left lists every entry exactly once in ascending order |
| `DirectoryScan.StepTracks` | crates/sporos-service/src/data_scan.rs:198-225 | One page keeps the worklist true to what was handled, once each |
| `DirectoryScan.StepShrinksRest` | crates/sporos-service/src/data_scan.rs:198-225 | Every page handles a new entry or completes a directory |
| `DirectoryScan.CountReleases` | crates/sporos-service/src/data_scan.rs:167-173 | The releases of a page are counted on from those observed before, and the limit is found exceeded exactly when some part of the page exceeds it |
| `DirectoryScan.ScanRoot` | crates/sporos-service/src/data_scan.rs:100-277 | A scan completes exactly when nothing it comes across fails and the releases in reach are within max_releases; then every reachable non-release directory within max_depth is completed and each of their entries was handled exactly once; otherwise the reason is true, and no entry was handled twice |

## Left out

- Hungarian.Solve: asks that twice the spread of the costs stays below the i128 sentinel, because the code uses the largest i128 as "no distance yet" and reduced costs can reach twice the spread; `Bounds.AssignSafely` shows that the matcher's own matrices meet this.
- OptimalAssignment.Optimal: asks for weights below 2^126, for the same reason; the code itself refuses only weights of 2^127 and more.
- OptimalAssignment.SolveComponent: asks for weights below 2^126, as `OptimalAssignment.Optimal` does.
- Bounds.AssignSafely: bounds the root potential, beyond the default limits, for distinct candidate paths, which every manifest that passes validation has (`Evaluate.Evaluate`).
- Evaluate.Evaluate: asks for file and edge limits under which twice the heaviest edge fits i128; a policy built with larger ones than configuration accepts could overflow the objective.
- Consistency.MatchesAreConsistent: byte totals are unbounded integers, so it speaks of the code when the totals fit u64; one-to-one on the source side is for sources and files with distinct identities.
- Pieces.InspectPieces: the JSON reader is a list of states, and a usize is 64 bits wide.
- Pieces.LegacyAgreesWithStored: is for torrents without padding stretches; `Pieces.PaddingMovesFiles` shows the difference these make.
- InjectionExecutor.Executor.Observe: is for a row that exists, as every run has it at that stage; time stamps and progress are not stored.
- InjectionExecutor.Executor.RunWorkflow: the answers and cuts are a finite list; when it is used up the workflow is still waiting.
- Publication.Manifest.Load: loads of one torrent do not overlap; two interleaved loads would stage under one version.
- Backfill.Operation.Follow: for a fixed inventory in which every source has a parsed release, identities without collision, and a store with room for the wanted jobs; rows of the attempt table are not modelled.
- DirectoryScan.ScanRoot: picks any unfinished directory rather than the first by path, for a tree that does not change; why an entry fails is not distinguished, and the checks of the root itself are not modelled.
- Outbox.EveryRunIsSound: relies on the engine never replacing an instance, answering success only for an equal start, and inspecting truthfully; the token's sequence number is arbitrary.
- Retry.OutboxDelayGrows: the hash behind the jitter is any number, as are the seeds of `Retry.Backoff.Fail`.
- Release-name parsing, title normalisation, episode keys and Unicode composition are functions given as parameters (`Files.Names`).
- SHA-256 identities, device and inode numbers, HTTP handlers, metrics, configuration files, the qBittorrent, Prowlarr and Arr clients, and the hardlink system calls are not modelled.
- The inventory generation sweep, task control and completion handling are left out: they would add only single-branch updates.
