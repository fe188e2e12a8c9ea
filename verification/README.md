# Gorse engine: a verified model

Gorse is a recommender system written in Go. This project models the parts of its engine where several
functions, or several concurrent steps, must agree with each other, and proves that they do. Every file
is one module:

| file | part of Gorse |
|---|---|
| `DumpRestore.dfy`, `Bytes.dfy` | the backup format of the master node, printer and parser |
| `DumpContents.dfy`, `DumpLanguage.dfy` | what a restore inserts, record by record, and which streams it accepts |
| `Dataset.dfy`, `Dict.dfy` | the training dataset, its dictionaries and its two splits |
| `LabelIndexing.dfy`, `LabelRows.dfy` | the one-pass label loop of the data loader, and the same in terms of its rows |
| `FeedbackGrouping.dfy` | the item-ordered feedback loop of the data loader |
| `Leaderboards.dfy` | per-category heaps of non-personalised recommenders |
| `Evaluator.dfy` | the online evaluator |
| `Recommend.dfy`, `ScoreLists.dfy`, `RecommendChain.dfy` | the recommendation pipeline and its pages, its lists and vote sums, and its run |
| `Overfetch.dfy` | the two list endpoints that skip read items |
| `Idf.dfy` | the IDF distance of item-to-item recommenders |
| `LabelTree.dfy`, `LabelValues.dfy` | label trees, their value dictionary and the id set used for similarity, and the values in a tree |
| `UnifiedIndex.dfy` | the numbering of users, items and labels, and its serialised form |
| `WakeUp.dfy`, `WakeTrace.dfy` | the task loop and its one-slot wake-up channel, and what its state records |
| `Publication.dfy` | publishing and removing trained models |
| `SlotPush.dfy` | the three-step slot allocation of concurrent pushes |
| `Seqs.dfy` | sequence notions shared by all of them |

Run `dafny verify dfyconfig.toml` to check everything.

Objects that the Go code updates in place are classes here, its loops are loops with invariants, and each
method is tied to a specification function or an invariant about which the lemmas then speak. The three
concurrent protocols are state machines: a run is any legal sequence of steps, and the theorems are about
all runs.

## Where the code does less than one would expect

Eight properties that one would like to have are false of the code. For each of them the code is kept as it
is, the exact condition is proved in both directions, and an input that shows the failure is given.

- **The first holder of a label gets the second occurrence's value.** Label names are always right; values
  are the rows' own if and only if the first two values of every repeated name agree
  (`LabelIndexing.NamesAlwaysRight`, `LabelIndexing.OwnValuesExactly`, `LabelIndexing.FirstHolderOverwritten`).
- **Adding feedback of an unknown user or item breaks "number equals position".** It stays true if and only
  if both ids are known; likewise `AddUser` and `AddItem` keep it if and only if the id is new
  (`Dataset.FeedbackFirst`, `Dataset.SameUserTwice`).
- **Pages of ranked documents can overlap**, because the offset counts raw ranks while the size counts
  unread entries. They are disjoint if and only if no read item lies in the first window or no unread
  one behind it (`Overfetch.DocumentPagesDisjoint`, `Overfetch.DocumentPagesOverlap`).
- **A category's leaderboard is not always a true top K.** An item that names a category twice, or names
  the empty category, takes two places and can push another item out. The heap of a category is a true top
  K for every K if and only if no pushed item enters it twice (`Leaderboards.TrueTopKExactly`). The popped list
  shows each item once, so it is more forgiving: its entries for a category are a true top K whatever top K the
  heap kept if and only if every item that enters it twice scores strictly below all its other items
  (`Leaderboards.ListedExactly`, `Leaderboards.RepeatEvicts`, `Leaderboards.NamedTwice`).
- **An upload that fails after the writer's Close is published all the same.** Except for Google Cloud
  Storage, the blob stores only log such an error and then signal that they are done, so without any failed
  save and without a crash the model id in memory, and then the saved one, can name nothing
  (`Publication.LostUploadDangles`). Publishing is safe if and only if the blob is there
  (`Publication.PublishExactly`).
- **A lost metadata save followed by a clean-up and a crash leaves a dangling model id**
  (`Publication.FailedSaveDangles`). With any failures and crashes a run in which no lost upload is published
  stays good as long as, whenever a clean-up starts, no saved model is older than both models in use; if one
  is, there is a continuation that dangles (`Publication.NeverDangles`, `Publication.CleanUpExactly`). Nothing in
  memory dangles before a crash that reloads the id of a missing model, whatever saves are lost and whatever
  clean-ups run (`Publication.MemoryNeverDangles`, `Publication.OneProcessNeverDangles`).
- **A request can be lost when a run panics**, because the panic is recovered outside the task loop and ends
  it. A completed request has been or can still be answered if and only if it has been answered already or the
  loop is alive (`WakeUp.AnsweredExactly`, `WakeUp.PanicLosesRequest`).
- **Field names with '.' or ':' can give two different label leaves the same id**
  (`LabelTree.DotCollides`, `LabelTree.ColonCollides`). For any admissible names that can be cut at
  separators, no tree has two different leaves with one id if and only if no admissible name contains
  '.' or ':' (`LabelTree.SafeNamesExactly`).

Besides, the dump format has a limit that Gorse's own records never reach: a record that encodes to no bytes
looks like the end mark. A dump is read back in full, and an interrupted one is noticed wherever it breaks
off, if and only if no record is empty (`DumpRestore.RoundTripExactly`, `DumpRestore.CutDumpIsIncomplete`).
And a recommender whose own list repeats an item brings the repeat into the result; requests and pages are
free of repeats if and only if no recommender repeats itself within them (`Recommend.NoRepeats`,
`Recommend.PagesNeverRepeat`, with an example in `Recommend.RepeatShows`).

## Model

| member | source | states |
|---|---|---|
| Bytes.IntegerRoundTrip | master/rest.go:1690-1701 | A signed little-endian integer of any width that fits is read back exactly, so negative flags and sizes share one encoding |
| Bytes.ReadWrittenInt | master/rest.go:1699-1702 | Reading takes exactly the integer's bytes and leaves the rest of the stream |
| Bytes.EncodeAt | master/rest.go:1690-1697 | Byte i of a written integer is its i-th digit to the base 256, lowest first, with infinitely many ones in front of a negative one |
| Bytes.ReadIsWritten | master/rest.go:1699-1702 | Any bytes are the encoding of the integer read from them, followed by the rest |
| DumpRestore.DumpSection | master/rest.go:1726-1752 | However the stream is cut into batches, a section is its flag followed by the records' frames in order, and the count is their number |
| DumpRestore.Dump | master/rest.go:1714-1823 | The response body is the three sections and the end mark; the statistics are the list lengths |
| DumpRestore.ReadDump | master/rest.go:1699-1712 | Every frame consumes input; sizes of zero or less are reported as flags |
| DumpRestore.ReadSection | master/rest.go:1834-1841 | A complete section ends in a number that is not positive and has consumed input, for any bytes, which is why a restore ends |
| DumpRestore.DataClient.BatchInsert | master/rest.go:1853-1862 | One database call: logged, or refused without effect |
| DumpRestore.RestoreSection | master/rest.go:1832-1863 | For any bytes, the database receives the batches of the section's meaning in order up to the first refused call; it succeeds iff the section is complete and nothing was refused |
| DumpRestore.RestoreNext | master/rest.go:1830-1936 | One turn of the loop, for any flag: what is logged, counted and still ahead keep adding up to the meaning of the stream, or the turn fails and the log ends at the refused call or where the stream breaks off |
| DumpRestore.Restore | master/rest.go:1825-1938 | For any bytes whose length fields can be allocated the loop ends, the database log is the stream's meaning up to the first refused call, success holds iff the stream is complete and no call was refused, and the statistics are those of the meaning; what the inserts of a meaning hold is DumpContents.InsertsAreRecords |
| DumpRestore.ProgressMany | master/rest.go:1852-1863 | After any stretch of batches the log is still a prefix of the meaning, or the refused call is in that stretch |
| DumpRestore.BatchesOfAll | master/rest.go:1852-1863 | Batches concatenate to exactly the records, in order, and have ten thousand entries each but the last, which has at least one |
| DumpRestore.ReadWrittenSection | master/rest.go:1685-1712 | A written section followed by any bytes reads back up to the first empty record, which acts as the end mark |
| DumpRestore.RoundTrip | master/rest.go:1714-1938 | A dump followed by any trailing bytes (the JSON statistics) is complete, means the inserts of the three lists with their lengths as statistics, and leaves the trailing bytes unread; what these inserts hold is DumpContents.FullInsertsHold |
| DumpRestore.RoundTripExactly | master/rest.go:1699-1706 | A restored dump always reports success, and restores as many records as were dumped iff none of them encodes to zero bytes |
| DumpRestore.CutDumpIsIncomplete | master/rest.go:1699-1712 | A dump cut anywhere is refused as incomplete iff none of its records encodes to zero bytes |
| DumpContents.FullInsertsHold | master/rest.go:1852-1863 | The inserts of three lists hold exactly their records, users before items before feedback, each list in order, one to ten thousand per call |
| DumpContents.InsertsAreRecords | master/rest.go:1830-1936 | For any bytes the inserts hold the records of the stream read frame by frame, in order, one to ten thousand per call: all of them if the stream is complete, otherwise all but fewer than ten thousand at the end; the statistics count the records of each kind |
| DumpContents.RestoreRecords | master/rest.go:1825-1938 | A restore that succeeds has inserted exactly the records of the stream, in order, and counted them; no call inserts nothing or more than ten thousand |
| DumpContents.DumpThenRestore | master/rest.go:1714-1938 | The composed program: dump, append anything, restore; read by its constructors the log holds exactly the users, then the items, then the feedback, in order, one to ten thousand per call |
| DumpLanguage.ReadDumpExactly | master/rest.go:1699-1712 | A record is read exactly from a positive size and that many bytes which the decoder takes, a flag exactly from any other number |
| DumpLanguage.PrintedIsComplete | master/rest.go:1825-1938 | Any number of sections in any order with readable records, then the end mark and anything: complete, and the anything is left |
| DumpLanguage.CompleteIsPrinted | master/rest.go:1825-1938 | Every complete stream has that form |
| DumpLanguage.CompleteExactly | master/rest.go:1825-1938 | The language of complete streams: exactly those |
| Dict.FreqDict.Add | dataset/dict.go:32-43 | Known names keep their number and gain one count; new ones get the next number and count 1; numbers and names stay inverse |
| Dict.FreqDict.AddNoCount | dataset/dict.go:45-55 | The same numbering, counts unchanged, 0 for a new name |
| Dict.FreqDict.Id | dataset/dict.go:57-62 | -1 exactly for unknown names, otherwise the position of the name |
| Dict.Index.Add | dataset/index.go:68-73 | Adds a name once, at the end |
| Dict.Index.ToNumber | dataset/index.go:76-81 | NotId exactly for unknown names, otherwise the position of the name |
| Dataset.Dataset.AddUser | dataset/dataset.go:201-214 | For any id the invariant is kept (two transposed tables, aligned times, counts equal row lengths); number equals position afterwards iff the id was new |
| Dataset.Dataset.AddItem | dataset/dataset.go:216-232 | The same for items |
| Dataset.Dataset.AddFeedback | dataset/dataset.go:234-241 | The log gains exactly this event in all three tables and both counts; number equals position afterwards iff both ids were known |
| Dataset.FeedbackFirst | dataset/dataset.go:234-241 | An input that breaks alignment: feedback before its user and item, after which an event points outside both lists |
| Dataset.SameUserTwice | dataset/dataset.go:201-214 | An input that breaks alignment: two users with the same id, who share one number |
| Dataset.Dataset.Append | dataset/dataset.go:237-240 | The four updates together extend both tables, the times and the total by one event |
| Dataset.Dataset.Transposed | dataset/dataset.go:234-241 | A user's row names an item as often as the item's row names the user |
| Dataset.Dataset.FrequenciesAreRowLengths | dataset/dataset.go:159-181 | For every user and item the dictionary frequency behind its IDF weight is the length of its feedback row, which for users is also the number of its timestamps |
| Dataset.Dataset.AlignedInRange | dataset/dataset.go:201-259 | While ids are aligned, every stored index is within both lists, so the splits cannot leave their tables |
| Dataset.Dataset.LeaveOneOut | dataset/dataset.go:272-284 | The k-th event of a user goes to the test set, the others in order to the train set |
| Dataset.Dataset.SplitUser | dataset/dataset.go:271-285 | One user's turn gives that user its share and changes no other user's share in either set |
| Dataset.Dataset.SplitSampledUsers | dataset/dataset.go:288-305 | Every sampled user gets its leave-one-out share, every other user nothing yet |
| Dataset.Dataset.CopyOtherUsers | dataset/dataset.go:306-316 | Afterwards the users that were not sampled have their whole row in train |
| Dataset.Dataset.SplitCF | dataset/dataset.go:259-319 | For any random choices: without a number of test users, or with one that covers all, every user with feedback has exactly its picked event in the test table and the others in order in train, and with a smaller number exactly the sampled users with feedback do; every other row is in train as it is; the test set has one event per tested user; both parts are again transposed, aligned and counted; train plus test is the original log as a bag, and so are the totals |
| Dataset.SharesAddUp | dataset/dataset.go:271-285 | A user's test and train shares together are the user's row, as bags |
| Dataset.Conservation | dataset/dataset.go:259-319 | Conservation user by user is conservation of the whole log |
| Dataset.ItemsConserved | dataset/dataset.go:259-319 | A conserved log is conserved item by item too, so the item tables add up as well |
| Dataset.Dataset.SplitLatest | dataset/dataset.go:322-352 | For any time order chosen among ties: each user's latest event is in test, the next `shots` in train, in that order, and both parts are again transposed, aligned and counted; and no user's rows leak, where negative `shots` count as 0: the test event is at least as recent as every training event, there are min(shots, len-1) of those, both parts are part of the row as a bag, and whatever is missing is at most as recent as what is there |
| Dataset.NoLeak | dataset/dataset.go:322-352 | The test event is at least as recent as every training event, which are at least as recent as every dropped one; train has min(shots, len-1) entries; the three parts are the row as a bag |
| Dataset.LatestIsUnleaked | dataset/dataset.go:322-352 | The same about the rows of the two returned datasets, without mentioning the sorted order |
| Dataset.PartsOfRow | dataset/dataset.go:322-352 | Test, train and dropped events are the row as a bag, for any `shots`, negative ones included |
| LabelIndexing.AddFeature | master/tasks.go:309-331 | One loop body keeps: index, counts, first holders and all label rows are those of the two-pass filter over the occurrences so far |
| LabelIndexing.LoadRow | master/tasks.go:307-331 | The same for one row of features |
| LabelIndexing.LoadLabels | master/tasks.go:293-334 | At the end the index lists exactly the names that occur at least twice, in order of second occurrence, and every row's bag of labels is that of the two-pass filter with the stored values |
| LabelRows.OccurrenceAt | master/tasks.go:307-331 | The stream of occurrences has feature j of row u, with its name and value, at the position that the rows before u and j add up to |
| LabelRows.PlaceOf | master/tasks.go:307-331 | Every position of the stream is that of some feature |
| LabelRows.RepeatsExactly | master/tasks.go:316-317 | A name is counted at least twice iff it is at two different places of the rows |
| LabelRows.RowLabelled | master/tasks.go:316-330 | The labels of a row are exactly its own names that are at two places somewhere, as often as the row carries them |
| LabelRows.LoadRows | master/tasks.go:293-334 | In terms of the rows alone: a name is in the index iff it is at two places of the rows, and every row has as labels exactly its own such names, as a bag |
| LabelIndexing.StoredRowStep | master/tasks.go:316-323 | One more occurrence changes earlier rows only if it is the second one of its name, and then by one label of the first holder |
| LabelIndexing.RepeatedNames | master/tasks.go:316-317 | The indexed names are exactly those with a total count of at least two, each once |
| LabelIndexing.NamesAlwaysRight | master/tasks.go:309-330 | Whatever the values, every row has the right label names |
| LabelIndexing.OwnValuesExactly | master/tasks.go:316-323 | All rows carry their own values iff every repeated name has equal values at its first two occurrences |
| LabelIndexing.FirstHolderOverwritten | master/tasks.go:316-323 | An input where it fails: two rows with the same label and different values; the first one is given the second one's value |
| LabelIndexing.MissingCopy | master/tasks.go:316-323 | If those two values differ, the first holder misses exactly one copy of its own value |
| FeedbackGrouping.Split | common/parallel/parallel.go:190-210 | Chunks concatenate to the list, none is empty, there are min(n, length), and their sizes differ by at most one |
| FeedbackGrouping.AddRecord | master/tasks.go:466-484 | One record keeps: finished runs are pushed with all their feedback, the current run is buffered, the group position is in range and flags mark exactly the pushed items |
| FeedbackGrouping.Finish | master/tasks.go:489-502 | The flush pushes the last run at a position in range, then every item without feedback with none |
| FeedbackGrouping.LoadGroup | master/tasks.go:435-502 | For any item-ordered stream every item of the group is pushed exactly once with exactly the known feedback that names it, and exactly the known feedback enters the dataset |
| FeedbackGrouping.BetweenKeepsOwn | master/tasks.go:439-445 | Reading an id range loses nothing about the items in that range |
| FeedbackGrouping.KnownOfRange | master/tasks.go:439-456 | The known feedback of a group's id range is that of its items, in the same order |
| FeedbackGrouping.KnownMore | master/tasks.go:435-502 | Groups share no feedback and miss none: the feedback of the groups so far and the next one is that of their items |
| FeedbackGrouping.ActiveAndIdle | master/tasks.go:489-502 | The items pushed with feedback and those pushed without are together all items, each once |
| FeedbackGrouping.LoadFeedback | master/tasks.go:425-502 | For any number of jobs every item is pushed exactly once, with each record of the database that names it and a known user as often as it is there and nothing else; and what enters the dataset is, as a bag, exactly the records of known users and items |
| Leaderboards.TopKFull | common/heap/filter.go:36-41 | Dropping a least element from an overfull top-K keeps it a top-K of everything pushed |
| Leaderboards.PushHeap | common/heap/filter.go:36-41 | A push keeps: the heap holds k best of all elements ever pushed |
| Leaderboards.NonPersonalized.Push | logics/non_personalized.go:86-142 | A push enters the heap of all items and those of its categories; a hidden, filtered or failing item changes nothing; every heap stays a top-K |
| Leaderboards.NonPersonalized.PushEntry | logics/non_personalized.go:135-141 | One entry changes one category, which is created on demand, and keeps every heap a top-K |
| Leaderboards.MergeHeap | logics/non_personalized.go:148-162 | Draining one heap adds its category to each of its items as often as it mentions them, and changes no other tag |
| Leaderboards.MergeAll | logics/non_personalized.go:144-162 | In any order of categories: each item's tags are exactly the heaps that mention it, and its score is one it was pushed with |
| Leaderboards.SortByScore | logics/non_personalized.go:163-168 | All entries, each once, by falling score |
| Leaderboards.NonPersonalized.PopAll | logics/non_personalized.go:144-170 | Each id once, sorted by score, tagged exactly by the heaps that mention it; the heaps are empty afterwards |
| Leaderboards.TrueTopK | logics/non_personalized.go:135-141 | For distinct items of which none enters the heap of c twice, that heap holds min(K, number) of c's items, once each and with their own scores, and every missing one scores at most as much as every one that is there |
| Leaderboards.TrueTopKExactly | logics/non_personalized.go:135-141 | For distinct items, category by category: the heap is a true top K for every K iff no pushed item enters it twice |
| Leaderboards.EntersTwice | logics/non_personalized.go:136-141 | An item that names a category twice is in its heap twice, if there is room for everything |
| Leaderboards.RepeatEvicts | logics/non_personalized.go:136-141 | In a heap for two, an item that names its category twice pushes out every lower one, though there is room for both |
| Leaderboards.NamedTwice | logics/non_personalized.go:86-170 | Two such pushes, after which the popped list lacks the second item in its category |
| Leaderboards.OwnScore | logics/non_personalized.go:148-162 | Whichever heap an entry comes from, its score is that of a pushed item with its id |
| Leaderboards.ListedAreKept | logics/non_personalized.go:144-170 | Merging loses nothing: for distinct items the popped entries tagged with c are exactly the elements of the heap of c, each once |
| Leaderboards.ListedTopK | logics/non_personalized.go:144-170 | Any top K of what entered c, listed once each, is a true top K of its items if every item that enters c twice scores strictly below all others of c |
| Leaderboards.RepeatSpoils | logics/non_personalized.go:135-141 | If an item enters c twice and another one of c scores no more, some top K of what entered c, listed once each, is too short to be a true top K |
| Leaderboards.ListedExactly | logics/non_personalized.go:144-170 | For distinct items, category by category: listing any top K once each gives a true top K iff every item that enters c twice scores strictly below all others of c |
| Leaderboards.PoppedTopK | logics/non_personalized.go:144-170 | The popped entries tagged with c are a true top K of the items of c, for distinct items, under exactly that condition: items that enter c twice score strictly below all others of c |
| Leaderboards.PushThenPop | logics/non_personalized.go:86-170 | The composed program: each id once, by falling score, with the score it was pushed with; for distinct items the entries of each category whose repeated items, if any, score strictly below all others are a true top K of its items |
| Evaluator.OnlineEvaluator.AddFeedback | master/metrics.go:242-267 | The state is the one determined by the set of feedback seen, one element larger; reads outside the window and feedback of neither kind change nothing |
| Evaluator.StateExactly | master/metrics.go:242-267 | An item is recorded as read on a day iff some feedback seen says so, and as positive of a kind iff some feedback seen says so that is not a read outside the window |
| Evaluator.RatioExtremes | master/metrics.go:283 | The share is 1 iff all read items are positive, and 0 iff none is |
| Evaluator.RatioGrows | master/metrics.go:283 | Each further positive read item adds one over the number of read items, any other nothing |
| Evaluator.OrderIndependent | master/metrics.go:242-267 | Two evaluators that saw the same feedback in any order and any number of times have equal state |
| Evaluator.RatioSumPick | master/metrics.go:276-286 | The sum over users does not depend on the map's iteration order |
| Evaluator.EvaluateDay | master/metrics.go:274-297 | A point is emitted iff some reader of that day has positive feedback of that type; it is the average of their ratios and lies in [0, 1] |
| Evaluator.Evaluate | master/metrics.go:269-301 | Exactly one point for each type and day with such a reader, none for others, each the average ratio and within [0, 1] |
| Recommend.Recommender.constructor | logics/recommend.go:57-84 | The exclude set is the set of items with feedback, or empty when replacement is on for an online request |
| ScoreLists.UnseenExactly | logics/recommend.go:171-227 | What is kept of a list is exactly the entries that are not excluded, in order |
| ScoreLists.FirstSeenExactly | logics/recommend.go:104-110 | What is kept of the cached ranking is exactly the entries that are not excluded and are the first ones with their id, in order |
| ScoreLists.FirstSeenAll | logics/recommend.go:104-110 | Without excluded items and repeats the list is kept as it is |
| ScoreLists.PoolExactly | logics/recommend.go:246-263 | The pool has exactly the items with votes that are not excluded, each with the sum of its votes |
| Recommend.Recommender.PullFrom | logics/recommend.go:171-373 | A listed recommender answers with exactly the entries that are not excluded, in order, a pooled one with the ranking of the vote sums of the items that are not excluded, a broken or unknown one with an error |
| Recommend.Recommender.RecommendSequential | logics/recommend.go:126-147 | Result and exclude set are those of the recursive specification, early stop and errors included |
| Recommend.Recommender.Recommend | logics/recommend.go:98-122 | Result and exclude set of the whole chain are those of the specification, for cached rankings and for the ranker "none"; a result from a cached ranking begins with its unseen first entries, in order, as far as the limit reaches |
| RecommendChain.SequentialIsRun | logics/recommend.go:126-147 | The loop asks the recommenders in turn, each with everything answered before excluded, and returns the answers one after the other, cut where the limit is first reached, or all of them if it is not; it fails iff a recommender fails before that |
| RecommendChain.RecommendedIsRun | logics/recommend.go:98-147 | The whole recommendation in these terms: a first list, then a cut at the limit or the fallback recommenders asked in turn |
| Recommend.SequentialPrefix | logics/recommend.go:126-147 | Stopping at a smaller limit gives the beginning of the longer run |
| Recommend.LimitOnlyCuts | logics/recommend.go:98-122 | Whenever the request with the larger limit (or none) succeeds, the one with limit a succeeds and returns exactly its first a entries |
| Recommend.PageIsSlice | server/rest.go:876-885 | For every n and offset: the slice offset..offset+n of the list of any successful request that reaches as far, an unlimited one included, if n is positive; otherwise everything from the offset on or nothing, depending on whether the sum is a limit; a negative offset panics |
| Recommend.PagesTile | server/rest.go:876-885 | Consecutive pages concatenate to the beginning of the list of any successful request that reaches as far: no position is skipped or shown again |
| Recommend.NothingAlreadyRead | logics/recommend.go:57-147 | No result, for any limit, names an item that was excluded at the start |
| Recommend.SequentialRepeats | logics/recommend.go:126-147 | For any limit, a chain repeats an id iff the collected list or one recommender's own list, as far as the limit lets it in, does |
| Recommend.NoRepeats | logics/recommend.go:98-122 | For both first stages and every limit the result is free of repeats iff no recommender whose list reaches it repeats itself there; a cached ranking never does |
| Recommend.RepeatShows | logics/recommend.go:364-371 | An input that repeats: an external list that names an item twice, whose repeat is in the result for every limit that reaches it |
| Recommend.PagesNeverRepeat | server/rest.go:876-885 | Whenever the last page succeeds, consecutive pages never show an item twice iff no recommender repeats itself within them |
| Recommend.DistinctSources | logics/recommend.go:98-147 | Over stored lists without repeats no request, with either first stage and any limit, and no sequence of pages shows an item twice |
| Recommend.DistinctPulls | logics/recommend.go:171-373 | Stored lists without repeats make every pulled list free of repeats, whatever was excluded before |
| Recommend.CutOffIsLost | logics/recommend.go:111-121 | With ranker "none", what was pulled beyond the cache size cannot come back through any fallback |
| Overfetch.FewAreRead | server/rest.go:706-709 | A list without repeats loses at most one entry per read item |
| Overfetch.EnoughUnread | server/rest.go:706-725 | Fetching as many extra entries as there are read items suffices to know the first n unread ones |
| Overfetch.GetLatest | server/rest.go:676-738 | For n > 0 the page equals filtering the full list and then slicing offset..offset+n; without a positive n it is the unread part of what the widened limit fetches, from the offset on; a negative offset panics |
| Overfetch.SearchDocuments | server/rest.go:599-674 | For n > 0 and a rank to start from, the page equals the first n unread entries at that raw rank or later; otherwise it is the unread part of what the store finds for the widened range, cut to n if n is positive |
| Overfetch.TakeAndDrop | server/rest.go:727-730 | The first n entries and those behind them are the list, and there are n of the former unless the list is shorter |
| Overfetch.LatestPagesTile | server/rest.go:727-730 | Consecutive pages of the latest items are consecutive stretches of the unread list |
| Overfetch.DocumentPagesDisjoint | server/rest.go:633-659 | Two consecutive pages are disjoint iff the first window has no read item or nothing unread follows it |
| Overfetch.DocumentPagesOverlap | server/rest.go:633-659 | An input where they overlap: three entries, the first one read, pages of one entry |
| Idf.Clamp | dataset/dataset.go:163 | The weight is the larger one of the logarithm and a thousandth |
| Idf.Weights | dataset/dataset.go:159-199 | Clamping every id's logarithm gives weights for which every list of valid ids is positively weighted, as the distance laws require |
| Idf.CommonIsIntersection | logics/item_to_item.go:354-369 | For sorted lists, duplicates included, the merge finds the bag intersection |
| Idf.NothingCommon | logics/item_to_item.go:354-369 | For sorted lists the merge counts the bag intersection, and nothing iff the lists are disjoint |
| Idf.WeightedSumCommonElements | logics/item_to_item.go:354-369 | Count and sum are size and total weight of the bag intersection |
| Idf.WeightOfBag | logics/item_to_item.go:371-377 | A list's weight depends on its bag of elements only |
| Idf.SumWeights | logics/item_to_item.go:371-377 | The loop computes the total weight |
| Idf.ComputeDistance | logics/item_to_item.go:337-352 | The computed value is the distance of which the laws below speak |
| Idf.DistanceLaws | logics/item_to_item.go:337-352 | Symmetric; within [0, 1]; 0 iff the lists are equal; for unequal lists with k common elements strictly between 100/(k+100) and 1; for sorted lists k is the size of the bag intersection and the distance is 1 iff the lists are unequal and disjoint |
| Idf.DistanceValue | logics/item_to_item.go:337-352 | For unequal sorted lists with something in common, one minus the distance times the product of the roots is the weight of the bag intersection, shrunk by k / (k + 100) |
| Idf.ScoreBand | logics/item_to_item.go:115-129 | Every neighbour's score lies in [1/2, 1), is 1/2 iff nothing is shared, and with k shared elements stays strictly below (k+100)/(k+200) |
| Idf.AutoLaws | logics/item_to_item.go:331-333 | The average of two distances has the same range, symmetry and zero law, and for sorted lists is 1 iff both pairs are unequal and disjoint |
| LabelTree.AddKey | dataset/dict.go:32-43 | The key's frequency rises by one, all others stay, and the id is its position |
| LabelTree.ProcessLabels | dataset/dataset.go:366-390 | The dictionary gains exactly the tree's keys, each frequency by its number of leaves, and the result is the tree with every leaf replaced by its id |
| LabelTree.ProcessFields | dataset/dataset.go:368-373 | The same for the fields of an object in any iteration order |
| LabelTree.ProcessElems | dataset/dataset.go:379-382 | The same for an all-string list |
| LabelTree.ImageStable | dataset/dataset.go:366-390 | Trees loaded later never change the ids of earlier ones |
| LabelTree.FlattenOfImage | logics/item_to_item.go:379-392 | Flattening a loaded tree gives exactly the ids of its string leaves and all-string lists |
| LabelTree.LeavesAreKeys | dataset/dataset.go:366-390 | The keys added are path, ':' and value of the leaves, in order |
| LabelValues.TimesExactly | dataset/dataset.go:366-390 | Following field names leads to a string, or to an all-string list with it, iff the tree has that value at that path at least once |
| LabelValues.LeavesAreValues | dataset/dataset.go:366-390 | The leaves are exactly the values that the tree has, each path and value as often as the tree has it |
| LabelValues.ListKeys | dataset/dataset.go:379-382 | A list of strings adds one key per element, in order |
| LabelValues.RestKept | dataset/dataset.go:366-390 | What is neither a string nor a list of strings is kept: the numbers of a list and the field names of an object in order, the rest as it is |
| LabelValues.CollectedExactly | logics/item_to_item.go:379-392 | Under plain field names the id of a path and value is collected from a loaded tree iff the tree has that value there |
| LabelValues.LoadAndCollect | dataset/dataset.go:366-390 | The composed program: load a tree and collect its ids; under plain names an id is collected iff the tree has its value, and each key's frequency rises by the number of times the tree has it |
| LabelTree.KeysTellApart | dataset/dataset.go:371-386 | If field names contain neither '.' nor ':', two keys are equal iff path and value are |
| LabelTree.SameIdExactly | dataset/dataset.go:366-390 | In two trees with plain names, loaded into one dictionary, a leaf of the one and a leaf of the other have the same id iff they have the same path and value |
| LabelTree.CommonIdsAreCommonLeaves | logics/item_to_item.go:379-392 | Of two trees with plain names, loaded one after the other, the common ids of the flattened results are exactly the ids of the common leaves, and as many |
| LabelTree.DotCollides | dataset/dataset.go:366-390 | In the tree {x.y: v, x: {y: v}} the two leaves differ and have one id, for any dictionary |
| LabelTree.ColonCollides | dataset/dataset.go:366-390 | In the tree {x:y: v, x: y:v} the two leaves differ and have one id, for any dictionary |
| LabelTree.SafeNamesExactly | dataset/dataset.go:366-390 | For any admissible field names that can be cut at separators: no tree over them, loaded into any dictionary, has two different leaves with one id iff no admissible name contains either separator |
| UnifiedIndex.UnifiedMapIndex.EncodeUser | dataset/unified_index.go:210-212 | Users are block 0 of the numbering: a known user has its position, any other name -1 |
| UnifiedIndex.UnifiedMapIndex.EncodeItem | dataset/unified_index.go:215-221 | Items are block 1: a known item has its position after the users, any other name -1 |
| UnifiedIndex.UnifiedMapIndex.EncodeUserLabel | dataset/unified_index.go:224-230 | User labels are block 2: a known one has its position after users and items, any other name -1 |
| UnifiedIndex.UnifiedMapIndex.EncodeItemLabel | dataset/unified_index.go:233-239 | Item labels are block 3: a known one has its position after users, items and user labels, any other name -1 |
| UnifiedIndex.UnifiedMapIndex.EncodeContextLabel | dataset/unified_index.go:242-249 | Context labels are block 4: a known one has its position after all other blocks, any other name -1 |
| UnifiedIndex.UnifiedMapIndex.Len | dataset/unified_index.go:203-207 | The length is the total of the five blocks, the end of the numbering |
| UnifiedIndex.NumberInjective | dataset/unified_index.go:203-249 | NotId exactly for unknown names; known (kind, name) pairs get numbers in 0..Len-1, different pairs different ones |
| UnifiedIndex.NumberSurjective | dataset/unified_index.go:203-249 | Every number in 0..Len-1 is the number of a known pair |
| UnifiedIndex.AddAllDistinct | dataset/index.go:110-129 | Re-adding names keeps the list iff the names are distinct; otherwise it gets shorter |
| UnifiedIndex.IndexRoundTrip | dataset/index.go:94-129 | A written index followed by any bytes leaves those bytes, and is read back unchanged iff its names are distinct |
| UnifiedIndex.NamesLayout | dataset/index.go:94-108 | A written index is its length in four bytes, then name by name the length in four bytes and the bytes, in order |
| UnifiedIndex.ReadIndexExactly | dataset/index.go:111-129 | Exactly the bytes of some written list, followed by the rest, are read as an index, whose names are those of the list added one by one |
| UnifiedIndex.BlocksRoundTrip | dataset/unified_index.go:272-294 | Five (or any number of) written indices read back unchanged, leaving any suffix |
| UnifiedIndex.MarshalIndex | dataset/index.go:94-108 | The writer loop produces exactly the specified bytes |
| UnifiedIndex.UnmarshalIndex | dataset/index.go:111-129 | On any bytes the reader succeeds iff the specification does, with the same names and the same rest, and the rebuilt maps are inverse to each other |
| UnifiedIndex.UnifiedMapIndex.Marshal | dataset/unified_index.go:272-281 | Users, items, user labels, item labels and context labels, one written index after the other |
| UnifiedIndex.UnmarshalBlocks | dataset/unified_index.go:284-294 | The five indices read in block order, or failure |
| UnifiedIndex.MarshalUnifiedIndex | dataset/unified_index.go:56-77 | The byte 0 and the five blocks of a map index, the byte 1 and the number of a direct one, or the byte 2 alone for no index |
| UnifiedIndex.UnmarshalUnifiedIndex | dataset/unified_index.go:80-104 | On any bytes: success iff well formed; nil, a direct index with its number, or a valid map index with the decoded blocks, and the same rest as the specification |
| UnifiedIndex.ReadUnifiedExactly | dataset/unified_index.go:80-104 | The byte 2 exactly means no index, the byte 1 and four bytes exactly a direct one with that number; a map index is only read from the byte 0 and five written lists, whose names are added one by one |
| UnifiedIndex.UnifiedRoundTrip | dataset/unified_index.go:56-104 | The written form of each kind of index, followed by any bytes, decodes to the same content and leaves the bytes |
| UnifiedIndex.MarshalThenUnmarshal | dataset/unified_index.go:56-104 | The composed program rebuilds an index with the same length and, for every string, the same five numbers, and leaves the suffix |
| WakeUp.InvStep | master/master.go:299-320 | Every step of loop, ticker, panics and requests keeps the invariant |
| WakeUp.InvRun | master/master.go:299-320 | So does every run |
| WakeUp.NoLostWakeUp | master/rest.go:576-582 | In every interleaving, a completed request has a token pending, a loop about to begin a run, or a latest run that began after its write and after its own cancellation |
| WakeUp.QuietMeansUpToDate | master/rest.go:1956-1960 | Once nothing is pending, the latest run saw every write and no request cancelled it |
| WakeUp.DrainsToQuiet | master/master.go:305-319 | A loop that is alive and whose runs return empties the channel and waits again within five steps, and is quiet if no request is under way |
| WakeTrace.StateIsTrace | master/master.go:299-320 | After any run the state is a summary of it: a run of the task began at the last Begin, it is cancelled iff a request cancelled after that, and the channel is full iff something was sent and not received since |
| WakeTrace.RequestIsTrace | master/rest.go:576-582 | The times recorded for a request are those of its own write and send |
| WakeUp.DeadForever | master/master.go:299-300 | After a panic no run ever begins again |
| WakeUp.AnsweredExactly | master/master.go:299-320 | After any run, panics included: a completed request has been or can still be answered by a run that begins after it iff it has been answered already or the loop is alive |
| WakeUp.PanicLosesRequest | master/master.go:299-320 | A run in which it is lost: a request during a run that panics, whose token nobody reads in any continuation |
| Publication.InvStep | master/tasks.go:912-977 | Every guarded step of training, clean-up, failure or crash, a silently lost upload included, keeps all ids good, uploads apart from models in use, and clean-ups off models in use or saved |
| Publication.InvRun | master/tasks.go:912-977 | So does every run |
| Publication.NeverDangles | master/tasks.go:912-977 | After every run, with any failed or silently lost uploads, failed saves and removals and any crashes, in which ids are fresh, no blob is published that is not there and no clean-up starts while a saved model is older than both in use, every model id in memory and in the store names a completely uploaded model of its kind |
| Publication.MemoryNeverDangles | master/tasks.go:1102-1128 | After every run, with any lost saves and any clean-ups, stale ones included, in which new ids differ from the two in memory, no lost upload is published and each crash reloads ids of stored models, both ids in memory name completely uploaded models of their kind |
| Publication.MemoryStepExactly | master/tasks.go:912-977 | After any such run a step keeps both ids in memory good iff it meets those conditions (for a training, one whose blob is visible while it is written) |
| Publication.OneProcessNeverDangles | master/tasks.go:912-977 | In the life of one process, with any noticed failures, lost saves and clean-ups, both ids in memory stay good if new ids differ from them |
| Publication.NoFailedSave | master/tasks.go:956-959 | If no save and no upload is lost, the guards on publishing and on clean-ups hold by themselves, whatever else fails |
| Publication.PersistedNeverDangles | master/tasks.go:1036-1098 | In every run where no save and no upload is lost and ids are fresh, with any crashes and any failures that are noticed, all ids in memory and in the store are good |
| Publication.StaleDangles | master/tasks.go:1102-1128 | A clean-up that starts while a saved model is older than both in use can remove it, and after a crash the id in memory names nothing |
| Publication.CleanUpExactly | master/tasks.go:1102-1128 | After any careful run: from a clean-up on, every careful continuation is good iff no saved model is older than both models in use when it starts |
| Publication.FreshIdExactly | master/tasks.go:1050-1076 | After any careful run: from the first byte of an upload on, every careful continuation is good iff no metadata refers to the new id |
| Publication.PublishExactly | master/tasks.go:945-953 | After any careful run and an upload that reported no error: from publishing on, every careful continuation is good iff the blob is there |
| Publication.LostUploadDangles | storage/blob/s3.go:60-72 | A run with neither a failed save nor a crash, in either kind of store, after which the ids in memory and in the metadata store name no model |
| Publication.FailedSaveDangles | master/tasks.go:956-959 | A concrete run with one lost save after which the id in memory names no blob |
| SlotPush.InvBounds | logics/item_to_item.go:237-244 | Under the invariant a fill hits an existing, empty slot |
| SlotPush.InvStep | logics/item_to_item.go:237-244 | Every step of any push keeps the invariant |
| SlotPush.InvRun | logics/item_to_item.go:275-282 | Every interleaving stays in bounds and keeps the invariant |
| SlotPush.FillsAreSafe | logics/item_to_item.go:275-282 | In every interleaving each fill is in bounds and its slot is still empty, so no slot is written twice |
| SlotPush.AllDone | logics/item_to_item.go:321-328 | When all pushes are done there are as many slots as vectors and pushes, none is empty, and slot j holds the item whose vector has number j |

## Left out

What the repository does and the model does not:

- HTTP routing, login, filters, dashboards, gRPC and the handlers that only forward to the database.
- Storage backends and Redis and SQL semantics: lists, maps and byte sequences here. Of the blob stores only what a trainer sees of an upload is modelled.
- Approximate nearest-neighbour search, model fitting, hyper-parameter search, external scripts and OpenAI calls.
- The embedding variant of the item-to-item push and the one for matrix-factorisation items: on a dimension mismatch they return while holding the lock (logics/item_to_item.go:176-182), so the slot protocol is claimed for tags, users and auto only.
- The numbering of the direct index, which takes numbers literally and is marked for unit tests only; its serialised form is modelled.
- Separation of positive and negative samples for click-through prediction; the loader does not subtract one from the other.
- User-to-user similarity: it sorts the feedback row of a user in place, so the alignment of times is claimed up to the splits only.

What is abstracted inside the modelled parts:

- Numbers: scores, weights and ratios are reals, counters are unbounded; float rounding and int32 overflow are not modelled. Square roots are parameters `s` with `s >= 0` and `s * s == w`; a logarithm is an arbitrary number that is then clamped.
- Dump and restore: the protobuf and JSON encodings are a pair of functions of which only "decoding undoes encoding" is used; a label that does not parse counts as a record that does not parse. Real records always have label bytes or a timestamp, so they are never empty. Errors while writing the response or reading the database are not modelled, nor is the time in the statistics. The database refuses at most one call, which is enough because the restore stops there.
- DumpRestore.Restore: a length field too large to allocate makes the Go code panic; here the record is unreadable, like any record that is cut short, and the restore fails.
- Splits: the random picks, the sampled users and the order that sorting gives to equal times are parameters, so the theorems hold for all of them. Labels and category counts of users and items are not in this model of the dataset.
- Dataset.Dataset.AddFeedback: the loader calls it from parallel goroutines outside its mutex (master/tasks.go:484); here it is one sequential step.
- Dataset.Dataset.SplitCF: requires as many sampled users as test users, distinct ones, as sampling without replacement gives, and that events refer to listed users and items, which holds for aligned datasets; rows behind the user list would be skipped and indices behind the item list would panic.
- LabelIndexing.LoadLabels: user ids are distinct, so a row is never reset by a second user of the same id; embeddings are not loaded.
- FeedbackGrouping.LoadFeedback: item ids are distinct and only compared, so they are integers; the database stream is one list ordered by item id, as the query asks for, already limited to the feedback types and times of the query; groups are processed one after the other.
- Leaderboards.NonPersonalized.Push: the score and filter expressions are an optional score parameter; the heap is a list from which some least element is dropped. Which of an item's scores is reported when it was pushed more than once depends on the order of categories and is not fixed, so the top-K claims are about distinct items.
- Evaluator.OnlineEvaluator.AddFeedback: timestamps are day numbers; whether a type and value match the configured expressions is a parameter.
- Recommend.Recommender.PullFrom: what the store holds is a parameter, `rank` stands for the top-K selection over pooled scores and the category filter after it, and it is assumed to be a function, so ties are resolved the same way in each request. Categories, digests and timestamps of scores are not modelled.
- Recommend.PagesTile: it is about pages of positive size in order; requests see the same store and the same exclude set, so no write-back of feedback happens between pages.
- Overfetch.GetLatest: what the database returns for a limit that is not positive differs between backends and is a parameter; item ids are distinct.
- Overfetch.SearchDocuments: what the store returns for a negative rank or an inverted range differs between backends and is a parameter; the ids of a stored list are distinct.
- UnifiedIndex.UnmarshalIndex: a negative length, on which the Go code panics, is an error here; so is a name that is cut short; a reader that reports its end together with an empty last name is not modelled.
- LabelTree.Flatten: a function that returns the set instead of a procedure that fills one; interning of field names has no effect on results and is left out.
- WakeUp.NoLostWakeUp: the unsynchronised access to the cancel function is one atomic step here, and what a run does with its context is not modelled.
- Publication.NeverDangles: a writer that blocks for ever, because its store stopped reading, is a run without further steps but a crash; blobs whose names are not numbers are skipped by the clean-up and not modelled; that no metadata refers to the Unix second of a new training is a guard of the runs, whose exactness is stated separately.
- SlotPush.AllDone: adding a vector to the index is one atomic step that returns the next number, as the index promises; pushes of hidden items end before the protocol begins.
