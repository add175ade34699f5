# Verified model of adtler's hard parts

adtler is a Go client for the ADT interface of SAP systems. This project models the parts of it that
are algorithms or protocols and proves what their documentation and tests promise. The network, XML,
files and the SAP system itself are arbitrary answers: a property that depends on the server says what
it assumes of it, all others hold for every server.

Run `dafny verify dfyconfig.toml` (Dafny 4.11) in this directory.

| file | what it models |
|---|---|
| `Wrappers.dfy`, `Text.dfy` | optional values; splitting, joining and case of strings |
| `QueryWrap.dfy`, `SqlPieces.dfy` | re-wrapping long SQL lines (`adt/query_wrap.go`) |
| `Patch.dfy` | source patches (`adt/patch.go`) |
| `TokenSource.dfy` | the single-flight token refresh (`adt/tokensource.go`) |
| `Client.dfy` | CSRF preflight, request and retry (`adt/client.go`) |
| `DataPreview.dfy`, `SentText.dfy` | which statements are sent, and what arrives of them (`adt/query.go`) |
| `AbapSql.dfy`, `ExportQuery.dfy`, `Export.dfy` | key-based pagination (`adt/abapsql.go`, `adt/custexport/export.go`) |
| `ExportPool.dfy` | the worker pool of the export (`adt/custexport/export.go`) |
| `RestorePlan.dfy`, `RollbackReport.dfy`, `RollbackTargets.dfy`, `Deletion.dfy`, `Rollback.dfy`, `RollbackVerdicts.dfy`, `RollbackTransport.dfy` | rolling a transport back (`adt/rollback.go`) |
| `Dependencies.dfy` | the DDIC dependency walk (`adt/dependencies.go`) |
| `TransportQuery.dfy`, `Transport.dfy`, `TransportObjects.dfy` | the paged request list and the object deduper (`adt/transport.go`, `adt/types.go`) |
| `TextElements.dfy` | the text-element format (`adt/textelements.go`) |

Loops and objects of the program are methods and classes here, each proved against a function; what
the program promises is then proved of that function. The refresh protocol and the worker pool are
step systems, so their results hold for every interleaving. For the export and the request list the
server reads the text it is sent, as a statement, and evaluates what it has read. Strings are sequences
of code points, and upper and lower case are those of ASCII.

## Where code and documentation differ

- The rollback documents that nothing is sent after a 401. Lookups, restores, origin checks and deletes
  each stop at one, with a restore as one step: inside it the best-effort unlock discards its result
  (`adt/rollback.go:574-578`) and the activation swallows the error of its verification read
  (`adt/activate.go:50-53`), so a restore may follow a 401 answered inside an earlier one. Between the
  steps, objects confirmed before a 401 on an origin check are still deleted:
  `Rollback.GoesOnAfter401Exactly` says exactly when a request follows a 401, over the whole call, and
  `Rollback.DeleteFollowsA401` gives a rollback that sends one.
- The export documents that its clause has no length limit and that it reads every table completely. A
  key value with a semicolon makes `RunQuery` refuse the statement, a line break cuts it into lines that
  cannot be read, and one longer than a line cannot be wrapped. `Export.ExportCompletesExactly` says
  exactly which tables are exported, and `Export.SemicolonStopsTheExport` gives one that is not; the
  export never reports a table it could not read to the end.
- Re-wrapping drops a comment rather than moving it, because a moved comment would become live SQL. For
  the S/4 reading, where an indented `*` is a comment too, an overlong comment line that starts with a
  blank is not dropped, and its continuation lines become live.
  `QueryWrap.StatementKeepsLiveWordsOnS4Exactly` gives the exact condition and
  `DataPreview.CommentBecomesSql` a statement that is accepted and sent.
- Selection texts survive printing and parsing with an empty name as well, because the name is padded;
  text symbols need a non-empty key. Both round trips are proved as equivalences.
- The object deduper tells objects apart unless their kinds (program id and type) clash: the beginning
  of one kind's keys is the beginning of the other's (`TransportObjects.ClashExactly`,
  `TransportObjects.KeepsAllExactly`). Kinds without a slash never do; a slash alone does not make them.

## Model

| member | source | states |
|---|---|---|
| QueryWrap.SqlWords | adt/query_wrap.go:146-183 | The lexer loop gives exactly the words of the line and whether a literal is left open, as the character-by-character automaton reads them. |
| QueryWrap.LexGivesWordList | adt/query_wrap.go:136-183 | Every word is non-empty and closed before the blank that ends it, except a last one left open: no literal is ever split. |
| QueryWrap.LexOfJoin | adt/query_wrap.go:136-183 | Words joined with single blanks are read back as the same words. |
| SqlPieces.WholeExactly | adt/query_wrap.go:136-183 | The lexer keeps a text together, and nothing open, exactly when it is plain text, literals in either quote and templates whose inner bars are escaped, side by side. |
| SqlPieces.WordsAreWhole | adt/query_wrap.go:136-183 | On every line each word is whole but the last, which is when nothing is left open. |
| SqlPieces.WholeWordsAreRead | adt/query_wrap.go:136-183 | Whole words are read as they are, and a double quote behind them begins a comment. |
| SqlPieces.GroupsAreExact | adt/query_wrap.go:73-81 | The units are the words, those that begin with a star glued to the word before them. |
| SqlPieces.PackIsGreedy | adt/query_wrap.go:83-107 | The lines hold the units in order; one of several units has at most 200 characters, and the next unit would have made it longer. |
| QueryWrap.MergeStars | adt/query_wrap.go:73-81 | A word starting with '*' is glued to the word before it, so no continuation line can start with it. |
| QueryWrap.PackLines | adt/query_wrap.go:83-107 | The packing loop gives the greedy packing of the words. |
| QueryWrap.WrapSQLLine | adt/query_wrap.go:68-125 | A comment line is dropped; otherwise the packing of the line if all of it fits, else the error: the literal it leaves open, or the word on the first line of the packing that does not fit. |
| QueryWrap.WrapKeepsWords | adt/query_wrap.go:68-125 | The words of the wrapped lines, read line by line, are exactly the words of the line, and the last line is left open exactly when the line was. |
| QueryWrap.PackFits | adt/query_wrap.go:83-124 | Any line of two or more words stays within the wrap width, so the packing fits exactly when each word fits on a line of its own. |
| QueryWrap.WrapFailsExactly | adt/query_wrap.go:83-124 | The wrap fails exactly when some star-merged word with its indent is longer than 255 characters. |
| QueryWrap.OverlongLineIsOneUnit | adt/query_wrap.go:109-124 | A line that does not fit holds a single word, the one the error names. |
| QueryWrap.WrapComments | adt/query_wrap.go:59-82 | The wrap makes no comment: its first line is a full-line comment exactly when the line was, the others never. |
| QueryWrap.WrapKeepsLiveWordsOnECC | adt/query_wrap.go:59-125 | For a reader that takes '*' in column 1 as a comment, the wrap keeps the live words of every line. |
| QueryWrap.WrapKeepsLiveWordsOnS4Exactly | adt/query_wrap.go:59-125 | For a reader that also takes an indented '*' as a comment, the wrap keeps the live words exactly unless the line is such a comment and needs more than one line. |
| QueryWrap.WrapLongSQLLines | adt/query_wrap.go:30-57 | A statement without long lines is unchanged, one with them has each re-wrapped in order, and the error names the first line that cannot be wrapped and why. |
| QueryWrap.RewrapLeavesNoLongLine | adt/query_wrap.go:22-57 | What comes out has no line over 255 characters, so a second pass changes nothing. |
| QueryWrap.WrapLines | adt/query_wrap.go:43-56 | Long lines are replaced by their wrap, in order, up to the first that cannot be wrapped. |
| QueryWrap.StatementKeepsLiveWordsOnECC | adt/query_wrap.go:30-57 | For a reader that takes only * in column 1 as a comment, the text of a re-wrapped statement has the live words of its lines. |
| QueryWrap.StatementKeepsLiveWordsOnS4Exactly | adt/query_wrap.go:30-67 | For a reader that also takes an indented * as a comment, a re-wrapped statement keeps its live words exactly when no long line is such a comment of more than one line. |
| DataPreview.RunQuery | adt/query.go:15-46 | What is sent of a statement: it is trimmed, refused when empty, when it does not begin with SELECT, when it holds a semicolon or when a line cannot be wrapped, and otherwise sent re-wrapped with the row limit. |
| DataPreview.RowLimit | adt/query.go:48-50 | The row limit sent is the one asked for, and 1000 when none that is positive is asked for. |
| DataPreview.OneLineIsRewrapped | adt/query.go:38-46 | A statement of one line arrives with all its words, on either reading of comments, unless it is long and cannot be wrapped. |
| DataPreview.CommentBecomesSql | adt/query.go:38-46 | A statement RunQuery accepts and sends whose second line, an indented comment, becomes live SQL for the S/4 reading. |
| Patch.ApplyPatchOps | adt/patch.go:63-117 | Line ops succeed exactly when all are in range of the original source and pairwise disjoint, and then equal simultaneous application to the original line numbers; the search ops follow one after the other, each replacing what its own all says, and the first that is not found fails the patch. |
| Patch.BottomUpIsSimultaneous | adt/patch.go:95-103 | Applying the ops bottom-up in place equals applying them all at once. |
| Patch.SortedIsSame | adt/patch.go:75-103 | For every arrangement the unstable sort may leave, the neighbour test and the loop decide applicability and give the same result, a function of the set of ops. |
| Patch.NeighboursSuffice | adt/patch.go:80-93 | On a sorted list of well-formed ops, neighbours being disjoint is all pairs being disjoint. |
| Patch.ApplyAllSucceeds | adt/patch.go:95-103 | The loop succeeds exactly when every op is in range of the original line count. |
| Patch.PairwiseApartAnyOrder | adt/patch.go:63-93 | Disjointness does not depend on the order of the ops. |
| Patch.SortDescending | adt/patch.go:75-78 | A descending permutation; nothing is promised about ties. |
| Patch.CheckNeighbours | adt/patch.go:80-93 | The loop accepts exactly lists without overlapping neighbours. |
| Patch.ApplySearchReplace | adt/patch.go:133-159 | Fails exactly when the search text is empty or occurs neither as written nor with CRLF line ends; otherwise, with the search text as written or else both texts with CRLF line ends, without all the leftmost occurrence is replaced and nothing else, with all every one of the leftmost non-overlapping occurrences. |
| Patch.ReplaceFirstSplits | adt/patch.go:148-158 | The replacement rewrites exactly the leftmost occurrence. |
| Patch.ReplaceAllJoins | adt/patch.go:155-158 | Replacing all cuts the text at the leftmost occurrence, the rest likewise, and joins the parts with the replacement. |
| Patch.ApplySearchesIsRight | adt/patch.go:108-114 | The texts between the search ops, from the patched lines to the result or to the first op that is not found. |
| Patch.OpsAreSeparated | adt/patch.go:64-73 | Every op of the patch is a line op or a search op, none is lost or doubled. |
| Patch.SearchOpsInOrder | adt/patch.go:64-73 | The search ops keep the order of the patch. |
| Patch.ToCRLFExactly | adt/patch.go:161-166 | The one text that is the same apart from line ends and in which every line feed follows a carriage return. |
| Patch.ToCRLFIsIdempotent | adt/patch.go:164-166 | Realigning line ends twice is realigning them once. |
| TokenSource.Source.Enter | adt/tokensource.go:98-116 | The first critical section: already refreshed, join the refresh in flight, or start one. |
| TokenSource.Source.RecordReturn | adt/tokensource.go:131-137 | The owner records the callback's outcome; a panic leaves errRefreshAborted. |
| TokenSource.Source.Publish | adt/tokensource.go:123-128 | The deferred section stores the token only after success and clears the refresh in flight. |
| TokenSource.Source.Close | adt/tokensource.go:129-129 | Releases the waiters. |
| TokenSource.OneCallbackAtATime | adt/tokensource.go:94-138 | In every interleaving at most one refresh callback runs, and its argument is the current token for its whole run. |
| TokenSource.RefreshesFollowTokens | adt/tokensource.go:94-138 | Successful refreshes are, in order, one for each token that was current. |
| TokenSource.NoTokenRefreshedTwice | adt/tokensource.go:94-138 | If callbacks return only new tokens, no token is refreshed successfully twice. |
| TokenSource.NoWaiterOrphaned | adt/tokensource.go:103-130 | A joined call is done or owned by another request that is still in the callback or in finish. |
| TokenSource.ReleasedWaiterGetsOwnersOutcome | adt/tokensource.go:105-138 | A released waiter gets the owner's outcome, errRefreshAborted after a panic; a nil outcome means the new token was stored before. |
| TokenSource.WaiterCanBeReleased | adt/tokensource.go:103-138 | From every reachable state the owner's own steps release the waiter, whatever the callback does. |
| TokenSource.NextAttemptStarts | adt/tokensource.go:88-116 | A failed refresh does not stick: the next 401 with the current token starts one exactly when none runs. |
| TokenSource.StepKeepsInv | adt/tokensource.go:94-138 | Every step of every request keeps the invariant of the shared memory. |
| TokenSource.StepMovesOne | adt/tokensource.go:94-138 | Every step moves its own request and no other; a cancelled waiter is told so, and a released one what its call came to. |
| TokenSource.EveryTurnIsRight | adt/tokensource.go:94-138 | In every run, whenever a request moves on: a sent token that is not current answers nil at once and changes nothing; an owner ends with nil, the refresh error or a crash exactly as its callback returned, failed or panicked; a waiter gets the owner's outcome or its own cancellation. |
| TokenSource.NilMeansNewToken | adt/tokensource.go:77-138 | From its check to its end, a request gets nil only if the token it sent was no longer current or a refresh has stored a new token since; a failed refresh is returned as its error. |
| Client.Session.FetchCSRFToken | adt/client.go:433-483 | The preflight: what it sends; a 401 clears the stored token, any other reply stores its token and whether its cookies are Secure, no reply changes either, and only a successful reply with a body replaces the discovery document kept for content negotiation. |
| Client.Session.EnsureCSRF | adt/client.go:508-530 | A token at hand means no preflight; otherwise one is sent, and when it is rejected and the token can be refreshed it is refreshed once and the preflight repeated, so a 401 ends it only behind a successful refresh or without one to make; every event is what the outside answered. |
| Client.Session.DoRead | adt/client.go:631-687 | For every server: at most two requests and two refreshes, every event allowed by the protocol and answered by the outside, the preflight left out exactly when a token was at hand, and the result is the last reply or an error explained by the last two events. |
| Client.Session.DoMutate | adt/client.go:733-796 | The same for mutating requests, whose first request carries the token the preflight got or the session held, with the retry after 403 and the Secure-cookie explanation given exactly when the preflight before the second 403 set Secure cookies. |
| Client.DisciplinedPrefix | adt/client.go:508-796 | Every event of a call was allowed at its place. |
| Client.AfterA401 | adt/client.go:508-796 | When the credential cannot be refreshed a 401 is the last event, whichever request it answered; otherwise the refresh of the rejected token follows it. |
| Client.SameBody | adt/client.go:733-796 | Every request of one call carries the same body. |
| AbapSql.LiteralRoundTrip | adt/abapsql.go:40-42 | Reading a quoted escaped literal returns the value, for every value. |
| AbapSql.ChainMeansLexicographic | adt/abapsql.go:75-97 | For any number of keys the OR-chain holds of a row exactly when its key tuple is strictly beyond the given values in lexicographic order, ascending or mirrored. |
| AbapSql.BuildPaginationWhereTyped | adt/abapsql.go:75-97 | The nested loops print exactly that chain; nothing for no keys or unequal lengths. |
| AbapSql.TimesAreCast | adt/abapsql.go:57-69 | A key is compared as CAST( f AS CHAR( 6 ) ) exactly when its type is TIMS, in whatever case. |
| AbapSql.BuildExportSQLTyped | adt/abapsql.go:117-150 | The statement text, refused exactly when a name is not an identifier. |
| AbapSql.ValidateIdentifiers | adt/abapsql.go:15-23 | Accepts exactly lists of identifiers. |
| AbapSql.ReadConditionBack | adt/abapsql.go:75-97 | A reader of the printed words gets back the condition. |
| AbapSql.LexOfStatement | adt/abapsql.go:117-150 | The lexer of the data preview reads the statement as exactly its words, whatever the values hold. |
| ExportQuery.ReadSelectBack | adt/abapsql.go:125-150 | The words of the statement are read back as its table, its condition and its order. |
| ExportQuery.BrokenStatementIsNotRead | adt/abapsql.go:40-42 | A statement with a line break in a value is not read, however its lines are wrapped. |
| ExportQuery.StatementArrivesExactly | adt/abapsql.go:117-150 | What RunQuery sends of the statement is read as the query that was meant exactly when no value holds a semicolon or a line break and, if the statement is long, every word fits on a line; otherwise it is not sent or not read. |
| Export.FilterNonMandtKeys | adt/abapsql.go:27-35 | Drops exactly the client columns, keeping the order. |
| Export.ExtractKeyValues | adt/custexport/export.go:300-315 | The key values of a row, or none exactly when some key has no value in it. |
| Export.ExportTable | adt/custexport/export.go:191-280 | The page loop against the transcript of the server: its result, and every request it sends, each the statement for the rows after the last key values. |
| Export.EveryQueryContinuesAPage | adt/custexport/export.go:191-280 | For every server: each query after the first asks for what comes after the last row of the full page before it, never repeats the query before, and its request is what RunQuery makes of its statement. |
| Export.OnlyCompleteExports | adt/custexport/export.go:191-280 | For every server: success means the last page was short, and the rows are those of all pages in order. |
| Export.EveryEndIsExplained | adt/custexport/export.go:191-280 | For every server: each way the export can end has its own reason, at the page it names. |
| Export.ClientDoesNotOrder | adt/abapsql.go:27-35 | With a constant client, ordering by all keys is ordering by the others. |
| Export.ServedPage | adt/custexport/export.go:191-280 | After a row the condition selects exactly the rows behind it. |
| Export.ReplyAfter | adt/custexport/export.go:208-218 | A server that reads what it is sent answers the statement for the rows after a row with exactly the rows behind it, or the query fails, exactly as the key values of that row allow. |
| Export.ExportsAllRows | adt/custexport/export.go:191-280 | From any page on, the loop ends with the remaining rows exactly once, in order, after n / pageSize + 1 pages, or with an error at the first page that cannot be asked for. |
| Export.ExportCompletesExactly | adt/custexport/export.go:181-280 | On a fixed table, read by a server from the statements it is sent, with a constant client and unique keys when there is a key to paginate on and any rows at all when there is none: success exactly when there is a key to paginate on, or less than a page, and no key value at a page boundary stops it; then every row exactly once, in order, in n / pageSize + 1 pages; otherwise an error at the first page that cannot be asked for, never a shorter table. |
| Export.ExportsKeyless | adt/custexport/export.go:242-250 | Without a key besides the client, for any rows in any order, also equal ones: if the query can be asked, all rows when they are fewer than a page, and an error otherwise. |
| Export.SemicolonStopsTheExport | adt/custexport/export.go:208-218 | A concrete table whose export fails before its second query is sent, because a key value holds a semicolon. |
| ExportPool.Workers | adt/custexport/export.go:330-336 | The configured number of workers when it is between 1 and 40, 20 when none is configured, and 40 when more are. |
| ExportPool.Consume | adt/custexport/export.go:407-441 | The consumer's loop computes the counters. |
| ExportPool.ConsumerAccounts | adt/custexport/export.go:407-441 | Errors are listed even after the writer failed; up to the failing write every other result is counted and written; nothing is written after it. |
| ExportPool.StepKeepsPlaces | adt/custexport/export.go:365-441 | Each step moves a table between queue, worker, channel and report and never loses or doubles one. |
| ExportPool.RunsKeepInv | adt/custexport/export.go:365-441 | In every reachable state all tables are accounted for, the channel keeps its bound and is closed only after every worker has finished. |
| ExportPool.StuckExactlyWhenReturned | adt/custexport/export.go:365-441 | No deadlock: something can happen exactly until the consumer has returned. |
| ExportPool.RunsAreBounded | adt/custexport/export.go:365-441 | A run takes exactly 4 steps per table, one per worker and two. |
| ExportPool.EveryRunReportsEveryTable | adt/custexport/export.go:365-461 | Every maximal run reports each table exactly once, and unless the writer failed exported + empty + errors is the number of tables, each written or listed as an error. |
| RestorePlan.CreatedByTransport | adt/rollback.go:333-347 | True exactly for a non-empty history that lies wholly in the request and its tasks. |
| RestorePlan.HistoryHasTransport | adt/rollback.go:466-475 | True exactly when some entry carries the request or a task. |
| RestorePlan.FindPreTransportVersion | adt/rollback.go:359-391 | The first entry after the newest contiguous run of the transport; an error exactly when there is no run, or no such entry with source. |
| RestorePlan.GroupByInclude | adt/rollback.go:435-442 | The includes in first-seen order, each with its own history. |
| RestorePlan.PlanRestore | adt/rollback.go:434-462 | Each touched include is written once, in first-seen order, from its own history, with the version right before the transport; the first touched include without such a version means an error that names it and no writes at all. |
| RestorePlan.PlanExistsExactly | adt/rollback.go:434-462 | A plan exists exactly when something was touched and every touched include has a version right before the transport. |
| RestorePlan.CreatedIsNeverPlanned | adt/rollback.go:333-462 | An object the transport created has no plan. |
| RestorePlan.IncludesOnce | adt/rollback.go:435-442 | The include list has each include of the history once. |
| RestorePlan.IncludesInOrder | adt/rollback.go:435-442 | The include list is in first-seen order. |
| RollbackTargets.FindTargets | adt/rollback.go:587-620 | The loop over the transport entries: what it appends to the result, the targets, and which entries it looks up. |
| RollbackTargets.ResolutionIsComplete | adt/rollback.go:587-620 | Every entry that is no release marker is accounted for once: by the unit it leads to, listed once ignoring case, or by itself in Skipped or Failed. |
| RollbackTargets.ResolutionPlacesEntries | adt/rollback.go:587-620 | Skipped holds exactly the entries that were looked up and lead to no unit, Failed exactly those whose lookup failed or was not tried after a 401. |
| RollbackTargets.AskedExactly | adt/rollback.go:587-620 | Exactly the entries before and at the first 401 are looked up. |
| RollbackTargets.LookupsStopAt401 | adt/rollback.go:587-620 | Lookups go in order and none follows one answered 401. |
| RollbackTargets.RejectedExactly | adt/rollback.go:587-620 | The 401 is handed on exactly when a lookup was answered with one. |
| RollbackTargets.PartialExactly | adt/rollback.go:599-613 | The rollback is partial exactly when an entry of a part (LIMU) was looked up and did not resolve. |
| RollbackTargets.ResolutionReportsEntries | adt/rollback.go:591-613 | Each entry that does not resolve is reported with its own reason. |
| RollbackTargets.TargetsAreFirst | adt/rollback.go:614-617 | The targets are, in transport order, what the first entry leading to each unit resolves to. |
| Deletion.DeleteCreatedObjects | adt/rollback.go:283-326 | The rounds and the final reasons, told from the requests alone: every answer is the server's, an object is in Deleted exactly when a request for it found it deleted or missing, and otherwise in Failed with the answer of its last request and what stopped the others. |
| Deletion.DeleteInRounds | adt/rollback.go:284-313 | The nested loops compute the rounds. |
| Deletion.RoundIsRight | adt/rollback.go:284-308 | One round against its requests: who is deleted, who is left with which answer, and who a 401 stopped it before. |
| Deletion.DeletionFollowsLog | adt/rollback.go:283-326 | For every server, and objects with different URIs: Deleted and Failed follow from the delete requests and their answers, with the reason of each object left, and the deletion ends after a 401 or after a round in which every object left was refused. |
| Deletion.RoundAsksInOrder | adt/rollback.go:286-307 | A round asks for the objects in order, for all of them unless a 401 stops it. |
| Deletion.LeftAreExplained | adt/rollback.go:314-325 | rejected is set wherever it is dereferenced. |
| Deletion.EachDeletedOrLeft | adt/rollback.go:283-326 | For arbitrary outcomes each object ends in exactly one of Deleted and Failed. |
| Deletion.RequestsAreBounded | adt/rollback.go:283-313 | At most n(n+1)/2 delete requests for n objects, and none after a 401. |
| Deletion.LeavesLargestSupported | adt/rollback.go:276-313 | If a delete succeeds exactly when neither another remaining object nor one outside the deletion uses the target, the rounds leave the largest set in which every member is used by another member or from outside, whatever the order. |
| Deletion.LeavesNothingExactly | adt/rollback.go:276-313 | Nothing is left exactly when no non-empty set of the objects is held together by use among its members and from outside. |
| Deletion.AcyclicLeavesNothing | adt/rollback.go:276-313 | When use among the objects is acyclic, nothing is left exactly when no object outside the deletion uses one of them. |
| Rollback.RollbackOrClassify | adt/rollback.go:397-413 | Created exactly for a history wholly in the transport; restored exactly when a plan exists and was written back. |
| Rollback.RestoreTargets | adt/rollback.go:150-181 | The restore loop: every outcome that was asked for is right, and each target goes where its outcome says. |
| Rollback.EachTargetOnce | adt/rollback.go:150-181 | Each target ends up in exactly one list or among the created objects. |
| Rollback.RestoresStopAt401 | adt/rollback.go:150-181 | With each restore as one step: no restore is tried after one that ended in a 401, and none after a lookup was answered with one. |
| Rollback.KeepLocalOrigin | adt/rollback.go:221-251 | The loop keeps exactly the objects of the request's system and reports the others. |
| Rollback.KeptAreLocal | adt/rollback.go:221-251 | Only objects whose source system is the first three characters of the request are kept. |
| Rollback.EachKeptOrReported | adt/rollback.go:221-251 | Each object is kept for deletion or reported, once. |
| Rollback.OriginsStopAt401 | adt/rollback.go:221-251 | No origin is asked for after a 401. |
| Rollback.GoesOnAfter401Exactly | adt/rollback.go:125-128 | Over the whole call, with each restore as one step: a request follows one answered 401 exactly when the created objects are taken to the deletion, one is confirmed to be of the request's system, and the origin of a later one is answered 401. |
| Rollback.DeleteFollowsA401 | adt/rollback.go:197-198 | A concrete rollback that sends a delete request after a 401. |
| Rollback.SettleCreated | adt/rollback.go:183-199 | The five ways the created objects are settled, and which origin queries and delete requests that takes. |
| Rollback.SettleKeepsIds | adt/rollback.go:183-199 | Settling reports every created object once. |
| Rollback.RollbackPlaces | adt/rollback.go:129-201 | An entry that leads to no unit of source is in Skipped, one whose lookup failed or was not tried in Failed, and the other lists hold units only. |
| Rollback.SettleHoldsGate | adt/rollback.go:159-199 | The deletion gate, for every list, target and answer. |
| Rollback.RollbackAccounts | adt/rollback.go:129-201 | Each entry that did not resolve and each distinct unit is in exactly one of the five lists, once. |
| RollbackTransport.RollbackTransportWithOptions | adt/rollback.go:129-201 | The whole rollback: no result exactly when objects or tasks cannot be read; otherwise every entry and every unit is in exactly one list, the one its lookup, outcome, origin and delete requests call for, with its reason; what is deleted passed the gate; and the requests are those of the trace the 401 results are about. |
| RollbackTransport.RollbackIsRight | adt/rollback.go:129-201 | Lookups, restores and settling make such a result, for every server. |
| RollbackTransport.OnlyThere | adt/rollback.go:129-201 | A unit in the list its verdict names is in no other. |
| RollbackVerdicts.RestoresAreRight | adt/rollback.go:150-181 | The restores told from their outcomes: a restored unit is in Restored, a failed restore in Failed with its error, a created part of another object in Created, one after a 401 in Failed with the 401; and what they leave for the deletion gate. |
| RollbackVerdicts.KeepIsRight | adt/rollback.go:221-251 | The origin checks told from the origins: what is kept, in order, and where and why everything else is reported. |
| RollbackVerdicts.CreatedPlaced | adt/rollback.go:183-199 | Where a created object ends up, for every option, failure, origin and delete answer. |
| RollbackVerdicts.UnitPlaced | adt/rollback.go:129-201 | Every unit is in the list, and has the reason, that the answers call for. |
| RollbackVerdicts.RequestsAreForTaken | adt/rollback.go:197-199 | Delete requests are sent only for objects taken to the deletion. |
| Rollback.DeletionLeavesLargestSupported | adt/rollback.go:197-201 | What a rollback hands to the deletion are distinct objects, so its rounds leave the largest set of them in which every member is used by another member or by an object the deletion does not touch, such as a created one of another system. |
| Dependencies.ChunkNames | adt/dependencies.go:475-493 | The loop gives the greedy chunks. |
| Dependencies.ChunksAreRight | adt/dependencies.go:475-493 | Every name is in exactly one chunk, in order; chunks of several names keep the bound; each is as long as it can be. |
| Dependencies.CountedLenIsSent | adt/dependencies.go:465-493 | For names without quotes the counted length is one more than the length of the list sent. |
| Dependencies.KeyIsInjective | adt/dependencies.go:635-648 | The visited keys tell typed nodes apart. |
| Dependencies.Walk.AddDep | adt/dependencies.go:644-655 | Adds a non-empty, unvisited node once. |
| Dependencies.Walk.Row | adt/dependencies.go:509-516 | What one row adds, for each of the four tables. |
| Dependencies.Walk.QueryChunks | adt/dependencies.go:496-527 | The loop over the chunks, with failed and capped queries, up to a 401. |
| Dependencies.Walk.ClassifyStructures | adt/dependencies.go:612-620 | The second loop over the structures to classify. |
| Dependencies.Walk.QueryLevel | adt/dependencies.go:657-679 | One level, type by type. |
| Dependencies.DdicChainDeps | adt/dependencies.go:629-685 | The loop over the levels. |
| Dependencies.LevelGrows | adt/dependencies.go:644-679 | Whatever the answers, a level adds exactly the nodes they show that were not visited, each once. |
| Dependencies.WithinMeansPath | adt/dependencies.go:624-628 | The reference: being within k edges is having a path of at most k edges. |
| Dependencies.WalkIsReachability | adt/dependencies.go:629-685 | On error-free, uncapped answers the result is exactly the typed nodes reachable in 1 to maxDepth edges, without the start, each once, nearest first, on cyclic graphs too. |
| Dependencies.DepthIsPrefix | adt/dependencies.go:629-685 | The result for a depth is a prefix of the result for the next one. |
| Dependencies.WalkIsSound | adt/dependencies.go:629-685 | With failing or capped queries everything reported is still reachable, each node once. |
| Dependencies.LevelAddsFirstMentions | adt/dependencies.go:644-679 | For every answer: a level adds the first mention of each node not visited, in the order of the answers, with the use type of that mention, and one warning for each query that failed or was capped. |
| Dependencies.LevelIsTold | adt/dependencies.go:657-679 | A level is ended by a 401 exactly when one of its queries or classifications is answered with one. |
| Dependencies.UseTypesAreFounded | adt/dependencies.go:496-622 | Data elements and domains are reported as such, no table type is, and a table as TABLE or as a classification of its name says. |
| Dependencies.InListsAreShort | adt/dependencies.go:465-493 | An IN list of several names without quotes is shorter than 150 characters. |
| TransportQuery.CursorRoundTrip | adt/transport.go:793-805 | Parsing accepts exactly the printed well-formed cursors and gives back what was printed. |
| TransportQuery.ParsedIsWellFormed | adt/transport.go:793-805 | What is printed of a sort key is parsed exactly when the sort key is well-formed. |
| TransportQuery.CursorConditionIsChain | adt/transport.go:811-816 | The cursor condition is the descending three-key mirror of the pagination chain. |
| TransportQuery.CursorMeansBelow | adt/transport.go:807-816 | It holds exactly of rows strictly below the cursor. |
| TransportQuery.TransportStatusCondition | adt/transport.go:823-834 | The loop prints the alternatives of the passing letters. |
| TransportQuery.StatusAgreesWithFilter | adt/types.go:194-259 | For every status text the condition agrees with the filter on its state. |
| TransportQuery.FilterPasses | adt/types.go:194-259 | The letters of each state: D and L pass the filter for modifiable requests, R and N the one for released ones. |
| TransportQuery.E070Query | adt/transport.go:847-861 | The query text, whose words are read back as the parts of the WHERE clause, all of which have to hold, with alternatives only inside parentheses. |
| TransportQuery.ReadQueryBack | adt/transport.go:847-861 | The words of the query are read as its columns, its table, its conditions and its order. |
| TransportQuery.QueryArrives | adt/transport.go:847-863 | For every user, filter and cursor the query is sent, without long lines, and read as what was asked for, on either reading of comments. |
| Transport.WhereMeans | adt/transport.go:847-861 | The WHERE clause selects exactly the requested rows after the cursor. |
| Transport.ReadPage | adt/transport.go:868-900 | The page made of an answer, and the refusal of a malformed sort key. |
| Transport.ReadAnswerMeans | adt/transport.go:868-900 | For any answer: the page has the requests of the rows that pass among the first limit ones, in order and field by field, Next is the sort key of the last of them exactly when there are more rows, and a sort key that is none refuses the page. |
| Transport.ReadTransportRequests | adt/transport.go:847-900 | One page: the request that is sent for it, which asks for one row more, and what is made of the answer. |
| Transport.PageIsNextRows | adt/transport.go:847-900 | From a server that reads the query text, a page holds exactly the next rows, and its Next is the cursor after them. |
| Transport.FollowingNextSeesEverything | adt/transport.go:836-900 | Following Next until it is empty yields every passing request exactly once, in strictly descending order, every other page being full; and it is empty exactly when the pages so far have room for all. |
| Transport.NextPageFollows | adt/transport.go:836-900 | As long as Next is not empty there are rows left, and reading on gives the page of exactly the rows behind it. |
| Transport.NextBecomesEmpty | adt/transport.go:836-900 | However far a caller has come, also before the first page, following Next on comes to a page whose Next is empty. |
| TransportObjects.Deduper.Add | adt/transport.go:1907-1922 | One occurrence, with the index agreeing with the list before and after. |
| TransportObjects.ListIsFirstsWithTasks | adt/transport.go:1886-1922 | The list is, in first-seen order, the first occurrence of every key with the first non-empty task of the key. |
| TransportObjects.ClashExactly | adt/transport.go:1911-1911 | Objects of two different kinds (program id and type) can share a key exactly when the beginning of one kind's keys begins the other's. |
| TransportObjects.KeyMeansSame | adt/transport.go:1911-1911 | The key tells two objects apart unless their kinds clash. |
| TransportObjects.KeepsAllExactly | adt/transport.go:1895-1922 | The list keeps every object of given kinds, whatever occurs, exactly when no two of the kinds clash. |
| TransportObjects.SlashFreeDoesNotClash | adt/transport.go:1911-1911 | Kinds without a slash never clash. |
| TransportObjects.SlashesMayClash | adt/transport.go:1911-1911 | Two kinds that clash, and two with a slash that do not. |
| TextElements.ParseTextSymbols | adt/textelements.go:182-204 | The parser loop, line by line. |
| TextElements.FormatTextSymbols | adt/textelements.go:227-236 | The printed text. |
| TextElements.SymbolsRoundTripExactly | adt/textelements.go:182-236 | Parse after format is the identity exactly on lists of symbols with a trimmed, non-empty key without '=' or line end that does not begin with the keyword, a text without line end or final carriage return, and no negative length. |
| TextElements.ParsedExactly | adt/textelements.go:182-204 | On every text the symbols are those of the lines with a key and a '=', in order, each with the last length given since the symbol before it. |
| TextElements.ParseSelectionTexts | adt/textelements.go:209-224 | The parser loop. |
| TextElements.FormatSelectionTexts | adt/textelements.go:239-245 | The printed text, names padded to eight characters. |
| TextElements.FormatIsLines | adt/textelements.go:239-245 | One line for each: the name in a column of eight, '=', and the text. |
| TextElements.SelectionsRoundTripExactly | adt/textelements.go:209-245 | Parse after format is the identity exactly on lists with a trimmed name, possibly empty, without '=' or line end, and a text as above. |

## Left out

- HTTP, TLS, cookies, redirects, XML, JSON, ZIP, SQLite, files and the OAuth endpoints: replies, rows and outcomes are given as parsed values.
- Client.Session.RefreshAfter401: inside one call the refresh is an arbitrary outcome; the protocol behind it is `TokenSource`.
- TokenSource.Source.Enter: a source without a refresh callback returns before the lock and takes no step, so it is not modelled.
- TokenSource.NoTokenRefreshedTwice: assumes callbacks that return only new tokens, as rotating providers do; a callback that returns an old token may cause another refresh of it.
- Client.Session.FetchCSRFToken: the discovery document is kept as text; how content types are read from it is not modelled.
- Client.Session.DoRead: deadlines, tracing and closing response bodies are not modelled.
- QueryWrap.WrapSQLLine: error texts are kept only as the cause and the quoted preview.
- Patch.SortDescending: sorts a value instead of sorting in place; only what holds for every descending arrangement is promised and used.
- ExportQuery.BrokenStatementIsNotRead: the reader takes a text line by line, as the re-wrapping does; what SAP makes of a literal that spans lines is not part of this model.
- AbapSql.TimesAreCast: the server of the model reads `CAST( f AS CHAR( 6 ) )` as the field itself, since a time has six characters.
- Export.ExportTable: `fetchTableKeys` and `discoverTables` are not modelled; a table's keys and their types are given.
- Export.ExportCompletesExactly: the order of the database is any strict order that compares keys as the WHERE clause does; the rows do not change during the export.
- ExportPool.EveryRunReportsEveryTable: cancellation shows only as errors the workers report, and the summary file is not modelled.
- Rollback.RollbackOrClassify: a restore (fetch, lock, write, unlock, activate) is one step with one outcome; its lock and the requests inside it are not modelled, nor a 401 that one of them swallows.
- Rollback.KeepLocalOrigin: the source system is the value `tadirSourceSystem` returns, already trimmed and upper-cased.
- RollbackTargets.FindTargets: which unit an entry leads to is an arbitrary answer; the name rules of `adt/rollback_targets.go` are not modelled.
- Deletion.LeavesLargestSupported: a server that refuses for other reasons than use falls under `Deletion.DeletionFollowsLog` only.
- Deletion.DeletionFollowsLog: speaks of objects with different URIs, which is what a rollback hands over.
- Dependencies.ChunkNames: counts code points where the program counts bytes, which is the same for ASCII names; a single name may be longer than the bound, as in the program.
- Dependencies.Walk.ClassifyStructures: `classifyDDICObjects` is an arbitrary answer per chunk.
- Dependencies.DdicChainDeps: warnings are counted, their texts are not kept; each dependency also carries its object type, which the program keeps only inside the walk.
- Transport.ReadPage: cells are given by column name and already trimmed.
- Transport.FollowingNextSeesEverything: assumes unchanging rows, unique sort keys in their format, a database order that compares as the WHERE clause does, and a data preview that answers every query it can read.
- TextElements.ParseTextSymbols: lengths are 64-bit integers.
- Descriptions from the transport organizer tree, the tree-only fallback page and the option checks of the request list.
- Timeouts, polling and wall-clock behaviour.
- Delegating one-request methods, `adt/adtxml`, error-text parsing and the lock map.
