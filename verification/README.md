# PandaHub: a verified model

PandaHub hosts Git repositories: a FastAPI service, a Next.js client and a command line. This project
models the parts of it that carry state, loops or protocols, and proves what they guarantee. `dafny
verify dfyconfig.toml` checks all of it.

Code that changes things step by step is modelled by classes and methods with loops; each method is
proved equal to a function of its inputs and of the old state, and the guarantees are lemmas about that
function, over every input, every run or every interleaving.

| file | what it models |
|---|---|
| `TokenStore.dfy` | refresh tokens, password resets and session wipes of the authentication service |
| `RefreshClient.dfy` | the browser client's single-flight refresh and its queue of waiting requests |
| `SessionProtocol.dfy` | client and service together, over a network that delays and loses answers |
| `FanOut.dfy` | the WebSocket fan-out: per-process socket maps fed by one channel |
| `DiffScan.dfy` | the secret scanner: rules, masking, and the walk over the lines of a diff |
| `DiffFormat.dfy` | structured diffs and how git prints them, quoted paths included |
| `DiffItems.dfy`, `DiffLaws.dfy` | what the scanner finds in a printed diff, and exactly when that is right |
| `RateLimit.dfy` | the fixed-window rate limiter |
| `GitTree.dfy` | directory listing and file fetch over one object store |
| `CommitPages.dfy` | paging through a commit log |
| `SelfTraining.dfy` | the pseudo-labelling loop, for any sequence of classifiers |
| `ReviewMerge.dfy` | merging review suggestions |
| `Votes.dfy` | severity vote, category vote, neighbour retrieval and category override |
| `RefSync.dfy` | parsing ref updates and syncing the cached branch rows |
| `Permissions.dfy` | the permission resolver |
| `OAuthLogin.dfy` | registration and sign-in through an identity provider |
| `StorageKey.dfy` | slugs and storage keys of repository archives |
| `Noise.dfy` | gradient noise over the reals |
| `PyText.dfy`, `StableSort.dfy`, `FirstSeen.dfy`, `Wrappers.dfy` | Python's string operations, its stable sort, dictionary order, options |

## Findings

Where a promise turned out not to hold in general, the model keeps the code as it is, and a lemma says
exactly when it holds.

- The branch of `rotate_refresh_token` that reports reuse and wipes every session is also taken for a
  token that was never used before but has expired (`TokenStore.ReuseReportedIff`). A browser that obeys
  the client code reaches that branch for expired tokens only (`SessionProtocol.ReuseIsReportedOnlyForExpiry`).
- A page reloaded while its stored token is being exchanged may present the token again, and the service
  then ends every session of the user (`SessionProtocol.ReloadIsSafeIff`, `SessionProtocol.ReloadDuringRefreshTripsReuse`).
- The comment on an unknown token in `rotate_refresh_token` speaks of a family already rotated elsewhere;
  the code only refuses it and wipes nothing.
- A logout while a refresh is in flight does not last: the answer stores tokens again
  (`RefreshClient.LogoutLastsIff`). A login meanwhile does not last either: the answer stores the tokens of the
  old session over the new ones, and an error removes them (`RefreshClient.LoginLastsIff`).
- The page a sign-in ends on stores the tokens in its address on every visit; visiting it again is harmless
  exactly while its refresh token is not spent (`SessionProtocol.RevisitIsSafeIff`).
- The scanner overlooks added lines whose text begins with `++`, and every later added line of the hunk is
  then numbered too low, by as many (`DiffLaws.NumberedTooLow`). For files with LF or CRLF line ends that is all
  that can go wrong with the lines (`DiffLaws.OrdinaryScanIsExactIff`, `DiffLaws.OrdinaryScanFinds`).
- Python breaks lines at more characters than git does. What stands behind a form feed or another such break
  in an added line is never looked at (`DiffLaws.BreakHidesTheRest`); in other lines it can forge additions,
  headers or lines of the file. `DiffLaws.ScanIsExactIff` and `DiffLaws.ScanIsExactIffTidy` say exactly when
  the scan is right all the same.
- Git quotes a path with a quote, a backslash or a character outside printable ASCII. A quoted path is not read,
  and what is found in its file is filed under the file before (`DiffLaws.QuotedPathIsMissed`). A path with
  ` b/` in it is cut. `DiffLaws.OwnPathReadRightIff` gives the condition for files that kept their name,
  `DiffLaws.PathReadRightIff` the one for renamed files too.
- A delivery that another connect or disconnect of its user interrupts leaves the sockets it found broken in the
  map (`FanOut.BrokenIsDroppedIff`).
- The rate limiter lets through at most (n + 1) times the limit, less one, in n windows, and that is reached
  (`RateLimit.AcceptedPerWindows`, `RateLimit.BoundIsReached`).
- A submodule is listed as a directory but cannot be opened (`GitTree.ListedDirectoryOpensIff`).
- The severity vote depends on the order of the votes if and only if labels tie at the top, which the four
  known severities never do (`Votes.SeverityVoteOrderIff`).
- Merging suggestions twice keeps places and severities but cuts merged comments of more than 1000 characters
  (`ReviewMerge.MergingAgain`, `ReviewMerge.LongPairIsCut`).
- A branch deleted and set again by one list of updates goes missing from the cache, because deletions are
  applied last (`RefSync.CacheFollowsIff`); this takes a list that names a ref twice. A ref name with whitespace,
  which Git allows outside ASCII, is not read back (`RefSync.UpdateReadBackIff`).
- A disabled user is let in on the first sign-in with a new identity (`OAuthLogin.DisabledUserGetsInIff`);
  registering with the name of one user and the address of another ends in a server error
  (`OAuthLogin.RegisterReadsTwoRowsIff`). A newcomer is refused for a name too wide for its column not only when
  the base name is, but also when it is taken and a suffix makes it so (`OAuthLogin.NeverTooLongIff`); when the
  base name is, always (`OAuthLogin.LongNameNeverGetsIn`).
- The comment calls storage keys unambiguous, but two repositories of one owner share a key if their names
  differ only in case or in outer hyphens, such as `Repo` and `repo` (`StorageKey.RepositoryNamesCollideIff`).

## Model

| member | source | states |
|---|---|---|
| TokenStore.AuthService.Issue | backend/app/services/auth_service.py:184-197 | a pair issued adds exactly one unrevoked row for that user |
| TokenStore.AuthService.Rotate | backend/app/services/auth_service.py:200-225 | unknown, revoked or expired, inactive, exchanged: the four outcomes and what each does to the rows |
| TokenStore.AuthService.Revoke | backend/app/services/auth_service.py:228-233 | logout removes that row and no other |
| TokenStore.AuthService.DeleteSessionsOf | backend/app/services/auth_service.py:214-214 | deleting by user removes all rows of the user and keeps the rest |
| TokenStore.AuthService.RequestReset | backend/app/services/auth_service.py:239-253 | a known address gets one fresh reset row, an unknown one nothing |
| TokenStore.AuthService.ConfirmReset | backend/app/services/auth_service.py:272-288 | unknown, used or expired is refused, a missing user is a server error; otherwise password, mark and wipe |
| TokenStore.AuthService.SetPassword | backend/app/services/auth_service.py:291-299 | changing the password wipes the user's sessions |
| TokenStore.StepKeepsInv | backend/app/services/auth_service.py:184-299 | every service call keeps the invariant: issued, exchanged and live tokens agree with the rows, one live row per login |
| TokenStore.RunKeepsInv | backend/app/services/auth_service.py:184-299 | so does every run |
| TokenStore.EachTokenUsedAtMostOnce | backend/app/services/auth_service.py:200-225 | in any run a refresh token is exchanged at most once, and a reset token accepted at most once |
| TokenStore.OneLiveRowPerLogin | backend/app/services/auth_service.py:184-225 | a login and its chain of rotations have at most one unrevoked row |
| TokenStore.DeadIsRefused | backend/app/services/auth_service.py:205-208 | an issued token whose row is gone is refused for the rest of the run |
| TokenStore.WipedTokensAreNeverAccepted | backend/app/services/auth_service.py:210-216 | after a reuse hit, a reset or a password change no earlier token of the user is accepted again in the run |
| TokenStore.WipeSparesOtherUsers | backend/app/services/auth_service.py:287-287 | a wipe leaves the rows of all other users as they were |
| TokenStore.ReuseReportedIff | backend/app/services/auth_service.py:210-216 | reuse is reported exactly for a stored token exchanged before or expired |
| TokenStore.AnswerFollowsHistory | backend/app/services/auth_service.py:200-225 | in any run an issued refresh token is unknown once logged out or wiped, reuse once exchanged or more than 30 days old, and otherwise exchanged for its active user |
| TokenStore.UnissuedIsUnknown | backend/app/services/auth_service.py:205-208 | a token no call issued is unknown |
| TokenStore.ResetFollowsHistory | backend/app/services/auth_service.py:239-275 | in any run a reset token is accepted for the user of its address, once and within an hour, and one for an unknown address never |
| TokenStore.AccountFollowsHistory | backend/app/services/auth_service.py:282-299 | in any run the password is the one last set by a reset or a change |
| RefreshClient.ApiClient.Send | frontend/src/lib/api.ts:75-88 | a stored token replaces the header of every outgoing request |
| RefreshClient.ApiClient.OnUnauthorized | frontend/src/lib/api.ts:96-131 | a 401 is passed on, queued, or starts the one refresh |
| RefreshClient.ApiClient.ProcessQueue | frontend/src/lib/api.ts:59-70 | the queue is emptied and each waiter settled once with the given end |
| RefreshClient.ApiClient.OnRefreshAnswer | frontend/src/lib/api.ts:133-159 | an answer with both tokens is stored, waiters and original are sent again, the flag is cleared |
| RefreshClient.ApiClient.OnRefreshError | frontend/src/lib/api.ts:147-159 | a failure rejects all waiters and removes both tokens |
| RefreshClient.LoginTakesEffect | frontend/src/lib/auth.ts:9-10 | after a login, until a refresh ends, every request carries the new access token and a refresh that starts presents the new refresh token |
| RefreshClient.LoginLastsIff | frontend/src/lib/auth.ts:9-10 | until the next login or logout, the tokens stay in use up to the next refresh and that presents the new refresh token, if and only if no refresh was in flight |
| RefreshClient.LogoutLastsIff | frontend/src/lib/auth.ts:29-32 | after a logout no run stores a token, presents one or sends one along before the next login, if and only if no refresh was in flight |
| RefreshClient.SuccessIsStoredAndSent | frontend/src/lib/api.ts:133-147 | a success sends every waiter and the original exactly once more and changes nothing else |
| RefreshClient.AnswerIsStoredAndSent | frontend/src/lib/api.ts:133-147 | an answer's tokens are stored as they came, and every waiter and the original are sent with its access token |
| RefreshClient.FailureForgetsTokens | frontend/src/lib/api.ts:147-159 | an error, or an answer that lacks a token, removes both tokens, fails every waiter and sends nothing |
| RefreshClient.RefusedIsSentAgain | frontend/src/lib/api.ts:96-147 | a request refused for the first time is sent again, once, with the token the next successful answer brings |
| RefreshClient.PageRunKeepsInv | frontend/src/lib/api.ts:96-161 | every run of a page keeps: one flight, all waits accounted for, sends bounded |
| RefreshClient.OneRefreshAtATime | frontend/src/lib/api.ts:105-123 | at most one refresh is in flight, nobody waits without one, each request is sent at most twice |
| RefreshClient.EveryWaiterIsSettledOnce | frontend/src/lib/api.ts:105-159 | no waiter is stranded: each is settled once, with the end of the refresh it waited on |
| SessionProtocol.NextKeepsInv | frontend/src/lib/api.ts:96-160 | every step of client, service or network keeps the joint invariant |
| SessionProtocol.RunKeepsInv | frontend/src/lib/api.ts:96-160 | so does every interleaving |
| SessionProtocol.NeverPresentsATokenTwice | frontend/src/lib/api.ts:96-160 | in every interleaving the browser never presents a refresh token twice |
| SessionProtocol.ReuseIsReportedOnlyForExpiry | backend/app/services/auth_service.py:210-216 | for this browser reuse is reported exactly for an expired token, never for a revoked one |
| SessionProtocol.ReloadIsSafeIff | frontend/src/lib/api.ts:114-131 | after a reload in any reachable state no continuation presents a token twice, if and only if the stored token was not in exchange |
| SessionProtocol.RevisitIsSafeIff | frontend/src/app/oauth/callback/page.tsx:12-19 | the same for visiting a sign-in address again, if and only if its token is not spent |
| SessionProtocol.ReloadDuringRefreshTripsReuse | frontend/src/lib/api.ts:123-131 | after any unsafe reload the next 401 presents the token again, and reuse is reported exactly if it was exchanged or has expired |
| SessionProtocol.SecondPresentationEndsSessions | backend/app/services/auth_service.py:210-216 | if the first request is handled before the second, the second ends every session of the user |
| SessionProtocol.SessionIsRenewed | frontend/src/lib/api.ts:96-147 | a refused request with a good stored token leads, if no message is lost, to new good tokens of the same login and to the request sent with the new one |
| FanOut.ConnectionManager.Connect | backend/app/websockets/manager.py:38-41 | the socket joins its user's bucket |
| FanOut.ConnectionManager.Disconnect | backend/app/websockets/manager.py:43-49 | the socket leaves, and an empty bucket goes with it |
| FanOut.ConnectionManager.DeliverLocal | backend/app/websockets/manager.py:61-74 | the user's working sockets are reached, the broken ones dropped, other buckets untouched |
| FanOut.StepKeepsInv | backend/app/websockets/manager.py:38-97 | every step of any process keeps membership, log and delivery invariants, aborted deliveries included |
| FanOut.RunKeepsInv | backend/app/websockets/manager.py:38-97 | so does every run |
| FanOut.ReceivesOwnMessagesInOrder | backend/app/websockets/manager.py:89-97 | each socket's log is a duplicate-free subsequence of its own user's messages in channel order |
| FanOut.NothingLeaks | backend/app/api/ws.py:59-70 | once every route has disconnected, every map is empty |
| FanOut.HealthySocketReceivesEverything | backend/app/websockets/manager.py:61-74 | a healthy socket has received every message to its user, once, in order, if no connect or disconnect of that user interrupts the deliveries at its process |
| FanOut.BrokenIsDropped | backend/app/websockets/manager.py:66-74 | a socket whose send raised is out of the map after that delivery and is sent nothing more in the run |
| FanOut.BrokenIsDroppedIff | backend/app/websockets/manager.py:66-74 | the end of a delivery drops a socket if and only if it found it broken and was not interrupted |
| FanOut.DisturbedIff | backend/app/websockets/manager.py:67-70 | a delivery is interrupted exactly if the bucket has another size than at its start or was emptied meanwhile |
| FanOut.NextMessageCanBeHandled | backend/app/websockets/manager.py:61-72 | no delivery gets stuck: whichever sockets work, a process can always get done with the next message by steps of its own |
| FanOut.ChannelHoldsEverything | backend/app/websockets/manager.py:51-59 | the channel holds what was published, in order |
| DiffScan.CheckLine | backend/app/services/secret_scanner.py:150-162 | one finding per matching rule, in order of the rules |
| DiffScan.ReadLine | backend/app/services/secret_scanner.py:130-166 | what each kind of line does to file, line number and findings |
| DiffScan.ScanDiff | backend/app/services/secret_scanner.py:118-168 | the loop computes the scan of the text's lines |
| DiffScan.CheckReports | backend/app/services/secret_scanner.py:150-162 | one finding per matching rule with its fields, showing at most four characters at each end of a secret to be masked |
| DiffLaws.HunkHeaderNumber | backend/app/services/secret_scanner.py:140-144 | the number read from any printed hunk header is its new start |
| DiffLaws.PathReadRightIff | backend/app/services/secret_scanner.py:132-137 | for any two paths, quoted as git quotes them: exactly when the new path is read, whatever file came before |
| DiffLaws.OwnPathReadRightIff | backend/app/services/secret_scanner.py:132-137 | for a file that kept its name: exactly when its path needs no quotes and holds no separator |
| DiffLaws.QuotedPathIsMissed | backend/app/services/secret_scanner.py:133-136 | a quoted path leaves the file before in place |
| DiffLaws.ScanIsExactIff | backend/app/services/secret_scanner.py:118-168 | for any paths and lines: the scan is right for all rules if and only if added texts are seen whole, no line forges an addition, and the cursor stands right at each added line |
| DiffLaws.ScanIsExactIffTidy | backend/app/services/secret_scanner.py:118-168 | when no line forges a header, the cursor stands right if and only if no added line follows a stray space in its hunk and, header by header, each file with added lines has its path read right |
| DiffLaws.OrdinaryScanIsExactIff | backend/app/services/secret_scanner.py:146-162 | with LF or CRLF line ends only, the scan is right if and only if no added text begins with `++` and each file with added lines has its path read right |
| DiffLaws.ReadablePathsAreRead | backend/app/services/secret_scanner.py:132-137 | paths that can be read from their own headers are read right, whatever the order of the files |
| DiffLaws.OrdinaryScanFinds | backend/app/services/secret_scanner.py:118-168 | with LF or CRLF line ends only, for any paths and added lines: the findings are the matches in the lines reported |
| DiffLaws.NumberedTooLow | backend/app/services/secret_scanner.py:146-162 | an added line that does not begin with `++` is reported, its number too low by as many as lines of the hunk before it do |
| DiffLaws.OnlyAddedAreReported | backend/app/services/secret_scanner.py:146-162 | nothing else of a hunk is reported |
| DiffLaws.BreakHidesTheRest | backend/app/services/secret_scanner.py:130-148 | what follows another line break in an added line is not looked at |
| DiffLaws.FindingsPointAtNewLines | backend/app/services/secret_scanner.py:146-162 | when the scan is exact, each finding's path and number index an added line of the new file, and its text matched |
| DiffLaws.EachAddedLineCheckedOnce | backend/app/services/secret_scanner.py:146-166 | when the scan is exact, the whole scan checks every added line of the diff once, in order, under its own number |
| DiffScan.MaskHidesTheMiddle | backend/app/services/secret_scanner.py:111-115 | masking a long secret keeps the length and only the outer four characters, a short one nothing |
| DiffFormat.PrintedFile | backend/app/services/secret_scanner.py:129-148 | the format the scanner reads: a file with one hunk, printed in full |
| DiffFormat.QuotedPath | backend/app/services/secret_scanner.py:132-137 | the quoting it does not undo: a path with a character outside ASCII, a tab and a quote |
| PyText.LineBreaksAre | backend/app/services/secret_scanner.py:130-130 | the characters at which splitlines breaks, by code point |
| PyText.LastLine | backend/app/services/secret_scanner.py:130-130 | a last line needs no break behind it |
| PyText.CarriageReturnIsDropped | backend/app/services/secret_scanner.py:130-130 | a carriage return before the newline is part of the break |
| PyText.IntTextMeans | backend/app/services/secret_scanner.py:161-161 | a number is printed by its digits, without a zero in front, after a minus sign if negative |
| PyText.BlocksAreDecimal | backend/app/services/secret_scanner.py:141-141 | a digit of any script counts as a digit of a hunk header |
| RateLimit.Redis.Incr | backend/app/core/rate_limit.py:38-38 | counts up, starting over when the key has expired |
| RateLimit.Redis.Check | backend/app/core/rate_limit.py:34-47 | one check counts, opens a window on the first request, and rejects above the limit with the time left |
| RateLimit.AcceptedPerWindows | backend/app/core/rate_limit.py:38-47 | any trace: at most (n + 1) * limit - 1 accepted per key in any half-open interval of n windows |
| RateLimit.BoundIsReached | backend/app/core/rate_limit.py:38-47 | a trace in order of time reaches that bound |
| RateLimit.RejectionNeverExtends | backend/app/core/rate_limit.py:39-47 | a rejected request leaves the end of a running window alone and reports the time to it |
| RateLimit.VerdictFollowsHistory | backend/app/core/rate_limit.py:34-47 | a request is accepted exactly if at most `limit` requests of its key came in its window, and else told the time left |
| RateLimit.KeysAreIndependent | backend/app/core/rate_limit.py:36-38 | the verdicts for one key are those of a store that sees no other key |
| GitTree.WalkLoop | backend/app/services/git_service.py:287-306 | the walk along the parts of a path, with the error of each failing step |
| GitTree.GetTreeSync | backend/app/services/git_service.py:285-349 | the listing of a directory, or the error |
| GitTree.GetBlobSync | backend/app/services/git_service.py:368-427 | the file at a path, or the error |
| GitTree.GetTreeIsSorted | backend/app/services/git_service.py:338-343 | directories first, each kind by name without regard to case |
| GitTree.GetTreeIsStable | backend/app/services/git_service.py:338-343 | names that differ in case only stay in the order of the directory |
| GitTree.TreeAnswers | backend/app/services/git_service.py:287-306 | listing works exactly for paths of directories, a missing name is not found, anything else a bad request |
| GitTree.BlobAnswers | backend/app/services/git_service.py:374-425 | fetching a file gives its object, a directory, a submodule or no path is a bad request, all else is not found |
| GitTree.GetTreeIsFaithful | backend/app/services/git_service.py:310-336 | the listing of a directory holds its entries, each once, at the right paths |
| GitTree.CrawlListsEveryFileOnce | backend/app/services/git_service.py:285-336 | crawling from the root, submodules or not, lists exactly the files of the commit, no path twice |
| GitTree.ListedPathsCanBeFetched | backend/app/services/git_service.py:374-425 | fetching a listed path returns the listed object |
| GitTree.FetchedPathsAreListed | backend/app/services/git_service.py:374-425 | every path that can be fetched is listed, up to outer slashes |
| GitTree.ListedDirectoryOpensIff | backend/app/services/git_service.py:296-311 | an entry listed as a directory can be listed if and only if it is no submodule |
| CommitPages.PagesAreTheLog | backend/app/services/git_service.py:440-469 | the pages in turn are the log, in order and complete |
| CommitPages.OnOnePageOnly | backend/app/services/git_service.py:468-469 | each commit stands on one page only |
| CommitPages.SmallArguments | backend/app/services/git_service.py:440-444 | arguments below one mean the first page and thirty a page |
| SelfTraining.SelfTrainingClassifier.CollectConfident | backend/app/services/classifier.py:383-392 | the predictions that clear the threshold, in order |
| SelfTraining.SelfTrainingClassifier.KeepTrulyNew | backend/app/services/classifier.py:400-401 | those whose diff text is not labelled yet |
| SelfTraining.SelfTrainingClassifier.SelfTrain | backend/app/services/classifier.py:376-424 | accepts the batches of the specification, returns their total number, and refits after each, but a last slow one, on the base samples and all labels so far |
| SelfTraining.EndsWithinDistinctDiffs | backend/app/services/classifier.py:382-418 | at most as many rounds add labels as there are distinct diffs; beyond that the cap plays no part |
| SelfTraining.LabelsClearedThreshold | backend/app/services/classifier.py:384-392 | each label was predicted above the threshold by the classifier of its round |
| SelfTraining.DiffsEnterOnce | backend/app/services/classifier.py:400-407 | a diff text enters in one round only and is never labelled again |
| SelfTraining.AcceptedAreUnlabelledPairs | backend/app/services/classifier.py:383-408 | the accepted labels are a sub-multiset of the unlabelled pairs |
| SelfTraining.BatchIsComplete | backend/app/services/classifier.py:383-407 | each round labels, in order, exactly the pairs its classifier is sure of and whose diff text is not labelled yet |
| SelfTraining.EndsForAReason | backend/app/services/classifier.py:394-418 | it ends early only after a round that grew by less than 2% or before one in which no pair qualifies |
| SelfTraining.FlatHoldsBatches | backend/app/services/classifier.py:376-408 | the accepted labels are those of the rounds, one after the other |
| ReviewMerge.MergeComments | backend/app/services/ai_router.py:452-470 | the joined comments of a group, near-duplicates left out |
| ReviewMerge.DeduplicateSuggestions | backend/app/services/ai_router.py:429-475 | groups, merges and sorts as specified |
| ReviewMerge.OneEntryPerLocation | backend/app/services/ai_router.py:441-474 | exactly one entry per (file, line hint), severest first and then by file |
| ReviewMerge.EqualEntriesStayInOrder | backend/app/services/ai_router.py:473-474 | entries of one severity and file stay in the order of their locations |
| ReviewMerge.EntryHasHighestSeverity | backend/app/services/ai_router.py:448-451 | an entry has the severity of the first suggestion of its group that is as severe as all of them |
| ReviewMerge.NoCommentIsLost | backend/app/services/ai_router.py:452-464 | each comment is shown up to 1000 characters, or a shown one has at least 80% of its words |
| ReviewMerge.NothingIsInvented | backend/app/services/ai_router.py:452-470 | an entry's comment joins, in order and cut to 1000 characters, exactly those of its group that share less than 80% of their words with each joined before |
| PyText.TrimCuts | backend/app/services/ai_router.py:455-455 | strip cuts whitespace off both ends and nothing else |
| PyText.LowerTextIs | backend/app/services/ai_router.py:457-460 | lower-casing replaces A to Z by a to z, one for one |
| ReviewMerge.MergingAgain | backend/app/services/ai_router.py:429-475 | merging again keeps every file, line hint and severity in place, only trims and cuts comments, and changes nothing if and only if all were trimmed and at most 1000 long |
| ReviewMerge.LongPairIsCut | backend/app/services/ai_router.py:452-470 | two comments of one place, kept and together long, make an entry that merging again cuts |
| ReviewMerge.DifferentWordsAreKept | backend/app/services/ai_router.py:456-463 | two different words, case aside, never count as near-duplicates |
| Votes.VoteSeverity | backend/app/services/ai_router.py:416-426 | counts, keeps the most frequent labels and picks the highest |
| Votes.SeverityVoteIsTop | backend/app/services/ai_router.py:423-426 | the winner has maximal count and, among those, the highest rank |
| Votes.VoteGoesToTheFirstLeader | backend/app/services/ai_router.py:416-426 | no votes mean "medium"; otherwise of the most frequent labels the most severe wins, and of several such the first voted for |
| Votes.SeverityVoteOrderIff | backend/app/services/ai_router.py:424-426 | independent of the order of the votes if and only if no two labels tie at the top |
| Votes.KnownSeveritiesNeverTie | backend/app/services/ai_router.py:413-426 | on the four known severities it never depends on the order |
| Votes.MajorityVoteCategory | backend/app/services/rag_store.py:198-221 | the winner and the tally of the hits that have a category |
| Votes.CategoryVoteElects | backend/app/services/rag_store.py:216-221 | the alphabetically least category of maximal count, or none if no hit has one |
| Votes.CategoryVoteIgnoresOrder | backend/app/services/rag_store.py:198-221 | the category vote does not depend on the order of the hits |
| Votes.TopHitsAreTop | backend/app/services/rag_store.py:333-352 | the first k hits by score, equal scores in order, with secondary ones only if there are fewer than two primary ones |
| Votes.RetrieveContext | backend/app/services/rag_store.py:333-352 | merges, ranks and cuts the hits and votes among them |
| Votes.OverrideIgnoresOrder | backend/app/services/ai_router.py:596-615 | the final category does not depend on the order of the neighbours |
| Votes.OverridesIff | backend/app/services/ai_router.py:596-615 | the elected category is taken over exactly if it is one of the five and three neighbours were found |
| Votes.NothingOverrides | backend/app/services/ai_router.py:596-602 | without an elected category the heuristic's stays |
| RefSync.ParseReceivePackOutput | backend/app/git_engine/writer.py:124-133 | the updates among the lines, in order |
| RefSync.ParseLineMeans | backend/app/git_engine/writer.py:124-132 | a line is an update exactly if it has three words, the first two of forty characters |
| PyText.WordsOfSpaced | backend/app/git_engine/writer.py:125-125 | split gives back words divided by any whitespace |
| PyText.SpacesAre | backend/app/git_engine/writer.py:125-125 | the characters that count as whitespace, by code point |
| RefSync.BranchesAre | backend/app/git_engine/writer.py:66-75 | branches are the refs under `refs/heads/`, named without it |
| RefSync.DeletesAre | backend/app/git_engine/writer.py:61-63 | a new sha of forty zeros deletes |
| RefSync.UpdateReadBackIff | backend/app/git_engine/writer.py:125-132 | a printed update is read back if and only if its ref name holds no whitespace |
| RefSync.ParsePrintedIff | backend/app/git_engine/writer.py:102-133 | printed updates, between any progress messages that hold none, are read back exactly if and only if no ref name holds whitespace |
| RefSync.CounterIsPrintable | backend/app/git_engine/writer.py:124-133 | a counter printed over another after a carriage return is such a message if and only if neither reads as an update |
| RefSync.SyncBranchCacheFromRefs | backend/app/git_engine/writer.py:187-229 | upserts, deletions and errors, each in order |
| RefSync.SyncSortsUpdates | backend/app/git_engine/writer.py:208-229 | deletions, readable tips and errors, each in order, an error by branch and the first seven characters of its commit |
| RefSync.BranchCache.PostReceive | backend/app/worker/tasks/git_tasks.py:246-279 | applies all upserts, then all deletions |
| RefSync.ReportedIff | backend/app/git_engine/writer.py:217-224 | a branch is reported exactly if some update of it names an unreadable commit |
| RefSync.CacheFollowsIff | backend/app/git_engine/writer.py:208-229 | a cached branch not reported follows the repository, tip included, if and only if it is not deleted and set again |
| RefSync.RowAfterHook | backend/app/worker/tasks/git_tasks.py:246-279 | any row after the hook: gone if some update deletes it, else at the last readable commit it was set to, else as before |
| RefSync.PushIsMirrored | backend/app/git_engine/writer.py:124-229 | from printed output, counters and all, to cached rows, for pushes that name each ref once |
| RefSync.RecreatedBranchIsLost | backend/app/worker/tasks/git_tasks.py:272-279 | the list that shows the failure |
| Permissions.ResolvePermission | backend/app/permissions/resolver.py:102-178 | the early exits compute the highest of all grants, or the error for several rows |
| Permissions.AssertPermission | backend/app/permissions/resolver.py:202-214 | allowed if and only if some grant reaches the minimum; otherwise log in, or denied |
| Permissions.ReadsSeveralRowsIff | backend/app/permissions/resolver.py:107-143 | the error for several rows: two admin rows of a caller who is not the owner, or none and two collaborator rows |
| Permissions.ConstraintsSuffice | backend/app/permissions/resolver.py:113-143 | with the unique constraints no query meets several rows |
| Permissions.NeverDrops | backend/app/permissions/resolver.py:107-178 | adding or raising a grant or widening visibility never lowers a level that is resolved |
| Permissions.RowOrderIsIrrelevant | backend/app/permissions/resolver.py:113-163 | the outcome, the error for several rows included, does not depend on the order of rows |
| Permissions.AnonymousReadsPublicOnly | backend/app/permissions/resolver.py:168-178 | an anonymous caller reads public repositories and nothing else |
| OAuthLogin.AccountService.ChooseUsername | backend/app/services/auth_service.py:402-408 | the first free one of the base name and its suffixed forms |
| OAuthLogin.AccountService.HandleOauthLogin | backend/app/services/auth_service.py:351-432 | returning, linking and new users, and every refusal |
| OAuthLogin.AccountService.RegisterUser | backend/app/services/auth_service.py:62-81 | a user is added, or refused as taken |
| OAuthLogin.RunKeepsInv | backend/app/services/auth_service.py:372-432 | in every run names and addresses stay distinct, with one account per identity, and no row is lost |
| OAuthLogin.LoginReadsRows | backend/alembic/versions/782e8e16ed14_add_e2ee_messaging_and_followers.py:102-102 | without the dropped constraint the lookups still find one row at most |
| OAuthLogin.SignInAgain | backend/app/services/auth_service.py:372-388 | after any run, signing in again changes nothing and returns the same user, not new, or refuses a disabled one |
| OAuthLogin.SignInGoesByIdentity | backend/app/services/auth_service.py:365-432 | names other than github and google are refused; a known identity under that very name signs its user in; else the address is linked, or a user made with the first free name |
| OAuthLogin.LinksFollowHistory | backend/app/services/auth_service.py:372-432 | in any run an identity belongs to a user exactly if it did before or signed in as that user |
| OAuthLogin.SignInFollowsHistory | backend/app/services/auth_service.py:365-432 | in any run a sign-in returns the user that the same provider name and identity signed in as before, and no other |
| OAuthLogin.ChosenNameIsFirstFree | backend/app/services/auth_service.py:402-408 | the first free of the base name and its suffixed forms, or none |
| OAuthLogin.BaseNameOf | backend/app/services/auth_service.py:396-400 | the letters a to z and digits of the lower-cased local part, or a stand-in |
| OAuthLogin.RegisteringAddsIff | backend/app/services/auth_service.py:62-81 | registering adds a user exactly if name and address are free and fit 39 and 255 characters |
| OAuthLogin.DisabledUserGetsInIff | backend/app/services/auth_service.py:381-392 | a disabled user gets in exactly on the first sign-in with a new identity |
| OAuthLogin.RegisterReadsTwoRowsIff | backend/app/services/auth_service.py:63-67 | registering fails with a server error exactly if name and address belong to two users |
| OAuthLogin.NeverTooLongIff | backend/app/services/auth_service.py:396-420 | for a newcomer and all draws: never refused as too wide, if and only if address and identity fit and the base name does, with four more characters if it is taken (or every suffixed name is taken) |
| OAuthLogin.LongNameNeverGetsIn | backend/app/services/auth_service.py:396-420 | a new user whose base name is wider than the column is always refused |
| StorageKey.SlugHasShape | backend/app/services/repo_storage.py:101-102 | every slug is non-empty, of safe characters, without outer hyphens |
| StorageKey.RunsBecomeHyphens | backend/app/services/repo_storage.py:101-102 | safe characters are kept and each run of others becomes one hyphen |
| StorageKey.SlugIsStripped | backend/app/services/repo_storage.py:101-102 | outer hyphens are cut off, and nothing left means "unknown" |
| StorageKey.SafeCharacters | backend/app/services/repo_storage.py:59-59 | the safe characters, by code point |
| StorageKey.FixedIff | backend/app/services/repo_storage.py:101-102 | the slug leaves exactly such strings alone |
| StorageKey.SlugIsIdempotent | backend/app/services/repo_storage.py:101-102 | taking the slug twice changes nothing |
| StorageKey.KeyDeterminesSlugs | backend/app/services/repo_storage.py:104-104 | keys are equal if and only if both slugs are |
| StorageKey.KeyOfSlugs | backend/app/services/repo_storage.py:89-104 | the key of names that are slugs, spelled out |
| StorageKey.SlugNamesNeverCollide | backend/app/services/repo_storage.py:89-104 | names that are slugs share a key only with themselves |
| StorageKey.NameCollidesWithItsSlug | backend/app/services/repo_storage.py:89-104 | any other name shares its key with its own slug |
| StorageKey.RepositoryNamesCollideIff | backend/app/services/repo_storage.py:101-104 | two repository names of one owner share a key if and only if they differ at most in case and outer hyphens |
| StorageKey.DifferentNamesCollide | backend/app/schemas/repo_schema.py:32-36 | `Repo` and `repo` are allowed names and share a key |
| Noise.FillTable | frontend/src/app/perlin.ts:20-24 | the permutation written twice |
| Noise.CornerHash | frontend/src/app/perlin.ts:51-54 | every index is within the table and wraps at 256 |
| Noise.EdgeInX | frontend/src/app/perlin.ts:43-58 | neighbours in x agree on their whole edge, the wrap included |
| Noise.EdgeInY | frontend/src/app/perlin.ts:43-58 | neighbours in y likewise |
| Noise.ZeroAtLattice | frontend/src/app/perlin.ts:26-58 | the noise is 0 at every lattice point |
| Noise.NoiseIsWeightedRamps | frontend/src/app/perlin.ts:26-58 | the noise is the ramps of the four corners, one of eight gradients each, weighted by the fades |
| Noise.FadeIs | frontend/src/app/perlin.ts:26-28 | the fade is 6t^5 - 15t^4 + 10t^3 |
| Noise.NoiseIsContinuous | frontend/src/app/perlin.ts:26-58 | no jumps anywhere: between two points the noise changes by at most a constant times their distance |
| Noise.FadeSteep | frontend/src/app/perlin.ts:26-28 | the fade changes at most 120 times as fast as its argument |
| Noise.Repeats | frontend/src/app/perlin.ts:43-46 | the field repeats every 256 cells both ways |

## Left out

- Races inside one service call: every call, and every callback of the page, is one atomic step. Two requests
  that interleave their own queries are not modelled.
- Cryptography: a token's hash is an injective wrapper, new tokens are new values, passwords are opaque.
- Two tabs: one page runs at a time; a second tab behaves like the reload that is modelled. Runs leave out the
  reloads and revisits shown to be unsafe. The request configuration that is sent again is taken to keep its retry
  mark.
- The order of the requests sent within one callback: the model sends the waiters and then the original, the page may
  mix them.
- FanOut: a set iterated while it changes never yields a member twice; JSON encoding, subscription failures
  and stopping the listener are not modelled.
- DiffLaws: rules are arbitrary search functions instead of the regular expressions; binary patches and the
  decoding of bytes that are not UTF-8 are not modelled.
- PyText: the decimal digits that are not ASCII are those of Unicode 15.0; int() refusing numbers of more than 4300
  digits is not modelled.
- RateLimit: counters are unbounded integers, and increment and expiry of one check are one step; time is whole seconds.
- GitTree: a crawl takes a directory that cannot be listed for empty; object sizes, MIME types and contents, and the resolution of refs; lower-casing covers A to Z.
- SelfTraining: fitting does not raise, and confidences are reals, so the growth threshold is compared exactly.
- ReviewMerge: fields are strings when present; lower-casing covers A to Z; the 80% test is made on whole
  numbers, which agrees with the floating-point quotient for any comment below 2^50 words.
- Votes: scores are reals; the vector search itself, the prompts and the model calls are not modelled.
- RefSync: whether a commit can be read is an arbitrary function of its id, the same for both reads of a push;
  default and protected flags, sizes and webhooks are not modelled.
- OAuthLogin: a request has finitely many random draws, and one that exhausts them without a free name has not
  finished; users are never deleted; verification mail is not modelled.
- StorageKey: lower-casing is any function that leaves strings of safe characters alone; upload and download are not modelled.
- Permissions: the callers that compare levels as strings instead of by rank.
- Noise: that the table holds every byte once; floating-point rounding, and the angle, sine and cosine taken of the noise.
- Issues, pull requests, pages, stars, settings, logging, the command line and all React components: they would
  only add easy members.
