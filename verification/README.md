# Bothos: a verified model

Bothos lets an agent propose changes to a repository and turns its output into GitHub writes. The agent
never writes itself: a policy decides a grant before it starts, a pipeline drives the run, and an executor
validates, sanitises and writes, keeping a ledger so that a repeated delivery does not repeat a write. This
project models those parts in Dafny and proves what they are meant to guarantee, for every input, every
interleaving of the steps and every point of failure.

`dafny verify dfyconfig.toml` checks everything.

## How it is organised

- `Text`, `Sorting`, `SetSizes`: strings as bytes, sorting, sizes of sets.
- `Intent`, `Validation`, `AcceptanceProofs`, `Policy`: what an agent may send, what a grant allows, and exactly what is
  accepted. `Sanitise`, `SanitiseProofs`, `SanitiseMeaning`: the rewrites that defuse mentions and closing keywords.
- `Render`: the summary comment and its marker.
- `Protocol`, `IdempotencyProofs`, `AttemptProofs`, `CommentProofs`, `CommentContents`: the write protocol as steps over
  GitHub and the ledger. Every outside call may be refused, done, or done and lost; a crash is a call refused.
  `Executor` holds the objects that perform the steps call by call.
- `DiffParser`, `DiffProofs`, `Findings`, `Deltas`, `Checks`: the diff parser against what a diff means, and the
  deterministic review checks. `ReviewPipeline` builds the trusted review from their findings and the model's.
- `AgentLoop`, `Verifier`, `Proposal`: waiting on the agent's event stream, the bounded loop of verifier feedback, and
  the pull request that comes out of it.
- `GraphCache`: what the graph cache retains.
- `Lifecycle`, `LifecycleProofs`: dispatch, schedule, jobs, deliveries, crashes and redeliveries as events of one
  system, and what every reachable state keeps; `AuthorityProofs` says why a run was allowed and a write
  made. `Worker` holds the handler and the three pipelines as methods
  that change the tables statement by statement and are shown to be runs of those events.

Code that changes things step by step is a method, tied to a function of the state; what is promised is proved
about the functions.

## Inputs of the model

Clocks, the fate of every outside call, git's state (branch, base, diff), the agent's events and verdicts, the
verifier's and the scanner's results, the matches of the secret patterns and parsed manifests are inputs. SHA-256
is taken to be injective: a key is the tuple it hashes, a signature the text. A Go string is a sequence of bytes,
one `char` each; integers are unbounded.

## Where the code falls short of its description

The model follows the code. Each point is a proved statement.

- `intent/validate.go:267-268` says that injected text should not close an issue. Truncation can expose a
  shorter number or cut the word behind one: `TruncationExposes` gives the exact condition, and `TruncationCanExpose`
  an input for every cap that has room for a reference.
- Denied paths are described as gitignore-style globs (`intent/intent.go:132`). A pattern with stars at both ends is taken
  literally at one of them: `UpgradePatterns` says what the scheduler's patterns cover, `NestedSecretsAreNotCovered`
  names paths that they do not.
- The diff parser counts git's remark about a missing final newline as a line, and takes an added line that starts
  with `++` for a file header, so that no check sees it: `PrintParse` gives the exact condition, `MisnumberedExample`
  and `HiddenExample` inputs. Such a line may even rename the file or fail the whole parse (`ForgedExample`).
- One persistent summary comment (`docs/DESIGN.md:33`) is kept if no mapping update is lost, or nothing is deleted;
  `SecondSummaryExactly` says which steps add a second one, and `StraysReachTheBound` shows any number of strays.
- One outstanding upgrade run per repository holds while no two calls of the scheduler overlap, as counting and
  inserting are not one transaction (`OverlappingCallsOverlap`), and no finished run is delivered again, as the handler
  does not look at a run's status (`RevivedRunsOverlap`): `OverlapExactly` gives the exact condition, event by event.
- A repeated delivery does not repeat an executed operation (`docs/DESIGN.md:77-78`) once it is recorded; an attempt
  lost between write and record can be repeated: `WritesAreAccountedFor` counts how often, and `WritesReachTheBound`
  shows it happen any number of times.
- A grant for issue or pull request number 0 lists a kind that no gate lets pass (`DecidedGrantsListWhatTheyAllow`).
- An agent that both ends and settles gives two stop signals, and the next wait returns before its turn has begun
  (`WaitsMatchTurns`, `EndingTwiceIsEarly`).
- Stripping classification tokens is a single pass: `StripLeavesNoToken` gives the exact condition,
  `NestedTokenSurvives` an input. That a comment is an opinion rests on its flag.
- The stall test compares joined lines. A detail of several lines, such as the scanner's error, is harmless unless one
  of them starts like a failure (`SignatureTellsFailuresApart`); `WhenTheSignatureIsEnough` says exactly which failure
  lists no other can pass for, and `GradedFailuresConfuse` shows two the verifier can produce that are confused.
- What the graph cache keeps may also be on its eviction list: a key names a tree, and two repositories may share one.
  `KeptAndEvicted` gives the exact condition, `SharedTreeIsKeptAndEvicted` an input for every number to keep.

## Model

| member | source | states |
|---|---|---|
| IdempotencyProofs.WritesAreAccountedFor | internal/executor/executor.go:137-276 | over every run of non-overlapping attempts, acknowledgements and outside interference, with a failure possible at every call: the final writes of a key that reached GitHub number at most the attempts that failed after starting one, plus one if the key is recorded; and a recorded key was written |
| IdempotencyProofs.WritesReachTheBound | internal/executor/executor.go:259-276 | the bound is reached for every kind and every n: n attempts lost between write and record write n times and leave the key unrecorded, and the next, recorded one writes once more |
| IdempotencyProofs.RecordedIsFinal | internal/ledger/ledger.go:109-118 | once a key is recorded, no later step of any run writes under it again or changes its reference |
| IdempotencyProofs.RecordedIsReturned | internal/executor/executor.go:146-151 | from then on every attempt that validates and can read the ledger answers with that reference and changes nothing |
| IdempotencyProofs.StepCounts | internal/executor/executor.go:259-276 | the same account for one step: how writes, records and spent attempts of a key may move together |
| IdempotencyProofs.ExecuteLedger | internal/executor/executor.go:146-276 | an attempt on a recorded key changes nothing; any other adds at most one log entry and one record, both under its own key, and no record without a write |
| IdempotencyProofs.FinalWriteFrame | internal/executor/executor.go:176-261 | whatever the kind of the write, it leaves the mapping and the recorded intents alone, logs exactly the writes that took effect, and names a comment only if one was written |
| IdempotencyProofs.WrittenEntry | internal/executor/executor.go:178-258 | the entry an attempt adds is resolved from the sanitised payload, and a pull request only goes out on the run's own branch |
| IdempotencyProofs.PayloadDoesNotSteer | internal/executor/executor.go:165-254 | two accepted payloads of one kind under the same grant, git state and mapping land, if they land, on the same repository, branch, base, number, comment and head with the same credential tier; and that place is the grant's or the run's own branch |
| AttemptProofs.AttemptStartsExactly | internal/executor/executor.go:137-276 | an attempt starts its write if and only if the payload is accepted, its key unrecorded, ledger and credential answer, and, for a pull request to open or one to update from a worktree, git's diff is not empty, within the grant's limits and touches no forbidden path; to open one the branch is the run's own, the base known and the push done; for a review the mapping is read and the inline remarks are placed; without a start nothing changes |
| AttemptProofs.DiffDecision | internal/intent/validate.go:91-110 | the diff check lets a diff through exactly if it is not empty, within the limits and touches nothing below .github/workflows, .github/actions, .git or .bot, no CODEOWNERS or .gitattributes file, no .npmrc or .pypirc at any depth, and nothing that a pattern of the grant covers; and it says which of these fails |
| AttemptProofs.ForbiddenDiffIsRefused | internal/intent/validate.go:101-108 | an attempt is refused for a denied path exactly if its diff is within the limits and touches one, whatever the payload and whatever else fails |
| AttemptProofs.PatternForms | internal/intent/validate.go:308-321 | a pattern covers everything below a directory, a name at any depth, or one path, by its form |
| AttemptProofs.WildFills | internal/intent/validate.go:317-320 | any other pattern matches a path exactly if each of its stars can be read as some run of bytes without a slash |
| AttemptProofs.UpgradePatterns | internal/upgrade/schedule.go:47-47 | which paths the scheduler's own patterns forbid, exactly |
| AttemptProofs.NestedSecretsAreNotCovered | internal/upgrade/schedule.go:47-47 | three paths that they do not: a file below a secrets directory, a pem and a key file |
| AttemptProofs.ReferenceNamesTheWrite | internal/executor/executor.go:174-276 | a fresh reference names the grant's repository and the number that was written to: the one GitHub gave a new pull request, or the grant's |
| AcceptanceProofs.WrittenIsDefanged | internal/executor/executor.go:137-261 | every write that an attempt makes is the payload it was sent, in the grant's repository, on its number or on the run's own branch, with every text defanged: no control characters, mentions in backticks, at most the truncation mark over its cap and, where it is not cut, closing no issue but the run's own and missing nothing but control characters and keyword letters; title, verdict, labels and draft flag are as sent |
| AuthorityProofs.EveryWriteIsAccountable | internal/executor/executor.go:137-276 | in every reachable state of the whole system, every write that GitHub holds was made by a run that was allowed and under way, on an envelope its grant entitles it to send, with all those checks in order, and is that envelope's payload, so defanged and so placed |
| AuthorityProofs.RecordsAreAccountable | internal/executor/executor.go:146-151 | in every reachable state a recorded key is that of a write made by the same run for the same payload of the same kind, so that no attempt is answered for another one |
| AuthorityProofs.AllowedRunsAreAuthorised | internal/dispatch/dispatch.go:57-126 | in every reachable state an allowed run was dispatched on a trigger that the rules permit, with the grant of that trigger, or inserted by a call of the scheduler that the repository had opted into |
| CommentProofs.EveryStepEvolves | internal/executor/github_writer.go:97-127 | every step of the protocol does one of four things to a thread's summary comments: nothing but naming one of them; one creation, only where none was named and none existed or the named one is gone; one planted by a comment intent that carries the marker; or a deletion |
| CommentProofs.SecondSummaryExactly | internal/executor/github_writer.go:97-127 | step by step, a thread's summary comments become more, and more than one, if and only if the step is an attempt on the thread that gets to its write while there is one already, and either it is a review, the mapping names a comment that is gone, the edit is answered and the creation takes effect, or it is a comment intent that carries the marker and takes effect |
| CommentProofs.RunsStaySound | internal/executor/github_writer.go:190-234 | in every reachable state ids identify comments, and a mapped comment that still exists is a summary comment of ours on that thread |
| CommentProofs.StraysAreAccountedFor | internal/executor/executor.go:154-163 | over every run with deletions, lost updates and foreign comments, the summary comments of a thread other than the mapped one number at most the creations left unnamed, and these at most the steps of the run whose fates lose the answer of a creation or refuse the mapping update, plus the comment intents that carry the marker themselves |
| CommentProofs.UnnamedNeedsALoss | internal/executor/executor.go:263-270 | a step leaves a new summary comment unnamed only if its fates lose one of those two calls, or a comment intent planted it |
| CommentProofs.OneSummaryWhenNothingIsLost | internal/executor/executor.go:263-270 | so a thread has at most one summary comment if no step of the run loses one of the two calls and none plants one, whoever deletes what |
| CommentProofs.OneSummaryWhenNothingIsDeleted | internal/executor/github_writer.go:208-234 | and at most one if nothing is deleted, however many updates are lost, but for comment intents that carry the marker themselves |
| CommentProofs.ReviewGrantsPlantNothing | internal/policy/policy.go:104-119 | under a grant that policy gives a pull request or a schedule no comment intent can plant such a comment |
| CommentContents.OthersCommentsStay | internal/executor/github_writer.go:97-127 | whatever an attempt or an acknowledgement does and whatever fails on the way, it neither changes nor removes a comment of anybody else, nor one of ours without the marker |
| CommentContents.AnsweredReviewStands | internal/executor/executor.go:235-270 | a review that is answered stands on its pull request, word for word as rendered, in a comment of ours that the ledger names |
| CommentContents.AnsweredCommentStands | internal/executor/executor.go:242-246 | so does the text of an answered comment intent |
| CommentProofs.StraysReachTheBound | internal/executor/github_writer.go:111-127 | the bound is reached for every n: a deletion and n refused mapping updates leave n stray summary comments |
| Executor.GitHub.FindOwnedReviewComment | internal/executor/github_writer.go:208-234 | paging through the thread finds the first comment of ours that carries the marker, on whatever page, or none |
| Executor.GitHub.EditComment | internal/executor/github_writer.go:109-118 | the comment is replaced just if it exists and the call takes effect; the caller learns whether it was gone |
| Executor.GitHub.CreateComment | internal/executor/github_writer.go:120-127 | a new comment of ours at the end, under a fresh id |
| Executor.GitHub.PostReview | internal/executor/github_writer.go:97-127 | edits the mapped or else the recovered comment, creates one where there is none or it is gone, and logs a review write with the arguments it was given: the step of the protocol |
| Executor.GitHub.AcknowledgeReview | internal/executor/github_writer.go:190-206 | recovers an existing summary comment before it creates a placeholder |
| Executor.Ledger.UpsertReviewComment | internal/ledger/ledger.go:82-90 | the mapping of that thread alone is replaced |
| Executor.Ledger.RecordIntent | internal/ledger/ledger.go:111-118 | a key is inserted once; a second insert changes nothing |
| Executor.Executor.Execute | internal/executor/executor.go:137-276 | the call-by-call code over both stores, from validation to record, performs exactly the step of the protocol and returns its result |
| Executor.Executor.Write | internal/executor/executor.go:174-261 | the switch over the payload: the call made for each kind, with the credential, git's branch and base, the grant's number and head and the mapped comment as arguments, logs exactly the write that the protocol resolves |
| Executor.Executor.WriteAndRecord | internal/executor/executor.go:235-276 | the part that changes something: one call to GitHub, then the mapping, then the record, each only after the one before succeeded |
| Executor.Executor.AcknowledgeReview | internal/executor/executor.go:281-307 | acknowledge and map, with the state of both stores and the answer as the protocol has them |
| Render.RenderPostReview | internal/executor/github_writer.go:236-278 | the builder's text is the concatenation of the summary's pieces, in order |
| Render.SummaryShowsEveryRemark | internal/executor/github_writer.go:236-278 | the text is the marker, the escaped summary, the recommendation just if the verdict requests changes, and either the remarks or, just if there are none, a line that says so; each remark has its line, in order, as verified or as an opinion by its flag, with its escaped place and words, and with its escaped evidence exactly if it is verified, has a place and has some |
| Render.MarkerOnlyAtStart | internal/executor/github_writer.go:22-28 | whatever verdict, summary, paths, bodies and evidence say, the rendered summary contains the marker exactly once, at its start |
| Render.EscapeInjective | internal/executor/github_writer.go:236-278 | escaping loses nothing: two texts that are shown alike are alike |
| Render.EscapeHasNoMarkup | internal/executor/github_writer.go:236-278 | what is escaped holds no angle bracket and no quote |
| SanitiseProofs.SanitisedMentionsGuarded | internal/intent/validate.go:274-298 | for every text, cap and scope: in the final output every at sign before a letter or digit stands right after a backtick, and the output is at most the cap plus 15 bytes |
| SanitiseProofs.DefusedIsClean | internal/intent/validate.go:284-292 | just before truncation, every closing keyword left names the run's own issue: the rewrite misses none and creates none |
| SanitiseProofs.DefuseFixedPoints | internal/intent/validate.go:269-292 | the rewrite changes a text exactly when it closes a foreign issue, and doing it twice is doing it once |
| SanitiseProofs.TruncationExposes | internal/intent/validate.go:294-296 | after truncation the guarantee holds if and only if the text fits or the kept bytes do not end in a foreign closing reference |
| SanitiseProofs.TruncationSafe | internal/intent/validate.go:294-296 | a cut that does not fall between a digit and a word character exposes nothing |
| SanitiseProofs.TruncationCanExpose | internal/intent/validate.go:294-296 | whatever the run's own number, some text leaves the sanitiser closing another issue if and only if the cap is at least six bytes, the length of the shortest closing reference; so under every cap the program uses |
| SanitiseProofs.GraphicHeadSurvives | internal/intent/validate.go:274-298 | a text that starts visibly still does after sanitising, so it is not blank |
| SanitiseProofs.ClosingLocal | internal/intent/validate.go:269-269 | a closing reference depends only on the bytes it covers and the one behind it |
| SanitiseMeaning.ClosesOnlyMeans | internal/intent/validate.go:269-269 | what the scanner takes for a closing reference is what the expression describes: one of the nine keywords in any case, with a long s for an s, at a word boundary, white space, a number sign and digits up to the end of a word |
| SanitiseMeaning.ReferencesAreRewritten | internal/intent/validate.go:286-292 | such a reference becomes ref and its number, unless it is the run's own; every other byte is kept |
| SanitiseMeaning.MentionsAreQuotedWhole | internal/intent/validate.go:266-283 | a mention is put in backticks whole, up to 39 characters of its name |
| SanitiseMeaning.SanitisedIsControlFree | internal/intent/validate.go:275-280 | nothing that leaves the sanitiser holds a control character other than newlines and tabs, if the text was well encoded |
| SanitiseMeaning.SanitisingKeepsTheRest | internal/intent/validate.go:274-292 | up to truncation every printable byte that is neither a backtick nor a letter of a keyword is still there, in order, and no other one has come in |
| SanitiseMeaning.HarmlessTextStays | internal/intent/validate.go:274-298 | a text within the cap with no control characters, no mentions and no foreign closing references comes out as it went in |
| Validation.AcceptedKind | internal/intent/validate.go:55-87 | an accepted payload is of a known kind that the grant lists, fits its token and scope, belongs to its run and is in time |
| AcceptanceProofs.AcceptsExactly | internal/intent/validate.go:55-87 | validation accepts an envelope if and only if it is the run's own, of the known version, in time, of a listed kind that its scope has a place for and its credential covers, and its payload is complete and within the limits |
| AcceptanceProofs.RefusedBecause | internal/intent/validate.go:57-82 | the reason an envelope is refused for before its payload is looked at, the first that applies |
| AcceptanceProofs.OverTheLimit | internal/intent/validate.go:182-260 | a payload is refused for its size exactly if a review has too many comments or a label change adds too many |
| AcceptanceProofs.AcceptedIsDefanged | internal/intent/validate.go:182-260 | what it returns, for every kind, is the payload as sent, with the title on one line of at most 120 bytes and every other text defanged |
| Validation.SameKey | internal/intent/validate.go:115-125 | two attempts share a key if and only if run, repository, scope, kind and payload are the same |
| Validation.SanitiseCommentsInPlace | internal/intent/validate.go:210-239 | the loop that rewrites a review's comments in place computes the accepted list, or stops at the first bad comment |
| Validation.SanitisedComments | internal/intent/validate.go:210-239 | a list of comments is accepted just if each is; accepted comments keep path, line, side and tag, stand on a line and a known side, carry evidence exactly if verified, and mention nobody |
| Policy.DecidesExactly | internal/policy/policy.go:83-140 | a trigger starts a run if and only if the repository is enabled and: a scheduled one always; a pull request if a manual review has an actor with write permission, a review label an actor on the allowlist, and an automatic review is switched on; a labelled issue if a label is allowed, the actor on the allowlist and allowed to write. The grant then is the trigger's: its repository, number, commits and base, the kinds and credential of its kind of run, the rules' denied paths, the default limits and one hour |
| Policy.DecidedGrantsListWhatTheyAllow | internal/policy/policy.go:83-140 | until expiry an intent kind passes every capability, token and scope gate exactly when the grant lists it, if and only if the run is scheduled or its number is not zero |
| Policy.UpgradeGrantsListWhatTheyAllow | internal/upgrade/schedule.go:31-52 | the same for the scheduler's own grant |
| Policy.WideningNeverDeniesNorEscalates | internal/policy/policy.go:83-140 | enlarging the rules never takes an allowed trigger back and changes nothing of its grant but the denied paths |
| DiffParser.ParseDiff | internal/review/diffcheck.go:97-142 | the scanning loop computes the parse, or fails where a hunk header or a path cannot be read |
| DiffProofs.ParsedFiles | internal/review/diffcheck.go:97-142 | parsing what git prints with no context for any list of plain changes, whatever they add, reads those files, in order, as the parser sees them, and fails just if an added line has emptied a path |
| DiffProofs.PrintParse | internal/review/diffcheck.go:97-142 | every file comes back with its path and exactly the lines its hunks add, at their head line numbers, if and only if no hunk replaces the unterminated last line of its base and no added line starts with ++ |
| DiffProofs.ExpectedIsTheHead | internal/review/diffcheck.go:120-130 | those lines are the head's: head is the base with the hunks applied, and each number is, in strictly increasing order, where head has that text |
| DiffProofs.ExpectedIsComplete | internal/review/diffcheck.go:120-130 | and they are all of them: a line is expected exactly if some hunk adds it, as many lines below its place in the base as the hunks before have gained |
| DiffProofs.MisnumberedExample | internal/review/diffcheck.go:127-130 | a change of a file without a final newline whose first line is reported as line 2 |
| DiffProofs.HiddenExample | internal/review/diffcheck.go:113-123 | a new file whose only line starts with ++ and is not reported at all |
| DiffProofs.ForgedExample | internal/review/diffcheck.go:113-114 | an added line that names a file renames the file it is in, and one that names none fails the parse |
| DiffProofs.HeaderReads | internal/review/diffcheck.go:153-167 | the number read from a printed hunk header is that of the first line the hunk adds, or of the line before it if it adds none |
| DiffProofs.UnreadableHeader | internal/review/diffcheck.go:153-167 | no number is read exactly if the header has no third word, that word has no plus sign, or what stands between the sign and the first comma is no number |
| DiffProofs.UnreadableHunkFails | internal/review/diffcheck.go:115-120 | a diff in which some file has such a header is not read at all |
| DiffProofs.PathAfterMarker | internal/review/diffcheck.go:144-151 | the path read from a file header is the one behind its last marker |
| DiffProofs.ParsedFilesAreAnchored | internal/review/diffcheck.go:97-142 | every line the parser reports of a printed diff is numbered from 1 and every file keeps its header, whatever the lines say |
| Findings.DeniedPathFindings | internal/review/diffcheck.go:169-191 | the list of findings, in the order of the files: one for each file on a denied path and none for any other |
| Findings.LineFindings | internal/review/secrets.go:25-48 | the list of findings for an added line: one for every rule it matches, in rule order, then one for a bare URL, and nothing else |
| Findings.SecretFindings | internal/review/secrets.go:22-52 | these lists, file by file and line by line: every reason to report an added line is reported, and nothing is reported without one |
| Deltas.DependencyDetails | internal/review/diffcheck.go:384-415 | one entry, in name order, for each name whose binding differs, and none for any other |
| Deltas.DeltaPatches | internal/review/diffcheck.go:384-415 | patching the old dependencies with the delta gives the new ones, and the delta is empty exactly when they agree |
| Deltas.NewInHead | internal/review/diffcheck.go:441-449 | the map of the head's advisories that the base does not have, each with the scanner's last report |
| Deltas.OsvDelta | internal/review/diffcheck.go:436-478 | the advisories that no finding of the base has, by ecosystem, package and advisory, in that order and each once, with the version that was reported last |
| Checks.DependencyFindings | internal/review/diffcheck.go:193-254 | it fails exactly if a changed manifest cannot be read; otherwise it reports, manifest by manifest in path order and name by name, exactly the changed names of the changed manifests, each once, or, where only lockfiles changed, the first of them; and its first input is the first manifest or else lockfile in path order |
| Checks.DependencyInputs | internal/review/diffcheck.go:193-208 | the manifests and the lockfiles of the diff, each list sorted: exactly the files whose last path component is one of the three names, or one of the four or of the form requirements*.lock |
| Checks.BaseNameEnds | internal/review/diffcheck.go:256-263 | the base name of a path is its last component, in whatever directory |
| Checks.NamesCountEverywhere | internal/review/diffcheck.go:256-269 | a file with one of the manifests' or lockfiles' names is one of those inputs in every directory |
| Checks.OsvFindings | internal/review/diffcheck.go:436-479 | exactly the advisories that are new in the head are reported, each once, in key order, with the last report of it and on the first input |
| Checks.DependencyAndScan | internal/review/diffcheck.go:55-67 | it fails exactly on an illegible manifest, or on a failed scan where there is something to scan; otherwise it reports exactly the dependency findings and then the new advisories, each as often as it is due |
| Checks.CheckAll | internal/review/diffcheck.go:45-82 | the checks fail exactly on an illegible manifest, or on a failed scan where there is something to scan; otherwise they report, in order and each as often as it is due, exactly the denied paths, the matching lines, the dependency findings and the new advisories; and, for files read from a diff, a review can carry all of it |
| ReviewPipeline.BuildTrusted | internal/runpipe/review.go:134-174 | opinions are demoted in place, the findings sorted in front of them, and the list cut |
| ReviewPipeline.TrustedReviewIsAccepted | internal/runpipe/review.go:134-185 | the executor's second validation accepts the result while the grant lasts; the written comments are first the findings, verified, each with its path, line, sanitised text and sanitised evidence, then the model's stripped and sanitised words as opinions; a finding is cut only when no opinion is left; and verdict and stripped, sanitised summary are the model's |
| ReviewPipeline.FindingLeqIsPreorder | internal/runpipe/review.go:142-154 | the comparison of findings is a total preorder |
| ReviewPipeline.FindingLeqMeans | internal/runpipe/review.go:142-154 | it is by rule, then path, then line, then detail, texts in byte order |
| ReviewPipeline.StripLeavesNoToken | internal/runpipe/review.go:217-219 | no classification token is left in the stripped text if and only if no bracket of the input spells one around whole tokens |
| ReviewPipeline.FlatTextIsStrippedClean | internal/runpipe/review.go:217-219 | so none is left wherever brackets are not nested, whatever else the text says |
| ReviewPipeline.NestedTokenSurvives | internal/runpipe/review.go:217-219 | a concrete text out of which a token comes whole |
| ReviewPipeline.StripRemovesOnlyTokens | internal/runpipe/review.go:217-219 | nothing but whole tokens is removed, and nothing at all exactly if there is none |
| ReviewPipeline.TokensInAnyCase | internal/runpipe/review.go:217-219 | a verified token goes in whatever case it is written |
| ReviewPipeline.OpinionTokensInAnyCase | internal/runpipe/review.go:217-219 | so does an opinion token |
| AgentLoop.AwaitConfigAcks | internal/agent/rpc.go:487-523 | it succeeds exactly when the first answer to every command is a success, and reads exactly up to the last outstanding answer, or to the end |
| AgentLoop.AwaitSettled | internal/agent/rpc.go:529-554 | it reads up to the first event that settles the agent, ends its run for good or refuses the prompt, and succeeds just on the first two; an end that will be retried is passed over |
| AgentLoop.WaitsMatchTurns | internal/agent/rpc.go:524-554 | the k-th wait ends with the k-th turn, for every k, if and only if every turn gives exactly one stop signal |
| AgentLoop.EndingTwiceIsEarly | internal/agent/rpc.go:542-547 | an agent that reports its end and then that it settled ends two waits with one turn, whatever follows |
| AgentLoop.VerifyLoop | internal/agent/rpc.go:272-309 | at most maxRounds results and maxRounds - 1 feedback prompts; it stops at a pass, at the last round, at an unchanged signature or at a prompt that cannot be written, and at nothing else; and no prompt is delivered after the last result |
| AgentLoop.RunAgent | internal/agent/rpc.go:224-380 | at most maxRounds results, or three, and one prompt more, each waited for before anything else; every result is the verifier's, or a red one if it could not be had; the outcome as a function of the last readable verdict and the last result, and none is proposed without commits or after a blocked verdict; a security proposal carries a result taken after the last delivered prompt |
| AgentLoop.RedResultsAreListed | internal/agent/rpc.go:729-737 | the proposal mentions known failures exactly when the last result is red, and then lists every one of them |
| AgentLoop.TitleIsOneLine | internal/agent/rpc.go:702-711 | a proposed title is one non-empty line of at most 120 bytes |
| AgentLoop.TitleIsTheFirstLine | internal/agent/rpc.go:702-711 | it is made of the words on the first line of the agent's summary, as many as fit, or is the standing one if there are none |
| AgentLoop.ReportQuotesTheAgent | internal/agent/rpc.go:712-727 | the body calls the change unverified unless the agent says it is finished, and quotes what the agent reports about change and verification, or that it reports nothing |
| AgentLoop.LatestIsLatest | internal/agent/rpc.go:272-309 | the verdict a run ends with is the last one that could be read |
| Proposal.ProposalIsAccepted | internal/agent/rpc.go:695-750 | whatever the agent reports and the verifier finds, the proposed pull request is accepted as a draft under an issue run's, a scheduled run's or the scheduler's grant, exactly until it expires |
| Verifier.GradeClaims | internal/verifier/verifier.go:89-111 | the nested loop reports, claim by claim, the first remaining finding that contradicts it |
| Verifier.PassesWhenNothingRemains | internal/verifier/verifier.go:89-111 | no failure is reported exactly when no remaining finding contradicts a claim |
| Verifier.GradedBlames | internal/verifier/verifier.go:89-111 | every failure names a claim and a finding of its package and, where the claim has one, its advisory, with the version found; and every contradicted claim has one |
| Verifier.ComputeSignature | internal/verifier/verifier.go:137-145 | the lines, collected, sorted and joined, give the signature |
| Verifier.SignatureIgnoresOrder | internal/verifier/verifier.go:137-145 | failure lists that are permutations of each other have the same signature |
| Verifier.SignatureTellsLinesApart | internal/verifier/verifier.go:137-145 | for failures of the program's own classes, of which no detail has a newline followed by a class and a bar, signatures agree if and only if the lists have the same lines up to order |
| Verifier.SignatureTellsFailuresApart | internal/verifier/verifier.go:137-145 | for failures of the program's own classes, of which no detail has a newline followed by a class and a bar, however many lines it has, signatures agree if and only if the lists are the same up to order and snippets, so a stall is an unchanged failure set |
| Verifier.WhenTheSignatureIsEnough | internal/verifier/verifier.go:137-145 | a list of failures of the program's own classes is told by its signature from every other such list if and only if it is empty, or a single failure whose detail has no newline followed by a class and a bar where the text before it is not above the text behind it in order |
| Verifier.NewlinesConfuse | internal/verifier/verifier.go:137-145 | a detail that repeats its own line behind a newline passes for two failures |
| Verifier.GradedFailuresConfuse | internal/verifier/verifier.go:89-111 | the grading itself produces both, for every claim and every finding that contradicts it: a version that goes on behind a newline makes one failed claim pass for two |
| GraphCache.RankIsPosition | internal/graphcache/graphcache.go:73-76 | in a repository's stable newest-first order every entry stands at its rank |
| GraphCache.GroupByRepo | internal/graphcache/graphcache.go:60-63 | each repository's entries, in the order they came |
| GraphCache.FlyingKeys | internal/graphcache/graphcache.go:64-72 | the keys some unfinished run uses, each once |
| GraphCache.RetainList | internal/graphcache/graphcache.go:77-87 | what one sorted list adds to the kept and to the evicted keys |
| GraphCache.Retain | internal/graphcache/graphcache.go:59-90 | whatever order the repositories are visited in: a key is kept exactly if it is in flight or some entry of it ranks below keepPerRepo, evicted exactly if it is not in flight and some entry ranks at least that; nothing is kept twice |
| GraphCache.MoreKeepsMore | internal/graphcache/graphcache.go:59-90 | raising keepPerRepo only grows the kept keys and shrinks the evicted ones |
| GraphCache.KeptAndEvicted | internal/graphcache/graphcache.go:56-90 | a key is both kept and evicted if and only if no unfinished run uses it, one entry of it ranks below keepPerRepo and one at least that; some number to keep does that to a list exactly if a key no run uses stands at two ranks |
| GraphCache.SharedTreeIsKeptAndEvicted | internal/graphcache/graphcache.go:29-43 | it happens for every positive keepPerRepo: a key names a tree, not a repository, so a fork that has moved on evicts the graph its origin keeps |
| GraphCache.SecondPassEvictsNothing | internal/graphcache/graphcache.go:56-90 | with distinct keys nothing is both kept and evicted, and a second pass over the survivors evicts nothing |
| LifecycleProofs.FinalStatusesAreBacked | internal/ledger/ledger.go:189-237 | in every reachable state a run marked succeeded carries the reference of an intent of its own kind that was recorded under its id and written to GitHub, and one that needs input is an issue run with the reference of its recorded comment |
| LifecycleProofs.RowsJobsAndLedgerAgree | internal/dispatch/dispatch.go:78-126 | in every reachable state an allowed run has exactly one job and a denied run none, nor any reference, intent or write, and every intent and write belongs to an allowed run |
| LifecycleProofs.DecisionsAreFinal | internal/ledger/ledger.go:162-168 | no event removes a run or changes what was decided about it |
| LifecycleProofs.EventsKeep | cmd/worker/main.go:70-135 | every transaction, statement, executor call, crash and redelivery keeps the invariant of rows, jobs, phases and ledger |
| LifecycleProofs.RunsStaySound | cmd/worker/main.go:70-135 | so it holds after every interleaving of them |
| LifecycleProofs.AdvanceKeeps | internal/ledger/ledger.go:189-237 | a statement on a run's row keeps the meaning of its status and of the phase its delivery is in |
| LifecycleProofs.CrashedRunsStartAgain | cmd/worker/main.go:70-84 | wherever a delivery has come, a crash leaves row, job, ledger and GitHub as they are, and the run can be delivered again from the start |
| LifecycleProofs.AnsweredIsRecorded | internal/executor/executor.go:272-275 | an attempt that answers has left, or found, the record of its key with that reference |
| LifecycleProofs.TheWorldFollowsTheProtocol | internal/executor/executor.go:137-307 | what GitHub and the ledger see of the whole system is a run of the write protocol, so that all that is proved of those runs holds of it |
| LifecycleProofs.UpgradeRunsAreBounded | internal/upgrade/schedule.go:67-125 | after every interleaving a repository's queued or running upgrade runs number at most one, plus the times a finished one was delivered again and marked running, plus the times the scheduler inserted one on a count that no longer held |
| LifecycleProofs.OverlapExactly | internal/upgrade/schedule.go:67-125 | event by event, the upgrade runs under way become more, and more than one, if and only if a finished one is marked running again while another is under way, or a call of the scheduler inserts one while another is under way |
| LifecycleProofs.OneUpgradeRunAtATime | internal/upgrade/schedule.go:67-125 | so there is at most one where no two calls of the scheduler for the repository overlap and no finished run is delivered again |
| LifecycleProofs.OverlappingCallsOverlap | internal/upgrade/schedule.go:67-125 | two overlapping calls do put two upgrade runs under way |
| LifecycleProofs.RevivedRunsOverlap | cmd/worker/main.go:70-84 | one such redelivery does put two upgrade runs under way, without any overlap of calls |
| Worker.RunStore.InsertRun | internal/ledger/ledger.go:148-168 | a row is inserted unless its id is taken |
| Worker.RunStore.InsertWithJob | internal/dispatch/dispatch.go:109-126 | row and job are inserted together or not at all |
| Worker.RunStore.SetRunStatus | internal/ledger/ledger.go:189-197 | the status of that row alone |
| Worker.RunStore.SetRunRef | internal/ledger/ledger.go:202-206 | the reference of that row alone |
| Worker.HandleEvent | internal/dispatch/dispatch.go:57-126 | a denied run is recorded and nothing else; an allowed one gets its row and its job in one transaction |
| Worker.CountOutstanding | internal/upgrade/schedule.go:67-78 | the call goes on exactly if the repository has opted in, the count is answered and no upgrade run of it is queued or running: the first event of a call |
| Worker.InsertUpgrade | internal/upgrade/schedule.go:80-111 | one row with its job or neither, whatever has happened since the count: the second event |
| Worker.ScheduleUpgrade | internal/upgrade/schedule.go:67-125 | where nothing comes between, a call is these two events one after the other: nothing without the opt-in or while a run is outstanding, otherwise one row with its job |
| Worker.Worker.RunUpgrade | internal/runpipe/runpipe.go:91-178 | the pipeline, statement by statement, is a run of the system's events that hands over exactly the planned envelope; it ends succeeded exactly if the executor accepts and both later statements are answered, and a stand-down ends failed |
| Worker.Worker.RunIssue | internal/runpipe/issue.go:52-158 | the same for an issue run, which accepts one draft pull request, and whose blocked handoff ends in needs_input |
| Worker.Worker.RunReview | internal/runpipe/review.go:60-196 | the same for a review, whose envelope is the trusted review of the findings in order |
| Worker.Worker.Finish | internal/runpipe/runpipe.go:168-177 | execute, record the reference, conclude: each only after the one before |
| Worker.Worker.Fail | internal/runpipe/runpipe.go:106-110 | the fail closure marks the run failed twice over and touches nothing else |
| Worker.Worker.RunPipeline | cmd/worker/main.go:101-125 | the pipeline of the run's trigger, with what it hands over and the status it leaves |
| Worker.Worker.HandleRun | cmd/worker/main.go:70-135 | the handler is a run of the system's events that hands over exactly what the run's pipeline plans; when it returns the job is over, with the final status of what was carried through, and otherwise, if that last statement is answered, as failed |
| Worker.HandedReviewIsAccepted | internal/runpipe/review.go:167-188 | no review run fails on the executor's validation of its own review while the grant lasts |
| Worker.HandedInOrder | internal/runpipe/issue.go:105-118 | a delivery hands over at most one envelope: for an issue run the agent's only intent, a draft pull request, or the handoff of a blocked verdict; for a review one for a pull request at two known commits; for an upgrade the agent's first pull request |
| Worker.BlockedBodySays | internal/runpipe/issue.go:131-136 | the handoff says that the run is blocked and quotes the agent's reason |
| Worker.BlockedCommentIsAccepted | internal/runpipe/issue.go:131-150 | the comment of a blocked issue run, whatever the agent said, is accepted under policy's grant exactly until it expires |

## Left out

- Executor.Executor.Execute: two attempts on the same key or pull request at once; no lock lies between lookup and write, and attempts are taken one after the other.
- Validation.SanitiseCommentsInPlace: the JSON encoding of payloads; keys and payloads are compared as decoded, and invalid UTF-8 is not modelled.
- SanitiseProofs.SanitisedMentionsGuarded: a negative body limit, on which the program would panic.
- DiffParser.ParseDiff: lines over the scanner's 4 MB, quoted paths, paths with blanks, and numbers beyond 64 bits in a hunk header.
- Findings.SecretFindings: the secret patterns themselves are predicates of the text.
- Checks.DependencyFindings: reading and parsing manifests; their dependencies are inputs.
- ReviewPipeline.BuildTrusted: sort.Slice may order findings that compare equal differently; the order is taken to be stable.
- GraphCache.Retain: how often a key occurs among the evicted ones.
- Executor.GitHub.PostReview: inline review comments are a call that works or fails; which of them GitHub takes is not modelled. Edits of the comments' text by others are not either.
- AttemptProofs.WildFills: question marks, character classes and escapes in patterns of denied paths; stars are modelled.
- Worker.Worker.RunUpgrade: pushing a branch and setting labels are single calls; the partial effects of a failed one are not part of the log of writes.
- Worker.HandleEvent: webhook signatures and the mapping of events to triggers, and loading the pull request of a comment event.
- Worker.Worker.HandleRun: River's own retries and timeouts; a job may be delivered again at any time.
- Scan runs (cmd/scan), which are inserted as running and have no job, the findings and updates tables, usage records and run timestamps.
- Verifier: the checks for uncommitted changes and failing tests; their results are inputs of the feedback loop.
- Prompts, sandboxes, credentials, logging, the HTTP gateway, SQL text, git and scanner processes and the parsers of their output.
