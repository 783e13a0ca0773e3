# Verification of the chatops bot

This project models the parts of the bot that hold protocol, concurrency or parsing properties, and proves those
properties for all inputs and all runs. `dafny verify dfyconfig.toml` checks all of it.

## How it is organised

**Deployment operations** (`internal/kube/client.go`). `KubeObjects` holds the fields of Deployments and ReplicaSets
that the bot uses. `Revisions` holds the choice of the rollback target and the list of revisions; `Sorting` and
`Decimal` give `sort.Slice`, `strconv.ParseInt`, `"%d"` and `fmt.Sscanf` as those functions behave (clamping, dropped
errors and unspecified order of equal elements included). `Operations` describes Scale, Rollback and Restart as
reactive programs: the next call into the cluster, and how the program goes on from the reply. `Cluster` lets any
number of runs of these programs, outside writers and the status-writing controller interleave step by step on one
stored Deployment. `ClusterInvariants` proves what every step keeps, `ClusterTheorems` the results over whole runs.
`Traces` and `RunLogs` tell a run from its exchanges and its log alone, in fields and replies and without the
program's own definitions: which requests follow which replies, what each update changes, exactly when and how a run
ends, and what its lines mean; `RunTheorems` proves this of every run. `KubeClient` is the client as it is written:
statements, loops, in-place sort, a log channel and the deferred close; between any two of its calls an arbitrary list
of steps by others happens. Each method is proved to be a run of its program, so the results over runs apply to it.
`Sequences` says what it means that a loop has kept some elements of a sequence in order.

The server follows the section "Concurrency Control and Consistency" of the Kubernetes API Conventions: an Update
whose `resourceVersion` is not the stored one is rejected with a message containing "the object has been modified"; a
changed spec gets a new `generation`; an Update leaves status alone; an Update or a status report that changes nothing
stores nothing. A refused call may carry any error text and has no effect. The controller computes a status from the
version in its cache, which only moves forward, and writes that version's generation into `observedGeneration`.

**Status dashboard** (`internal/monitoring/dashboard.go`). `PodMetrics` has the parsers and the meaning of each field,
`Dashboard` the goroutines, mutex and wait group as a state machine with every interleaving, `DashboardClient` the
loops over result rows, the alert filter and the collection of pods.

**Chat side.** `Commands` parses commands, `LogPipe` is the rendezvous between an operation and the goroutine that
forwards its log lines, and `ChatLog` puts that rendezvous together with an operation in a moving cluster. `Bot` is the
login dialogue and the confirmation buttons; `BotUsers` says what its shared variables mean for each user. `Poller` is
the start and stop protocol of the alert poller. `Alerting` and `DutyRepository` decide who is told about an alert.
`Markdown` escapes text. `Wrappers` has Option, Result and the ending of a call that may panic.

## Where the code does not do what it might be expected to do

- Scale and Rollback poll without comparing `Generation` with `ObservedGeneration`, so they can report success on a
  status whose controller has not seen the spec beside it, a stale success. Left to themselves they do so exactly
  when, before the call, the status already satisfies their readiness formula and either the call changes the spec or
  the stored spec is itself unobserved (`ScaleStaleExactly`, `RollbackStaleExactly`); from each such state a stale
  success is reachable (`ScaleCanBeStale`, `RollbackCanBeStale`; `SilentRollbackCanBeStale` shows one that changes
  nothing). Over every interleaving the status read reflects the run's own commit exactly when the observed generation
  has reached the commit's, whether or not the commit changed anything (`FreshExactlyWhenObserved`); where it does
  not, the success is stale (`UnreflectedIsStale`). Restart never ends so.
- Rollback's update loop gives up silently after five conflicts. `CommitsPerRun` carries that case and
  `RollbackCanSucceedWithoutCommit` shows that it occurs.
- The implicit rollback search drops parse errors, so it may stop at a ReplicaSet whose annotation is not a number.
  `ImplicitTargetIsNumbered` says exactly for which current revisions that cannot happen.
- A listed revision leads back to its ReplicaSet, whatever the sort does, exactly when the annotation is a canonical
  decimal and every other ReplicaSet with the same text is strictly older (`ListedRevisionIsFound`): listing scans a
  leading number, rolling back takes the first equal text.
- The log function tolerates a nil channel, but the deferred `close` panics on it, after the operation has done its
  work. Of the three operations only Rollback lacks the check for a missing client, so it panics there;
  `ListAvailableRevisions` lacks it too.
- After the loop over labels, an alert goes to whatever users the last lookup returned, even when that lookup failed.
  `RoutingNeedsCleanErrors` gives the exact condition under which this does not matter.
- Backslashes are not escaped; `ShownAsWritten` says exactly which texts survive.
- Authorisation and the login entered last are one variable each for the whole bot, so the history result for executed
  commands is about the latest password step of anybody. `StrangerExecutes` shows a command run for somebody who never
  logged in, `CrossedLoginIsChecked` a password accepted for another user's login; that neither can happen is true
  exactly for a bot with at most one user (`ExecutorsLoggedInExactly`, `OwnLoginsCheckedExactly`).
- Ending the poller's context does not prevent further checks: `select` may take a pending tick, any number of times
  (`ChecksAfterCancelUnbounded`), and a goroutine just started makes its first check unconditionally.
  `NoMoreChecksExactly` says when no check can follow; `QuietAfterStop` that this is so once `Stop` has returned.

## Model

| member | source | states |
|---|---|---|
| Decimal.ParsePrint | internal/kube/client.go:220-230 | parsing the decimal text of any 64-bit integer gives it back without error |
| Decimal.CanonicalIffPrinted | internal/kube/client.go:228-230 | digit texts without leading zero that parse are exactly the printed positive numbers |
| Decimal.ScanPrint | internal/kube/client.go:398-399 | scanning the decimal text of any 64-bit integer gives it back |
| Decimal.ParseIntExactly | internal/kube/client.go:220-244 | strconv.ParseInt on every text, read as sign, digits and rest: the number, or 0 or the nearer bound with an error |
| Decimal.EveryTextReads | internal/kube/client.go:220-244 | every text is an optional sign, the digits behind it and a rest, so the two meanings cover all texts |
| Decimal.ScanExactly | internal/kube/client.go:398-399 | fmt.Sscanf on every text: the number behind the blanks when there is one in range, else 0; trailing text is ignored |
| Sorting.SortSlice | internal/kube/client.go:206-208 | in-place sort: the result is ordered by the less function and a permutation of the slice |
| Revisions.FindRevision | internal/kube/client.go:226-235 | finds the first ReplicaSet whose annotation is the number's decimal text, or none |
| Revisions.FindPrevious | internal/kube/client.go:242-251 | finds the first ReplicaSet whose annotation parses to the value, parse errors dropped, or none |
| Revisions.ListAvailableRevisions | internal/kube/client.go:376-415 | on success the entries of the annotated ReplicaSets with ascending revisions; each error passed on; a panic exactly without a client |
| Revisions.EntriesInOrder | internal/kube/client.go:393-409 | one entry for each ReplicaSet with a non-empty annotation, as often as listed: scanned number, name, first container's image |
| Revisions.ExplicitTarget | internal/kube/client.go:206-239 | for every outcome of the sort: a target is found exactly when some ReplicaSet carries the text, and no other match is newer |
| Revisions.SelectExactly | internal/kube/client.go:210-257 | exactly when each refusal is returned, and otherwise the first ReplicaSet whose annotation is the number's text, or parses to the current revision less one |
| Revisions.ListedRevisionIsFound | internal/kube/client.go:206-239 | for every outcome of the sort a listed positive revision selects the ReplicaSet it was listed for, exactly when its annotation is canonical and any other carrier of the text is strictly older |
| Revisions.ListRollbackAgreement | internal/kube/client.go:393-414 | with canonical, unshared annotations everything listed can be rolled back to, with the listed name and image |
| Revisions.ExplicitImplicitAgree | internal/kube/client.go:228-251 | text search and value search stop at the same place exactly when the first value match is spelled canonically |
| Revisions.OneStepBack | internal/kube/client.go:215-257 | rollback with revision <= 0 selects what rollback to the current revision minus one selects |
| Revisions.ImplicitTargetIsNumbered | internal/kube/client.go:242-251 | the implicit target's annotation always denotes the number sought exactly when that number is not 0 or a 64-bit bound |
| ClusterInvariants.SentIsOwnEdit | internal/kube/client.go:128-130 | when the resource version is current, the whole object written back is the operation's own edit of what is stored |
| ClusterInvariants.ExecInv | internal/kube/client.go:106-368 | versions, generations, commits and all runs stay consistent over every interleaving |
| ClusterTheorems.Linearizability | internal/kube/client.go:120-130 | the stored object, and every version before it, is the fold of the committed edits in commit order; each commit is its author's own edit |
| ClusterTheorems.StepEffect | internal/kube/client.go:262-272 | a step commits one atomic edit to the object stored at that moment, status and selector untouched, or changes nothing desired |
| ClusterTheorems.VersionsSucceed | internal/kube/client.go:128-130 | consecutive stored versions differ by one resource version, and by one generation exactly when the spec changed; a status report changes the status only |
| ClusterTheorems.CommitsPerRun | internal/kube/client.go:262-307 | at most one commit and five attempts a run; success means exactly one commit, except that after five conflicts there is none; errors before the poll mean none |
| ClusterTheorems.RollbackCommitsTheTarget | internal/kube/client.go:226-270 | the template committed by a rollback is that of the ReplicaSet selected from what the run read and listed |
| ClusterTheorems.ReadAfterWrite | internal/kube/client.go:139-158 | success means the last poll read a version no older than the run's commit whose counts are, field by field, those of the operation |
| ClusterTheorems.StepsAreBounded | internal/kube/client.go:284-299 | a run whose context survives n waits is over after at most 2n+15 steps |
| ClusterTheorems.NoRunIsStuck | internal/kube/client.go:106-368 | a run that is not over can always have its next call resolved, which is one step more, so every operation returns |
| ClusterTheorems.FreshExactlyWhenObserved | internal/kube/client.go:291-294 | the status of a successful poll was computed from the run's commit, a later version or one of the same generation, exactly when the observed generation has reached the commit's; for a commit that changed the spec, exactly when computed from a version containing it |
| ClusterTheorems.UnreflectedIsStale | internal/kube/client.go:291-294 | success on a status that does not reflect the run's commit is a stale success, and the converse holds until somebody else changes the spec |
| ClusterTheorems.RestartObservesItsGeneration | internal/kube/client.go:342-352 | the status of a successful restart reflects its own commit and is never stale |
| ClusterTheorems.RestartIsFresh | internal/kube/client.go:328-352 | with a timestamp new to the template, that status was computed from a version containing the restart |
| ClusterTheorems.ScaleStaleExactly | internal/kube/client.go:120-155 | a Scale to n that is served without interference ends in a stale success exactly when n are available beforehand and another number is wanted or the stored spec is unobserved |
| ClusterTheorems.RollbackStaleExactly | internal/kube/client.go:177-299 | for any list and any outcome of its sort, a Rollback that is served without interference ends in a stale success exactly when the status says rolled out, there is a target, and its template differs or the stored spec is unobserved |
| ClusterTheorems.ScaleCanBeStale | internal/kube/client.go:139-155 | from every such state Scale to n can succeed before the controller saw what it asked for |
| ClusterTheorems.RollbackCanBeStale | internal/kube/client.go:284-299 | from every such state Rollback can succeed before the controller saw what it asked for |
| ClusterTheorems.SilentRollbackCanBeStale | internal/kube/client.go:262-299 | a rollback whose template somebody else has just written changes nothing and can still succeed before the controller saw that template |
| ClusterTheorems.RollbackCanSucceedWithoutCommit | internal/kube/client.go:262-283 | five attempts, each overtaken by a new status report, end in success with nothing written |
| RunTheorems.RunTells | internal/kube/client.go:106-368 | over every interleaving: each request follows from the replies before it, each update sends what was read with the operation's own field changed, and a run is over exactly when its last exchange ends it, with the outcome that exchange explains |
| RunTheorems.LogTells | internal/kube/client.go:113-155 | the log's progress lines are the counts read while polling, its last line tells success, each error line its error; each conflict, each listed ReplicaSet and each stage up to the target has its line |
| RunTheorems.RefusalEndsTheRun | internal/kube/client.go:139-144 | from every reachable state a refused call ends the run with an error carrying the refusal's text, except a rollback's update refused with a conflict |
| RunTheorems.SuccessWasNotRefused | internal/kube/client.go:262-307 | success means nothing was refused to the run but at most five conflicting updates of a rollback |
| RunTheorems.PollDecides | internal/kube/client.go:284-299 | a served read of the poll ends the run, with success, exactly when the stored counts are those of the operation |
| RunTheorems.SuccessIsRolledOut | internal/kube/client.go:284-299 | the last exchange before success is the read of a stored version with those counts |
| RunTheorems.CommitsTouchOneField | internal/kube/client.go:327-332 | a commit changes the replicas, the template, or for Restart the one template annotation; other annotations and the containers stay |
| KubeClient.Log | internal/kube/client.go:171-175 | sends the line unless the channel is nil |
| KubeClient.Close | internal/kube/client.go:169 | closes the channel once, or panics when it is nil |
| KubeClient.ScaleDeploymentWithLogs | internal/kube/client.go:106-159 | is a run of the Scale program; channel closed after exactly the run's lines; nil error means its edit committed once and a later version was ready |
| KubeClient.PollScale | internal/kube/client.go:139-158 | polls until the replicas are available, an error or the end of the context |
| KubeClient.RestartDeploymentWithLogs | internal/kube/client.go:310-368 | the same for Restart |
| KubeClient.PollRestart | internal/kube/client.go:342-367 | polls with the generation comparison |
| KubeClient.RollbackDeploymentWithLogs | internal/kube/client.go:168-308 | the same for Rollback, the case of five conflicts included; panics without a client |
| KubeClient.FetchSets | internal/kube/client.go:177-199 | reads deployment and ReplicaSets, with each error path |
| KubeClient.Pick | internal/kube/client.go:210-257 | the checks and searches on the sorted slice yield the specified selection |
| KubeClient.ChooseTarget | internal/kube/client.go:177-257 | arrives at the update loop with the selected target, or returns the reason |
| KubeClient.ApplyTemplate | internal/kube/client.go:262-281 | the update loop ends in the poll after a commit or five conflicts, otherwise in the error |
| KubeClient.PollRollback | internal/kube/client.go:284-307 | polls with the rollback readiness formula |
| PodMetrics.MixStep | internal/monitoring/dashboard.go:118-153 | the eight parsers write disjoint fields |
| PodMetrics.FinalRecordMeaning | internal/monitoring/dashboard.go:62-178 | each field in terms of labels and positions of its own query's rows: last usable row of the pod wins, flags need one witness, a failed query leaves the zero value |
| PodMetrics.PodNonInterference | internal/monitoring/dashboard.go:75-87 | a pod's record depends only on the rows naming it |
| Dashboard.MutualExclusion | internal/monitoring/dashboard.go:59-74 | at most one goroutine updates the map, the lock holder; the wait counter counts the launched and unfinished ones |
| Dashboard.Barrier | internal/monitoring/dashboard.go:141-182 | when Wait returns all goroutines are finished, the lock is free and nothing can write any more |
| Dashboard.Confluence | internal/monitoring/dashboard.go:62-184 | every interleaving and launch order ends in the map of running the workers one after another in any order |
| Dashboard.CollectedRecords | internal/monitoring/dashboard.go:54-184 | after every interleaving the map holds exactly the job's pods, each with its final record |
| Dashboard.FlagsOnlyRise | internal/monitoring/dashboard.go:134-177 | no step takes back Ready or OOMKilled |
| Dashboard.EveryRunCollects | internal/monitoring/dashboard.go:141-180 | every interleaving is finite and stops only after Wait has returned |
| DashboardClient.Collector.QueryAndParse | internal/monitoring/dashboard.go:62-88 | a numeric worker's critical section has the effect of applying its rows in order |
| DashboardClient.Collector.QueryAndParseLabel | internal/monitoring/dashboard.go:90-114 | the same for the phase worker |
| DashboardClient.Collector.QueryOOM | internal/monitoring/dashboard.go:156-178 | the same for the OOM worker |
| DashboardClient.GetPodNamesForJob | internal/monitoring/dashboard.go:189-213 | every value of a "pod" label of the result exactly once; an error exactly for a failed or non-vector query |
| DashboardClient.CollectPods | internal/monitoring/dashboard.go:182-184 | exactly one record for each key of the map |
| DashboardClient.GetStatusDashboard | internal/monitoring/dashboard.go:29-187 | one final record for each distinct pod; exactly the active alerts with the job's and namespace's labels, each as often and in the same order; empty without pods |
| Commands.AcceptedTexts | internal/bot/handlers/kube_handlers.go:107-120 | exactly the texts "command namespace/name number" are accepted, with those parts |
| Commands.CommandRoundTrip | internal/bot/handlers/kube_handlers.go:27-43 | printing a command and parsing it gives the same namespace, name and number |
| Commands.RejectedTexts | internal/bot/handlers/kube_handlers.go:27-43 | exactly which texts are refused for their parts, their target or their number |
| Commands.RejectedTargets | internal/bot/handlers/kube_handlers.go:75-84 | the same for restart |
| Commands.AcceptedTargets | internal/bot/handlers/kube_handlers.go:75-84 | exactly the texts "command namespace/name" are accepted by restart, split at the first slash |
| Commands.ScaleRoundTrip | internal/bot/handlers/kube_handlers.go:27-62 | a printed scale command hands on its namespace and name, and the typed number exactly when it fits 32 bits, else the one 32-bit number congruent to it |
| LogPipe.ReceivedIsPrefix | internal/bot/handlers/kube_handlers.go:48-62 | received lines are a prefix of the sent ones and all of them once the channel is closed; the chat lags by at most one line |
| LogPipe.ForwardedInOrder | internal/bot/handlers/kube_handlers.go:51-60 | the forwarded lines are those that pass the handler's test, each as often as sent and in order |
| LogPipe.NoDeadlock | internal/bot/handlers/kube_handlers.go:51-60 | operation and forwarding goroutine never block each other for good |
| ChatLog.LinesOnlyGrow | internal/kube/client.go:171-175 | the log of a run never loses or changes a line |
| ChatLog.JointIsExec | internal/bot/handlers/kube_handlers.go:48-62 | waiting for the chat leaves the cluster's part an ordinary interleaving |
| ChatLog.ChatFollowsTheRun | internal/bot/handlers/kube_handlers.go:48-62 | over every interleaving of operation, forwarding goroutine and cluster the chat shows the operation's lines in order, all of them when the goroutine has ended; until then the channel or the operation can step, and both have bounded numbers of steps |
| Bot.Session.OnStart | cmd/bot/main.go:175-179 | opens the sender's login dialogue |
| Bot.Session.OnText | cmd/bot/main.go:184-221 | the text handler has the specified effect on the captured variables and buttons |
| Bot.Session.WithConfirmation | cmd/bot/main.go:23-61 | both buttons belong to this command from now on, if the prompt could be sent |
| Bot.Session.OnButton | cmd/bot/main.go:44-58 | runs the command only for its sender and a yes |
| Bot.HistoryDecides | cmd/bot/main.go:170-221 | every answer of the bot, for every history, from what happened before: the sender's dialogue, the latest password step, the latest prompt |
| Bot.ExecutedIsJustified | cmd/bot/main.go:170-221 | a command runs only on a yes by the sender of the latest prompted command, sent outside a dialogue, with the latest password step before it having authenticated the login entered last |
| BotUsers.StrangerExecutes | cmd/bot/main.go:184-221 | after one user's login a user who never opened a dialogue gets a command executed |
| BotUsers.ExecutorsLoggedInExactly | cmd/bot/main.go:170-221 | over all runs every executor has passed the password step, exactly when the bot has at most one user |
| BotUsers.CrossedLoginIsChecked | cmd/bot/main.go:203-213 | a password is accepted for the login another user entered in between |
| BotUsers.OwnLoginsCheckedExactly | cmd/bot/main.go:203-213 | over all runs passwords are checked against their sender's own login, exactly when the bot has at most one user |
| Poller.CounterIsExact | internal/app/poller_alert.go:32-56 | the wait group counts Start calls under way and goroutines not yet gone; nobody leaves before the end of the context or without a check |
| Poller.StopReturnsLast | internal/app/poller_alert.go:58-61 | a waiting Stop can return exactly when every started goroutine is gone |
| Poller.NoMoreChecksExactly | internal/app/poller_alert.go:32-56 | from any state and with at most n more Start calls no check can begin exactly when n is 0 and every goroutine is leaving or gone |
| Poller.QuietAfterStop | internal/app/poller_alert.go:58-61 | after Stop has returned no check begins until Start is called again |
| Poller.StopReturns | internal/app/poller_alert.go:44-61 | a waiting Stop is never stuck, and the steps before it returns are bounded but for the ticks select takes |
| Poller.ChecksAfterCancelUnbounded | internal/app/poller_alert.go:44-54 | a goroutine may begin any number of checks after the end of the context |
| Alerting.FindDutyUsers | internal/app/alerter.go:49-63 | the loop over the labels leaves the specified users |
| Alerting.FirstAnswerWins | internal/app/alerter.go:52-63 | the users of the first "key=value" whose search answers are the recipients |
| Alerting.LastLookupRemains | internal/app/alerter.go:52-65 | without an answer the last lookup's users remain |
| Alerting.CheckAndNotify | internal/app/alerter.go:33-76 | one notification for each recipient of each alert in order; a failed alert query is the only error |
| Alerting.NotificationsExactly | internal/app/alerter.go:48-74 | a notification is sent exactly when its alert's loop over the labels leaves a user of that login |
| Alerting.NotificationsInOrder | internal/app/alerter.go:48-74 | each alert in turn is notified once for each user found for it, in order |
| Alerting.AlertRouting | internal/app/alerter.go:48-74 | for every iteration order an alert is notified exactly when some label answers, to one answering label's users |
| Alerting.RoutingNeedsCleanErrors | internal/app/alerter.go:54-58 | that holds for all alerts and orders exactly when failed lookups return no users |
| Alerting.NotifiedUsersCarryTheLabel | internal/db/repository/user_label_repo.go:45-51 | recipients are exactly the users on duty with a label row that reads "key=value" for one label of the alert |
| Alerting.CheckReachesTheDuty | internal/app/alerter.go:33-76 | over a whole check every notification goes to a user on duty with a row "key=value" of its alert, and without failed queries every alert with such a user is notified to all of them for one key |
| DutyRepository.FoundUsers | internal/db/repository/user_label_repo.go:45-51 | the users found by label are exactly those on duty who carry it |
| DutyRepository.UsersInOrder | internal/db/repository/user_label_repo.go:45-51 | the users found are those of the joined rows with the label, in row order |
| DutyRepository.DutyRowsCount | internal/db/repository/user_label_repo.go:45-78 | the join has each pair of a duty user's row and one of its label rows exactly once |
| DutyRepository.GetDutyUsersWithLabels | internal/db/repository/user_label_repo.go:70-77 | the loop builds the grouping of the joined rows |
| DutyRepository.LabelsInOrder | internal/db/repository/user_label_repo.go:70-77 | the labels grouped under a user are those of its joined rows, in row order |
| DutyRepository.JoinGroupAgreement | internal/db/repository/user_label_repo.go:45-78 | multiplicities in both queries agree and the grouped lists add up to the joined rows, whatever the row order |
| Markdown.EscapeConcat | internal/bot/handlers/metrics_handlers.go:204-213 | escaping distributes over concatenation |
| Markdown.ReservedIsEscaped | internal/bot/handlers/metrics_handlers.go:204-213 | every character of the output that Telegram demands to be escaped follows a backslash |
| Markdown.EscapeInjective | internal/bot/handlers/metrics_handlers.go:204-213 | different texts are escaped differently |
| Markdown.ShownAsWritten | internal/bot/handlers/metrics_handlers.go:204-213 | the escaped text is shown as the input exactly when no backslash precedes an escapable character |

## Left out

- Deleting a Deployment and creating it again under the same name during a run; a read of a deleted one is an error.
- Updates that were committed although the client got an error; a refused call has no effect here.
- `Spec.Replicas` is a number, as the API server's defaulting makes it; the nil pointer that a fake client could return is not modelled. A Get returns a value, so copies held by a client share nothing.
- Label selector evaluation: the list of ReplicaSets a call returns is arbitrary; an unusable selector is a flag of the Deployment.
- How a controller brings pods up: the counts it reports are arbitrary.
- Clocks and sleeps: a wait ends with a tick or with the end of the context; the restart timestamp is an argument. Every run of the client is given the number of waits its context survives.
- Wording of messages: log lines are named by kind. Only emptiness of a line matters to the forwarding goroutine.
- Panics from malformed query results: the second element of a value pair is a text. `strconv.ParseFloat` and the conversion of floating-point numbers to integers are arbitrary functions.
- `GetStatusDashboard` in DashboardClient runs the goroutines one after another; all other interleavings are covered by the state machine in Dashboard.
- Calling an operation from its chat handler, and the handlers' printing: parsing, narrowing, and the operation with its log forwarding are modelled one by one.
- ChatLog.ChatFollowsTheRun: the lines belonging to a call are handed over after it, because the model groups Rollback's first line, which is sent before its first read, with those after that read.
- Routing of updates in telebot: `/start` and `/help` reach their own handlers, everything else the text handler; each update is one atomic step.
- The poller's check itself (a query and a log text), its ticker's interval, and the misuse panics of the wait group when Start and a waiting Stop overlap.
- Pod status, pod logs, pod lists, history and operations listings, metric formatting, the HTTP client, configuration, migrations and single-table database calls: no logic beyond one call or a format string.
