# Git simulator: model and proofs

The git simulator is a test double for a git hosting service. It keeps repositories in memory, serves
them over the git protocol and posts the webhooks a real vendor would post. Its point is control over
time: a pushed commit can stay invisible for a while, webhooks can arrive late or out of order, and a test
can ask what a client would have seen at any moment. This project models that behaviour and proves it.

The model has three layers over one content-addressed store.

* **Trees and commits** (`Text`, `Sorting`, `Objects`, `TreeSpec`, `TreeWalk`, `TreeBuilder`, `LocalDir`).
  A flat map from paths to contents is split at the first slash, built into git trees and written to an
  object store. `TreeSpec` says what the tree of a file map *is*, `TreeBuilder` how the program builds it in
  whatever order its maps yield, and `TreeWalk` reads it back.
* **Branches and time** (`RepoSpec`, `RepoInvariant`, `Timeline`, `RepoHistory`, `RepoLooks`, `RepoTags`,
  `Checkouts`, `Repository`, `Pushes`, `PushSteps`, `SimRepository`, `PushRuns`, `PushEvents`, `Stores`,
  `Simulators`, `Locator`). `RepoSpec` gives each public call as a step of a state machine and
  `Repository` the object whose methods take these steps. `Timeline` is the independent reading: which
  commits are visible at a time, as a pure function of the commit requests. `RepoHistory` shows that the
  machine, which promotes lazily, always answers what the timeline says, `RepoLooks` what a look does to
  later answers, `RepoTags` what tags name, and `Checkouts` that the visible commit reads back as the
  files it was made of. `PushSteps` interleaves the three critical sections of any number of pushes.
* **Deliveries** (`Delivery`, `Schedule`, `Emitter`, `Firing`, `DeliveryOrder`, `Scenarios`, `ManualClocks`).
  `Schedule.Play` is the one loop behind `sendBatch`, `RunMixed` and `RunPushN`; each of the three is a method
  proved to perform it, and order, times, results and cancellation are then proved about it.

Conventions. Time is an integer number of nanoseconds; every clock reading is a parameter of the call that
takes it, so results hold for every clock, also one that goes back, unless a monotone one is asked for. On a
clock that goes back a promotion is not undone, so a commit counts as requested at the latest reading that
has resolved the branch since the commit before it. A hash is an arbitrary function from objects to strings;
`CollisionFree` is asked for where the program relies on it. What the network, a content provider, a timer
or a random source does is a parameter too. `Option.None` stands for an empty SHA string where the program
uses one as "nothing".

Run `dafny verify dfyconfig.toml` to check everything.

## Model

| member | source | states |
|---|---|---|
| TreeBuilder.BuildTree | pkg/store/commit.go:50-113 | for every file map, every iteration order of the three map loops and every outcome of the unstable sort, the tree written is the one `TreeSpec` defines, its hash is returned, exactly its blobs and trees are added to the store, and the order check of the tree encoder never fails |
| TreeBuilder.SortedEntriesAreTheTree | pkg/store/commit.go:94-107 | however the entries were collected, every rearrangement of them that an unstable sort may produce is the same tree object |
| TreeBuilder.BuildCommit | pkg/store/commit.go:16-46 | the commit names that tree and at most one parent; the store gains exactly the commit and the tree's objects |
| TreeBuilder.Split | pkg/store/commit.go:54-66 | the two maps partition the files by first slash: plain names with their content, and per directory the map below it |
| TreeBuilder.WriteTree | pkg/store/commit.go:107-112 | the encoder refuses entries that are out of order by name with a slash after directories, and stores the tree otherwise |
| TreeBuilder.WriteFiles | pkg/store/commit.go:70-80 | one entry per plain file, pointing at the blob that was stored |
| Text.LessIff | pkg/store/commit.go:96-105 | the order used is byte order: one string sorts before another exactly when, at the first place they differ, it has the smaller byte or ends |
| TreeSpec.EntriesInByteOrder | pkg/store/commit.go:94-112 | the entries of every tree written stand in byte order of their names, directories with a slash after theirs |
| TreeWalk.ListedInByteOrder | pkg/store/commit.go:94-112 | so do the paths of a walk |
| TreeWalk.WalkReadsBack | pkg/store/commit.go:50-113 | round trip: walking the stored tree from its root hash and joining names with slashes yields exactly the file map, at any depth and for any paths, in strictly ascending byte order of full paths |
| TreeWalk.BuiltTreeReadsBack | pkg/store/commit.go:50-113 | the same for the objects `BuildTree` adds to whatever the store held before |
| Checkouts.CheckoutReadsBack | pkg/store/repo.go:91-153 | from content provider to visible commit and back: after any run on any clock, the tree of the commit a look answers walks to exactly the files of the newest commit that was due when its fate was decided, or to the initial ones |
| Checkouts.EveryCommitReadsBack | pkg/store/repo.go:115-119 | every commit ever added, visible or not, reads back as the files it was made of, is numbered on its branch, carries the second of its signature, and has what was visible at its request as its only parent |
| Checkouts.FirstReadsBack | pkg/store/repo.go:57-84 | so does the initial commit, which has no parent |
| TreeSpec.HeadsOrderPaths | pkg/store/commit.go:94-105 | git's entry order is path order: if one entry sorts before another, every path below the first is smaller than every path below the second |
| TreeSpec.CanonicalHash | pkg/store/commit.go:54-112 | with a collision-free hash two file maps get the same root hash if and only if they are equal |
| TreeWalk.NamesUniqueIffPrefixFree | pkg/store/commit.go:54-92 | no tree repeats a name, so that lookup by name is unambiguous, exactly when no file path is also a directory of another |
| TreeSpec.BelowShrinks | pkg/store/commit.go:82-86 | the longest path strictly shrinks in each recursive call, so building terminates |
| TreeSpec.PutTreeKeepsWellFounded | pkg/store/commit.go:50-130 | writing a tree keeps every object under its own hash with nothing dangling and nothing circular |
| TreeBuilder.PutCommitKeepsWellFounded | pkg/store/commit.go:16-46 | so does writing a commit whose parent is stored |
| Objects.NoCycles | pkg/store/commit.go:16-130 | in such a store no object reaches itself along any path of references |
| Objects.NothingDangles | pkg/store/commit.go:107-112 | in such a store everything an object names is stored |
| Sorting.StableSort | pkg/emitter/schedule.go:23-26 | the result is the stable permutation of the input in the given order |
| Sorting.Sort | pkg/store/commit.go:96-105 | the result is some permutation of the input with nothing out of order, and callers learn no more |
| Sorting.StableOrderUnique | pkg/emitter/schedule.go:22-26 | a stable sort has exactly one possible outcome |
| LocalDir.FilesOf | pkg/core/localdir.go:28-74 | fails exactly when the directory is missing, is no directory, or some names, none of them `.git`, lead through directories to a file that cannot be read or a directory that cannot be listed; otherwise the map holds exactly the files a name-by-name lookup that avoids `.git` can reach |
| LocalDir.LookupIff | pkg/core/localdir.go:45-71 | such a lookup finds a file exactly when its path joins names, none of them `.git`, that lead through directories to it |
| LocalDir.ReadableNeverFails | pkg/core/localdir.go:43-66 | a tree of readable files, symbolic links and directories that can be listed never fails |
| LocalDir.Visit | pkg/core/localdir.go:43-69 | one entry: `.git` adds nothing whatever it is, symbolic links add nothing, a file adds its path, a directory everything below it |
| LocalDir.DirectoryReadsBack | pkg/core/localdir.go:41-74 | directory to tree and back: walking the tree of the collected files lists exactly the reachable files, no component is `.git`, and no tree repeats a name |
| LocalDir.NothingBelowAFile | pkg/core/localdir.go:54-67 | the collected paths are prefix-free |
| Repository.BranchState.Resolve | pkg/store/refs.go:19-27 | the pending commit becomes visible once the clock has reached its time, otherwise nothing changes |
| Repository.Repo.constructor | pkg/store/repo.go:43-86 | an initial commit without parents, visible at once, with HEAD naming the default branch; the invariant holds |
| Repository.Repo.AddCommit | pkg/store/repo.go:91-136 | due promotions are flushed, the new commit sits on the commit then visible, and it is visible at once without a delay and pending with one; a failing content provider leaves only the flush behind; the invariant is kept |
| Repository.Repo.VisibleCommit | pkg/store/repo.go:139-153 | answers the visible commit after a due promotion, which is written to the references too; the invariant is kept |
| Repository.Repo.VisibleRefs | pkg/store/repo.go:157-181 | returns the references after flushing due promotions; the invariant is kept |
| Repository.Repo.AddTag | pkg/store/repo.go:185-236 | a lightweight tag returns the visible commit, to which its reference points, and stores nothing; an annotated one stores exactly a tag object with that name, target, message and second, and returns and references its SHA; the invariant is kept |
| RepoTags.TagTaken | pkg/store/repo.go:194-235 | after any run a tag is put on the commit a look at the same time would answer, whether or not the name was taken before, and no other tag changes |
| RepoTags.TagsNameLastTaken | pkg/store/repo.go:185-236 | whatever happens later, a tag stays as its last taking made it |
| Repository.Repo.SyncRef | pkg/store/repo.go:240-243 | rewrites one branch reference and nothing else |
| RepoInvariant.StepKeepsSound | pkg/store/repo.go:91-243 | on any clock every public call keeps the two copies of the branch table in agreement, the store closed and acyclic and a pending commit the child of the visible one, and only ever adds objects |
| RepoInvariant.MirrorTag | pkg/store/repo.go:230-234 | writing a tag never disturbs a branch reference or HEAD |
| RepoSpec.MessageInjective | pkg/store/repo.go:118 | two commits of a branch never carry the same message |
| RepoHistory.RunIsReachable | pkg/store/repo.go:43-243 | every run of calls, whatever the clock does, stays on the timeline: branch record, references, store and tags all agree with it, where a commit counts as requested at the latest reading since the one before it |
| RepoHistory.LazyIsEager | pkg/store/refs.go:19-27 | lazy promotion refines eager promotion: after any run on any clock every answer is the timeline's, a pure function of the commit requests and the latest reading since the last of them |
| RepoLooks.AnswersOnTime | pkg/store/refs.go:19-27 | on a clock that never goes back that is the requests as they were made and the time of asking |
| RepoLooks.LooksChangeNothing | pkg/store/repo.go:139-205 | on a clock that never goes back two runs with the same commit requests answer alike, however often each looked, listed references or tagged |
| RepoLooks.LookIsHarmlessIff | pkg/store/refs.go:19-27 | on any clock, one more look, listing, tag or failed commit anywhere in a run leaves the answer at its end as it was exactly when the newest commit at that point was not due at the extra reading, or is due anyway when its fate is decided |
| RepoLooks.LookChangesAnswer | pkg/store/refs.go:19-27 | a concrete run in which a look changes a later answer |
| RepoHistory.FastForwardOnly | pkg/store/repo.go:100-134 | on any clock the visible history is a parent chain in the store ending at the visible commit, and every later history, and what asking at any time would show, extends it |
| RepoLooks.AnswersOnlyExtend | pkg/store/repo.go:100-153 | on a clock that never goes back the history behind an answer is extended by that behind any later one |
| RepoHistory.CommitsAreConserved | pkg/store/repo.go:91-136 | on any clock commitIndex equals the depth of the visible commit plus the superseded commits plus one if one is pending, in the record as it stands and as a look at any time would find it |
| RepoHistory.TwoCopiesAgree | pkg/store/repo.go:71-84 | after any run on any clock the references are HEAD, which names the default branch, refs/heads of that branch, which names the visible commit, and one below refs/tags for each tag, which names its target |
| RepoHistory.NothingIsLost | pkg/store/repo.go:43-236 | after any run on any clock every commit ever added is stored with its tree, every reference target is stored, and each tag's commit is the visible commit of the branch record or one of its ancestors |
| RepoHistory.ShownIsHistory | pkg/store/repo.go:126-134 | in every reachable state the commits up to the one the branch record shows form a parent chain of the store from the initial commit |
| Timeline.ChainOnlyGrows | pkg/store/refs.go:19-27 | what was once visible stays an ancestor of everything visible later, as long as a newest commit that was due still is when its fate is decided |
| Timeline.GrowsIff | pkg/store/refs.go:19-27 | and otherwise it does not: that condition is exact |
| Timeline.OneReadingMatters | pkg/store/repo.go:100-119 | had one commit been requested at another time, the branch would show the same commit exactly when the commit before it was due at both times or at neither |
| Timeline.LookMovesOneEdge | pkg/store/refs.go:19-27 | between two looks without a commit the branch moves along at most one edge |
| Timeline.ChainEdges | pkg/store/repo.go:100-119 | each commit of the visible history has its predecessor as its only parent |
| Timeline.SurfacesIff | pkg/store/repo.go:126-134 | a commit joins the visible history if and only if it was due before the next commit was requested |
| Timeline.SupersededNeverSurfaces | pkg/store/repo.go:131-134 | a commit replaced while pending is never visible, nor an ancestor of anything visible, again |
| Timeline.Conservation | pkg/store/repo.go:106-134 | visible, superseded and pending commits add up to all commits |
| Pushes.PushedOntoVisible | pkg/gitsim/gitsim.go:263-268 | the pushed commit is stored as the child of the commit seen, unless a promotion fell due between look and commit |
| SimRepository.SimRepo.Push | pkg/gitsim/gitsim.go:257-276 | a look and a commit; the two tables change only on success, and an event built right away carries the commit that was seen and the branch pushed to |
| SimRepository.SimRepo.BuildEvent | pkg/gitsim/gitsim.go:280-302 | the event is for the SHA asked for; a branch that is given overrides the lookup |
| SimRepository.PrevIsParentIff | pkg/gitsim/gitsim.go:263-273 | the recorded previous commit is the parent of the new one exactly when no promotion falls due in between |
| Timeline.ParentOfIsParent | pkg/store/repo.go:100-119 | the parent of a commit is what was visible when it was requested, not what was pending |
| SimRepository.EarlierParentIff | pkg/gitsim/gitsim.go:263-273 | a later look shows the parent of an earlier commit exactly when neither it nor any commit after it has become visible by that look |
| SimRepository.LookBeforePromotion | pkg/gitsim/gitsim.go:263-273 | a concrete case in which the first commit falls due between the look and the commit of the second push, and an event for the first is still right |
| PushEvents.BeforeIsLastSeen | pkg/gitsim/gitsim.go:270-287 | because the previous commit is kept per branch, an event for any push carries what the last push that went through saw, whatever calls came between and after |
| PushEvents.BeforeIsParentIff | pkg/gitsim/gitsim.go:257-302 | in any run of pushes, failing or not, with any other calls between them and on any clock: Before is the stored parent of After for an earlier push exactly when neither its commit nor any later one was visible when the last push looked, and for the last push exactly when nothing pending fell due between its look and its commit |
| PushEvents.PushesAreCalls | pkg/scenario/pushn.go:61-68 | the pushes of a scenario are such a run, with the same commits and tables |
| PushSteps.EveryInterleavingIsOk | pkg/gitsim/gitsim.go:257-276 | every interleaving of the critical sections of any number of pushes, with other calls in between and on any clock, is to the repository the sequential run of the calls made, in their order, and keeps the invariant |
| PushSteps.PushBookkeeping | pkg/gitsim/gitsim.go:263-276 | in every such state the recorded previous commit is an ancestor of the visible commit of the branch record, and so of what a look at any time answers, and every finished push's SHA maps to its branch and is shared with no other push |
| PushSteps.PushInOneGo | pkg/gitsim/gitsim.go:257-276 | a push whose sections nothing comes between does what `SimRepo.Push` does alone, failing or not |
| PushRuns.PushAll | pkg/scenario/pushn.go:61-68 | the pushes happen in order up to and including the first that fails; the SHAs, the repository and the two tables are those of these pushes |
| PushRuns.PushedOnTimeline | pkg/scenario/pushn.go:61-68 | from any reachable state and on any clock the SHAs are those of the timeline's next commits, in order |
| PushRuns.PushNExtendsHistory | pkg/scenario/pushn.go:61-68 | on any clock the N commits form a parent chain on top of what the branch showed, up to the commit visible when the first was made, and the last of them is what the branch shows from then on |
| Delivery.SendWithRetry | pkg/emitter/emitter.go:61-107 | the requests made, their times, the result and the error are those of the attempt recursion |
| Delivery.SendExplained | pkg/emitter/emitter.go:61-107 | everything about one delivery: which requests go out and when on any clock, which attempt is the last, and whether it returns the status and body of the last reply, a network error, a payload or request that cannot be formed, or the end of the context, which it does exactly when that comes before the backoff is over |
| Delivery.RetryBound | pkg/emitter/emitter.go:68-106 | at most MaxRetries + 1 attempts, stopping at the first status below 500; none when MaxRetries is negative |
| Delivery.NilErrorIffAnswered | pkg/emitter/emitter.go:92-106 | with requests that build and unless a wait was cancelled, the error is nil if and only if the last attempt got a response |
| Delivery.AttemptTime | pkg/emitter/emitter.go:70-79 | with exact timers each attempt goes out after exactly the latencies and backoffs before it |
| Delivery.DoneLater | pkg/emitter/emitter.go:61-107 | a delivery takes no negative time unless the clock is set back during an attempt or a timer fires early |
| Delivery.BackoffTotal | pkg/emitter/emitter.go:68-75 | the backoff before attempt m totals RetryWait * (2^m - 1) if and only if m is 0, or RetryWait is not negative and doubling it has not overflowed 64 bits |
| Schedule.Pause | pkg/emitter/schedule.go:32-41 | on any clock the wait before a delivery ends at start + SendAt, off by the timer's lateness, or with the context; there is none exactly when that moment is past or so far ahead that 64 bits cannot hold what is left |
| Schedule.FollowsOrder | pkg/emitter/schedule.go:31-44 | deliveries follow the given order, and the loop ends early only by cancellation, a failing webhook, which is then the last one sent, or an index outside the input |
| Schedule.RunsAreOk | pkg/scenario/mixed.go:94-101 | only the last delivery can have failed, and it has exactly when that ended the loop |
| Schedule.PanicsIff | pkg/scenario/pushn.go:73-82 | without failing webhooks or contexts that end, the loop reaches an index outside the input exactly when the order has one, and otherwise finishes |
| Schedule.DispatchTimes | pkg/emitter/schedule.go:32-42 | on any clock and with any timers a delivery that has to wait goes out at its offset plus the timer's lateness and any other at once; it is no earlier than a positive offset if and only if that is past already, or 64 bits hold what is left of it and the timer is not early |
| Schedule.NeverEarly | pkg/emitter/schedule.go:32-42 | with no timer early and on a clock that is never set back none goes out before its offset, nor before the one ahead of it is done |
| Schedule.DispatchTimeClosedForm | pkg/emitter/schedule.go:28-43 | with exact timers the k-th delivery goes out at the maximum over j up to k of start + max(SendAt of j, 0) + the time spent from j until k is reached, whatever time the loop itself takes in between |
| Schedule.CancelledWhileWaiting | pkg/emitter/schedule.go:35-40 | cancellation only ever ends a wait for an offset that has not come, at the time the context ends |
| Schedule.DeliveredIff | pkg/emitter/schedule.go:31-44 | a delivery the loop comes to is made if and only if no context ends its wait first; otherwise the loop is cancelled there, with what went out before, when the context ends |
| Schedule.ScatterExact | pkg/emitter/schedule.go:29-43 | each result lands in the slot of its delivery and no other slot is written |
| Schedule.SendOrderUnique | pkg/emitter/schedule.go:22-26 | send order, with input order deciding ties, is one permutation |
| Emitter.SendBatch | pkg/emitter/schedule.go:13-46 | on any clock the batch performs the shared loop in send order, the results are those it scatters, and an error is returned exactly on cancellation |
| Emitter.BatchOutcome | pkg/emitter/schedule.go:13-46 | the deliveries made are a prefix of the send order, exactly their slots are filled, each with its own result, and all are made unless a wait was cancelled; each goes out at its offset plus its timer's lateness or at once, early only if its timer is or the clock was set back too far for 64 bits |
| Emitter.BatchCutIff | pkg/emitter/schedule.go:31-46 | a batch is cancelled exactly at the first wait the context cuts short, with what went out before; without one it is finished |
| Emitter.BatchForward | pkg/emitter/schedule.go:28-43 | a batch in which no timer is early and nothing sets the clock back is one that `NeverEarly` speaks of |
| Firing.FireInOrder | pkg/scenario/mixed.go:83-102 | RunMixed's second implementation performs the same loop, ending also at a webhook that fails |
| Firing.OneSchedule | pkg/scenario/mixed.go:65-102 | on equal send times and equally long successful deliveries sendBatch and RunMixed make the same dispatches at the same times |
| Firing.FireByGap | pkg/scenario/pushn.go:72-87 | RunPushN's loop performs the shared loop with a gap between deliveries, in any order it is given |
| Firing.GapTimes | pkg/scenario/pushn.go:73-86 | each webhook goes out the gap after the one before it is done, for the commit the order names |
| Firing.GapDeliveredIff | pkg/scenario/pushn.go:73-86 | a webhook goes out exactly when no context cuts its gap short and its commit exists; otherwise the loop is cancelled there, or panics |
| Firing.MillisExactIff | pkg/scenario/mixed.go:61 | milliseconds convert to a duration exactly if and only if they lie within 9223372036854 of zero |
| DeliveryOrder.ResolveOrder | pkg/scenario/pushn.go:96-116 | entry by entry: n-1 down to 0 for "desc", the swaps applied for "shuffle", the custom list for "custom" when its length is right, and 0 up to n-1 for anything else |
| DeliveryOrder.SwappedLast | pkg/scenario/pushn.go:105-106 | swaps happen one after the other, each exchanging two entries |
| DeliveryOrder.ReverseInPlace | pkg/scenario/pushn.go:102-104 | swapping from both ends reverses the array |
| DeliveryOrder.EachOnceIff | pkg/scenario/pushn.go:96-116 | every commit is delivered exactly once except exactly when a custom list of the right length repeats an index or leaves the range |
| Scenarios.RunMixed | pkg/scenario/mixed.go:42-108 | rejected specs change nothing; otherwise the pushes happen up to and including the first that fails, and on success SHAs and results are those of the pushes and of the delivery loop |
| Scenarios.MixedOutcome | pkg/scenario/mixed.go:82-106 | result i is the receiver's answer to commit i, from one webhook, sent before its SendAfterMs only if its timer was early or 64 bits could not hold the rest, and never on a clock that only moves forward |
| Scenarios.MixedFailsIff | pkg/scenario/mixed.go:83-108 | once its commits are pushed a run fails if and only if a webhook fails or a context cuts a wait short, and nothing is sent after that |
| Scenarios.MixedSurfaces | pkg/scenario/mixed.go:55-62 | on any clock commit i joins the visible history if and only if the spec gives it no HEAD delay, or that delay has run out by the later of the next push's look and its commit, or for the last one by the time of asking |
| Scenarios.RunPushN | pkg/scenario/pushn.go:48-93 | rejected specs change nothing; otherwise the pushes happen up to and including the first that fails, and commits, order, responses and the way it ends are those of the pushes and of the delivery loop |
| Scenarios.PushNShowsAll | pkg/scenario/pushn.go:61-68 | its commits have no delay: they extend the history shown in order and the last is shown from then on |
| Scenarios.PushNEnds | pkg/scenario/pushn.go:72-93 | refused exactly when a webhook fails or a context cuts a gap short, in a panic exactly when it comes to an index out of range before either, and done otherwise |
| Scenarios.PanicsIffOutOfRange | pkg/scenario/pushn.go:72-116 | if no webhook fails and no context ends, a run panics if and only if the order is custom, of the right length, and has an index out of range, and is otherwise done; nothing else can ever make it panic |
| Scenarios.CustomOrderPanics | pkg/scenario/pushn.go:72-82 | a concrete one: two commits delivered in the order 1, 2 |
| Scenarios.ResponsesAnswerCommits | pkg/scenario/pushn.go:72-92 | response k answers the commit that the delivery order puts at k, and each commit is delivered once exactly under the condition of EachOnceIff |
| Scenarios.RunRace | pkg/scenario/race.go:40-72 | reads the visible commit, pushes, and fires at the clock reading that ended the push; OldSHA and NewSHA are these commits |
| Scenarios.RaceIsOpenIff | pkg/scenario/race.go:55-60 | at that moment the branch still shows the earlier commit if and only if the delay is positive |
| Scenarios.RaceWindow | pkg/scenario/race.go:50-64 | on any clock the branch shows the earlier commit strictly until the delay is over and NewSHA from then on; the earlier commit is the reported OldSHA exactly when no pending commit fell due between look and push |
| ManualClocks.ManualClock.constructor | pkg/core/clock.go:23-25 | the time given is ignored |
| ManualClocks.ManualClock.Now | pkg/core/clock.go:27-35 | the time last set, or zero, and the slot is as before |
| ManualClocks.ManualClock.Set | pkg/core/clock.go:54-60 | the slot holds the new time |
| ManualClocks.ManualClock.Advance | pkg/core/clock.go:63-65 | the time moves on by d, from zero when it was never set |
| ManualClocks.NowNeverLosesTheTime | pkg/core/clock.go:27-35 | after a completed Set and without another, in every interleaving of calls of Now, there is exactly one token, no put-back blocks, and a call answers the time or, only while another call holds the token, zero |
| ManualClocks.UnsetClockIsZero | pkg/core/clock.go:22-35 | while there is no token, as before any Set, every call of Now answers zero |
| ManualClocks.SetKeepsTokenIff | pkg/core/clock.go:54-60 | with any steps of calls of Now between the drain and the send of a Set, the Set keeps the protocol if and only if no call held the token at the drain; otherwise there are two tokens and that call's put-back blocks |
| ManualClocks.SetBlocksIff | pkg/core/clock.go:54-60 | the send of a Set is blocked if and only if some call held the token at its drain and none holds it now |
| ManualClocks.OverlappingSetGoesBack | pkg/core/clock.go:27-60 | a concrete interleaving after such a Set in which the old time comes back |
| ManualClocks.AfterFiresIff | pkg/core/clock.go:37-51 | while the clock stands still, among any calls of Now, After(d) fires for a positive d if and only if its deadline was read as zero and a poll was not, with the clock at d or more, or the other way round with the clock at -d or less; a call reads zero then only because another holds the token |
| ManualClocks.AfterFiresEarly | pkg/core/clock.go:37-51 | a concrete interleaving in which After(d) fires at once |
| Locator.ParseRoundTripIff | pkg/gitserver/resolve.go:21-36 | the path of a clone URL with anything after it is parsed back to owner and name if and only if the owner is slash-free, both are non-empty and owner/name does not contain ".git" |
| Locator.ParsesIff | pkg/gitserver/resolve.go:21-36 | exactly these paths parse: with or without a leading slash, a slash-free non-empty owner, a slash, a non-empty name, .git for the first time, and anything |
| Locator.RepoKeyInjective | pkg/gitsim/gitsim.go:201-203 | keys of slash-free vendors and owners never clash |
| Locator.RepoKeyUniqueIff | pkg/gitsim/gitsim.go:201-203 | a key belongs to one repository only if and only if none of its three parts has a slash |
| Stores.Store.CreateRepo | pkg/store/store.go:35-54 | fails exactly when the identity is taken or the content cannot be read, and then changes nothing; otherwise adds a fresh repository in its initial state, shares nothing with the others and leaves them as they were |
| Stores.Store.GetRepo | pkg/store/store.go:57-66 | a repository found carries exactly the identity asked for and keeps its invariant; when none is found no registered repository has that identity |
| Stores.Store.VisibleCommit | pkg/store/store.go:81-85 | looks at the named repository only: the state of the whole store changes at that identity and nowhere else |
| Stores.Store.ResolveRepo | pkg/gitserver/resolve.go:21-46 | succeeds exactly when the path parses and names a registered repository, whose due promotions are then flushed, and no other's |
| Simulators.Simulator.CreateRepo | pkg/gitsim/gitsim.go:119-153 | fails exactly without a base URL, for a vendor that is not enabled, for a taken identity or unreadable content; otherwise handles and store stay in one-to-one agreement if and only if the handle's key was free |
| Simulators.SlashFreeKeysAreFree | pkg/gitsim/gitsim.go:144-150 | with slash-free vendors and owners that key is free whenever the identity is |

## Left out

- HTTP handlers, JSON, route mounting, smart-HTTP sessions and pack encoding: input and output over what is modelled.
- Vendor payloads, signatures and the provider registry: field copying over foreign types. A webhook is an opaque payload that can or cannot be built.
- The byte encodings of objects and SHA-1 itself: the hash is an arbitrary function on abstract objects, collision-free where asked for and never empty. For the real encoding that takes names and tag names without NUL bytes and newlines. The encoder's checks of entry names are not part of this model; its order check is.
- Errors of the in-memory storer, other than the encoder's order check: writes succeed.
- The author and tagger identities, which are constants.
- ManualClocks.ManualClock.Now: the class is the clock as one goroutine uses it; the interleaved protocol is modelled by steps, where Set is a drain and a send, and Advance a call of Now and then a Set. Of `After` the readings are modelled, not the millisecond its goroutine sleeps between them; in the delivery layer a timer may fire at any time, early too.
- Overflow of time.Time, whose range is far beyond a duration's: times are unbounded integers, durations are 64 bits wide where they are computed.
- Repository.Repo.VisibleRefs: takes one clock reading, because nothing ever adds a second branch to a repository; the order of the returned references is not modelled.
- The context a content provider is called with: it may return anything, or fail, at each call.
- LocalDir.FilesOf: the file system is a finite tree that does not change during the walk; entries are visited in any order, while the program visits them by name, so which of several errors is reported is not modelled.
- Scenarios.RunRace: the scenarios run on a `SimRepo`; other implementations of their `Repo` interface are not part of this model.
- SimRepository.SimRepo.Push: options are settled before the call; the default branch option is a caller's choice of the branch argument.
- `List`, `RepoURL`, `StaticContent`, option closures, CLI flags and scripts: easy members only.
