# Distributed notary: threshold signing and ordering

A group of notaries holds one ECDSA key together and signs with it, and agrees on nonces and
Bitcoin outpoints through PBFT. This project models both protocols, and the choice of outpoints,
and proves what they promise.

**Threshold ECDSA** (`service/mecdsa` over `curv`). Curve points are their exponents modulo the
prime group order N; the x-coordinate and the hashes are arbitrary functions; whatever the program
draws at random is an argument. Nothing about the arithmetic is assumed: Fermat's little theorem,
interpolation modulo a prime, Paillier decryption by the Chinese remainder theorem and n-th roots
are proved. The scalars are objects that the source overwrites in place, and so are they here. The
two handlers are classes whose methods fill maps, barrier by barrier; loops over maps take their
entries in any order.

| file | content |
|---|---|
| `Collections`, `NumberTheory`, `Polynomials` | shared notions, congruences, Fermat, permutations, Lagrange at zero |
| `Scalars`, `Feldman`, `Sharing` | in-place scalars, verifiable secret sharing, sums of shares |
| `Paillier`, `Proofs`, `Mta` | encryption, key and exponent proofs, the two-party product |
| `Arrivals`, `KeyGen` | barriers, key generation |
| `Dealing` | key generation with dealers that do as they like |
| `SigningAlgebra`, `SigningSteps`, `Signing` | the phases of a signing session |
| `Soundness` | what accepted proofs and decommitments say of whoever made them |
| `EndToEnd`, `SmallSession` | whole sessions, and one that exists |

**PBFT** (`pbft/pbft`, after Castro and Liskov). `Replica` gives every handler as one step on a
replica's state; messages a replica sends to itself are handled inside the step, as `broadcast`
does. `Server` is the program's object, proved to change exactly as those steps say. A run of the
system interleaves steps of honest replicas in any order with any messages, except that a vote
names its sender truthfully (`CheckMessageSender`) and so an honest replica's vote was really sent.

| file | content |
|---|---|
| `Replica`, `Server`, `Queues` | steps, the object, its queues |
| `ReplicaOrder`, `ReplicaVotes`, `ReplicaGrowth`, `ReplicaReplies` | what one replica keeps in every run |
| `Checkpoints`, `Announcing` | what stands behind a stable checkpoint, and what does not; a replica's own announcements |
| `Effects`, `StepLimits` | every step taken apart, and what none can do |
| `Timeouts` | when a replica stops taking part, and when it takes part again |
| `Execution`, `Stalls`, `History` | the queue, the answers and the replicated history in every run |
| `Agreement`, `NewView`, `Client` | what the system, a view change and a client promise |
| `Numbering`, `LeaderViews` | the numbers a leader gives, within a view and in every view of a run |
| `Progress`, `Runs` | what messages make a replica do, and runs of authentic messages built from that |
| `Panics`, `Divergence` | runs that panic, and runs in which views disagree |

**Outpoints** (`models/BTCOutpoint.go`, `service/btcPBFTService.go`). `Utxo` models the table as a
map, with both queries, the selection and the marking.

Where the code and its description differ, the model follows the code:

- The responder's beta travels with its answer and is added by the asker, so one signer's share of
  the product is its own k times everybody's gamma, not the textbook's split between two parties.
- A notary checks its share against the commitments sent along with it. That others were sent the same,
  or how many there are, is not checked, and key shares then need not fit (`Dealing.SplitDealing`).
- The opened commitments of key generation are checked for ids below the number of *other*
  notaries; the last notary's is never looked at.
- A gamma commitment that does not open leaves the session without a nonce point and reports
  nothing (`generatePhase4R`).
- Checkpoint announcements and view changes are counted by message, not by sender. One faulty replica
  that repeats an announcement makes the others skip what they have not executed
  (`Checkpoints.OneFaultySkips`).
- A checkpoint that becomes stable right below a queued task leaves it waiting until another commit
  executes something (`Stalls.CheckPointStalls`).
- A new view lists the pre-prepare reported last for a number, not the one of the highest view
  (`NewView.SlotIsLastReport`). So two views may decide differently: two replicas can execute
  (`Divergence.ViewsDisagree`), and two clients accept (`Client.ClientsShareNumber`), different
  requests under one number. Within a view this cannot happen as long as n <= 3f+1, and f = n/3 also
  allows n = 3f+2, where it can (`Runs.AgreementExactly`).
- A new-view list shorter than needed, and a number queued again in a later view, make a replica
  panic. These are exactly the reachable panics (`ReplicaGrowth.OnlyTwoPanics`), and both are
  reached (`Panics`).
- An operation reported under two numbers has one of them overwritten in the leader's table.
- A repeated `Start` forgets the request under way but leaves it in its queue.
- Another primary's pre-selection makes an outpoint available again to the first one, which may
  then hand it out a second time (`Utxo.HandedDisjoint`, `Utxo.HandedTwice`). `PrepareSeq` is
  asked before a pre-prepare's view is compared.
- The leader passes its own id as the view when it asks for outpoints.

## Model

| member | source | states |
|---|---|---|
| `EndToEnd.SignatureVerifies` | service/mecdsa/dsm_handler.go:462-616 | end to end: for every number of notaries, threshold, prime order above the number of notaries, all honest secrets and draws and every set of more than threshold signers, in whatever order each lists the others, the summed shares pass the verification equation under the joint public key, and s·R = m·G + r·Y; needs the sums of k, of gamma and s nonzero |
| `EndToEnd.ShareTotal` | service/mecdsa/dsm_handler.go:591-616 | with no condition on the sums: the shares add up to k·(m + r·x), x being the sum of the dealers' secrets |
| `EndToEnd.HonestSessionPassesPhaseFive` | service/mecdsa/dsm_handler.go:832-864 | an honest session is accepted by its own phase-5 test |
| `EndToEnd.PhaseFiveDecides` | service/mecdsa/dsm_handler.go:832-864 | with decommitments formed as the handlers form them and the rho sum nonzero, the accumulated test accepts if and only if (sum of s_i)·R = m·G + r·Y |
| `EndToEnd.Exchange` | service/mecdsa/dsm_handler.go:415-431 | one honest multiplicative-to-additive exchange: the proofs are accepted and alpha + beta is the product modulo the group order |
| `EndToEnd.ShareIsProduct` | service/mecdsa/dsm_handler.go:462-479 | what one signer adds up over its peers is its own k times the sum of everybody's b, whatever order it lists them in |
| `EndToEnd.SharedProducts` | service/mecdsa/dsm_handler.go:462-495 | the deltas share k·gamma and the sigmas share k·x |
| `EndToEnd.ShareOut` | service/mecdsa/dsm_handler.go:286-300 | the signers' Lagrange-mapped shares sum to the secret behind the public key |
| `SmallSession.SomeSessionSigns` | service/mecdsa/dsm_handler.go:462-616 | the hypotheses of the end-to-end theorem can all be met: a session with two notaries, order 3 and Paillier primes 3 and 5 meets them |
| `Agreement.CommitsAgree` | pbft/pbft/PBFTServer.go:208-306 | in-view agreement over every run, with any number of view changes and garbage collections, at most f Byzantine replicas and n <= 3f+1: two honest replicas' commits for one view and number carry one digest |
| `Agreement.CommittedEntriesAgree` | pbft/pbft/PBFTServer.go:253-306 | the same for log entries with `sendCommit` set, executed or not |
| `Agreement.ExecutionsAgree` | pbft/pbft/PBFTServer.go:385-440 | the same for executed tasks |
| `Agreement.NonceUnique` | pbft/pbft/PBFTServer.go:367-383 | in every run, with any number of view changes, if the digest determines the operation, no number answered in one view only is answered by more than f replicas for two operations |
| `Agreement.FirstViewOneView` | pbft/pbft/PBFTServer.go:367-383 | every number is answered in one view only as long as no honest replica has left the first view |
| `Client.ClientsNeverShareNumber` | pbft/pbft/PBFTClient.go:172-211 | composed with client acceptance: under the same condition no two clients, or one client twice, accept the same number for different operations |
| `Client.ClientsShareNumber` | pbft/pbft/PBFTServer.go:748-795 | without it they can: for every f >= 1, with f of 3f+1 replicas faulty and digests determining operations, a run of authentic messages after which two clients accept number 0 for two operations |
| `Divergence.ViewsDisagree` | pbft/pbft/PBFTServer.go:748-795 | agreement across views fails even with no replica faulty: for every f >= 1, 3f+1 replicas and any two requests, a run of authentic messages makes two replicas execute both under one number |
| `Agreement.RunSound` | pbft/pbft/PBFTServer.go:1031-1070 | every honest replica's whole invariant holds in every reachable system, whatever faulty replicas send |
| `Runs.AgreementExactly` | service/pbftservice.go:74 | for every f >= 1, over all runs of authentic messages with at most f faulty replicas, in-view agreement holds if and only if n <= 3f+1; the service's f = n/3 allows n = 3f+2 |
| `Runs.BoundNeeded` | pbft/pbft/PBFTServer.go:294-306 | the failing half, for every f >= 1 and n >= 3f+2: a run in which a faulty leader makes two honest replicas send commits with different digests for one view and number |
| `Agreement.CommonHonest` | pbft/pbft/PBFTServer.go:294-306 | two quorums of more than 2f among n <= 3f+1 replicas, f of them faulty, share an honest member |
| `NewView.ExecutedSurvives` | pbft/pbft/PBFTServer.go:748-840 | with crashes only, n >= 3 and f = n/3: a slot executed in view 0 is below min-s or listed with its digest in every new view built from more than 2f view-0 reports |
| `NewView.SlotsTotal` | pbft/pbft/PBFTServer.go:748-795 | the new-view list covers min-s+1..max-s once each in order; a reported number is listed with one of its reports, any other as a null request |
| `NewView.SlotIsLastReport` | pbft/pbft/PBFTServer.go:748-795 | exactly what a slot holds: the report listed last for its number, whatever its view, so a digest is kept if and only if the last report carries it |
| `NewView.LeaderStarts` | pbft/pbft/PBFTServer.go:637-683 | a leader with enough view changes sends the computed list and starts from it |
| `NewView.FollowerStarts` | pbft/pbft/PBFTServer.go:805-840 | a follower behind the view accepts the leader's message if and only if it names more than 2f senders, and then starts from the same pre-prepares, postponed prepares and next number as the leader |
| `NewView.WrongListRefused` | pbft/pbft/PBFTServer.go:805-840 | a list that differs anywhere from the recomputed one changes nothing |
| `NewView.ExecutedCommits` | pbft/pbft/PBFTServer.go:343-355 | whatever was executed was committed to by more than 2f replicas, each honest one of which really sent that commit |
| `ReplicaVotes.RunKeeps` | pbft/pbft/PBFTServer.go:1031-1070 | in every run of one replica: one prepared digest per view and number in its whole history, commits only on a prepare quorum, faithful view-change reports, and the order invariants below |
| `ReplicaVotes.StepKeeps` | pbft/pbft/PBFTServer.go:1031-1070 | every single step, whatever it delivers, keeps that invariant |
| `ReplicaVotes.AcceptPrepares` | pbft/pbft/PBFTServer.go:208-241 | an accepted pre-prepare never contradicts an earlier prepare, even when the old entry was deleted |
| `ReplicaVotes.CommitKeeps` | pbft/pbft/PBFTServer.go:317-341 | a commit keeps the invariant and can panic only on a number already queued |
| `ReplicaVotes.PrepareKeeps` | pbft/pbft/PBFTServer.go:253-291 | a prepare keeps the invariant and never panics |
| `StepLimits.PrePrepareExact` | pbft/pbft/PBFTServer.go:208-242 | a pre-prepare is stored, answered with one prepare, and that prepare counted, if and only if the service consents to a number of the window whose slot holds none or one of its digest; a commit follows exactly if the own prepare completes the quorum; otherwise nothing is sent |
| `StepLimits.PrepareExact` | pbft/pbft/PBFTServer.go:253-291 | a prepare makes the replica send its one commit and mark the entry if and only if it completes a quorum of a slot in the window that is not committed to, its digest fits, and the service consents; otherwise it sends nothing |
| `StepLimits.RefusedCommit` | pbft/pbft/PBFTServer.go:266-273 | whatever step of any run: when the service refuses the request, or is not asked about it, no commit is sent and no entry is marked as committed to |
| `StepLimits.RefusedPrepare` | pbft/pbft/PBFTServer.go:213-218 | when it refuses the number, or is not asked, no prepare is sent, and a refused pre-prepare changes nothing at all |
| `StepLimits.WindowRespected` | pbft/pbft/PBFTServer.go:208-291 | every commit ever sent is of the current view and within two intervals of the window's start, and so is every prepare but those left over from entering a view |
| `Effects.StepLeads` | pbft/pbft/PBFTServer.go:1031-1070 | every step of every run is a sequence of changes beside the execution side, tasks queued, tasks executed and checkpoints stabilised, the input deciding which of these it may hold |
| `StepLimits.StepSends` | pbft/pbft/PBFTServer.go:1031-1070 | whatever step of any run, its input bounds the kinds of message it can send: only a request is relayed or numbered, only consent yields prepares and commits, only a commit leads to an own checkpoint, only timers and view changes to a view change or a new view |
| `ReplicaVotes.OwnCommitOnlyRecorded` | pbft/pbft/PBFTServer.go:276-287 | a replica's own commit, handled before `sendCommit` is set, is only recorded and executes nothing |
| `ReplicaVotes.TimerKeeps` | pbft/pbft/PBFTServer.go:573-619 | a view-change request reports everything committed in its view and is backed by prepare quorums; afterwards no commit is sent in that view |
| `ReplicaVotes.EnterKeeps` | pbft/pbft/PBFTServer.go:685-740 | entering a view on any set of view changes keeps the invariant |
| `ReplicaOrder.RunQueueKeeps` | pbft/pbft/PBFTServer.go:414-440 | the execution loop keeps the queue strictly sorted above `apply` and never reaches the panic for a task at or below it, even though a checkpoint can be stabilised in the middle of the loop |
| `ReplicaOrder.ApplyKeeps` | pbft/pbft/PBFTServer.go:414-432 | a task is executed only at apply+1, and `apply` grows by one |
| `ReplicaOrder.ExecuteKeeps` | pbft/pbft/PBFTServer.go:385-440 | executing keeps the order and panics if and only if the number is above `apply` and already queued |
| `Execution.CommitExact` | pbft/pbft/PBFTServer.go:317-440 | in every reachable state a commit executes nothing, or it completes a quorum for a new number above `apply`, and then, from any queue, exactly the tasks that carry on from `apply` without a gap are executed in order, the rest stays queued, and nothing due is left |
| `Execution.RunQueueExact` | pbft/pbft/PBFTServer.go:409-439 | the loop does that for any queue, though it may stabilise checkpoints on the way |
| `Execution.NothingDueStays` | pbft/pbft/PBFTServer.go:1031-1070 | no step of any run leaves a task waiting that is due, unless it makes a checkpoint stable |
| `Stalls.CheckPointStalls` | pbft/pbft/PBFTServer.go:523-560 | and then it can: a run for every f in which a checkpoint becomes stable right below a queued task, which stays queued |
| `Execution.OthersExecuteNothing` | pbft/pbft/PBFTServer.go:1031-1070 | nothing but a commit message executes anything |
| `Execution.StepAccounted` | pbft/pbft/PBFTServer.go:1031-1070 | every step, whatever it delivers: a queued task stays queued or has been answered with its view, number and digest |
| `Execution.RunAccounted` | pbft/pbft/PBFTServer.go:357-440 | in every run every executed task has been answered so, each entry's answer is its own, and the history ends with the operations answered for the tasks executed above the stable checkpoint |
| `Execution.StabilizeAnswers` | pbft/pbft/PBFTServer.go:523-560 | a stable checkpoint answers every queued task up to its number and leaves exactly the others queued |
| `Execution.RecordsExact` | pbft/pbft/PBFTServer.go:977-991 | the history loses its records up to the stable checkpoint's exactly if that one is met before any larger number, and nothing otherwise |
| `Execution.ReplyAnswers` | pbft/pbft/PBFTServer.go:357-383 | the answer to a task names its view, number and digest, and the operation and the client's number of the request stored for it, whatever was answered before |
| `History.HistoryIsExecution` | pbft/pbft/PBFTServer.go:414-432 | in every run of the system in which digests determine operations, an honest replica's history ends with exactly the operations it has executed above its stable checkpoint, in order, null requests left out |
| `History.HistoriesAgree` | pbft/pbft/PBFTServer.go:414-432 | two honest replicas never record different operations for a number both executed in one view |
| `ReplicaOrder.StabilizeKeeps` | pbft/pbft/PBFTServer.go:523-560 | stabilising leaves exactly one stable checkpoint, with the lowest key, the window on it, and every queued task's entry in the log |
| `ReplicaOrder.CheckPointKeeps` | pbft/pbft/PBFTServer.go:483-520 | any announcement from anyone keeps that and never panics |
| `Checkpoints.AnnouncementExact` | pbft/pbft/PBFTServer.go:483-520 | an announcement makes its number stable if and only if it is recorded and some recorded announcement, counted with those before it, shares its digest with more than 2f and its view with more than 2f; the first such one's digest and view are adopted, and otherwise nothing but the record changes |
| `Checkpoints.FirstAgreedExact` | pbft/pbft/PBFTServer.go:499-516 | the loop over the announcements stops at exactly the first of them that enough agree with |
| `StepLimits.StableBacked` | pbft/pbft/PBFTServer.go:1031-1070 | view changes apart, whatever step makes a checkpoint stable, in every run, its record holds such a quorum |
| `StepLimits.CaughtUp` | pbft/pbft/PBFTServer.go:685-740 | what entering a view makes stable is the highest checkpoint its reports name, with a digest one of them gives |
| `Announcing.RunAnnounces` | pbft/pbft/PBFTServer.go:434-470 | in every run a replica has announced checkpoints of its own for exactly those of its executions that end an interval, each with its number and the digest of a history that tells what had been executed up to then and nothing more |
| `Announcing.StepAnnounces` | pbft/pbft/PBFTServer.go:1031-1070 | what any step announces is what it executes, and no other step announces anything |
| `Checkpoints.RepeatedAnnouncement` | pbft/pbft/PBFTServer.go:483-520 | announcements are counted, not announcers: the same one heard 2f+1 times makes its number stable and counts it as applied |
| `Checkpoints.OneFaultySkips` | pbft/pbft/PBFTServer.go:483-520 | so for every f there is a run in which one faulty replica makes an honest one skip to a checkpoint with a made-up digest, having executed nothing |
| `ReplicaGrowth.StepGrows` | pbft/pbft/PBFTServer.go:1031-1070 | no step takes back a view, an executed number, a stable checkpoint, a sent message or a report |
| `ReplicaGrowth.WindowForward` | pbft/pbft/PBFTServer.go:548-556 | after the first stabilisation h = lastcp, H = h + 2·checkpointDiv, and h never decreases |
| `ReplicaGrowth.CommitPanics` | pbft/pbft/PBFTServer.go:402-405 | in every reachable state a commit panics if and only if it is in the window, completes a commit quorum on an entry not yet executed, and its number is above `apply` and already queued |
| `ReplicaGrowth.QueuedInOtherView` | pbft/pbft/PBFTServer.go:402-405 | the queued task is then of another view: within one view no number is queued twice |
| `ReplicaGrowth.NewViewPanics` | pbft/pbft/PBFTServer.go:805-840 | a new-view message panics if and only if it is for a later view, names more than 2f senders, and its list agrees with the computed one as far as it goes but is shorter |
| `ReplicaGrowth.OnlyTwoPanics` | pbft/pbft/PBFTServer.go:1031-1070 | in every reachable state a step panics if and only if it is one of these two: every other panic of the source is unreachable |
| `Panics.QueuedTwicePanics` | pbft/pbft/PBFTServer.go:402-405 | the first panic is reached, for every f: a number queued in one view behind a missing one, listed again by the new view and committed there |
| `Panics.ShortListPanics` | pbft/pbft/PBFTServer.go:805-840 | the second panic is reached, for every f: one new-view message with enough view changes and no list |
| `Progress.PreparesCollected` | pbft/pbft/PBFTServer.go:253-306 | a replica that holds a slot's pre-prepare and hears more than 2f different prepares for it has committed to it |
| `Progress.CommitsExecute` | pbft/pbft/PBFTServer.go:317-440 | a replica that has committed to its next number and hears more than 2f different commits has executed and answered it |
| `ReplicaReplies.StepTold` | pbft/pbft/PBFTServer.go:357-440 | in every step: only committed requests with a commit quorum are queued, executed and answered; and if digests determine operations, every answer carries its digest's operation |
| `LeaderViews.EveryViewNumbered` | pbft/pbft/PBFTServer.go:115-175 | in every run and every view entered fresh, through a view change, a new-view message or a checkpoint: the k-th new operation got the k-th number from the view's first one on, and keeps it while that number is within two intervals of the stable checkpoint |
| `LeaderViews.StepStarts` | pbft/pbft/PBFTServer.go:1031-1070 | every step into a later view leaves it numbered if and only if it starts fresh |
| `LeaderViews.EnteredNumbered` | pbft/pbft/PBFTServer.go:685-740 | what fresh means for entering on any set of view changes, as leader or follower, in terms of the computed slots and the stable checkpoint only |
| `LeaderViews.RepeatedOperation` | pbft/pbft/PBFTServer.go:706-721 | a view need not start fresh: one operation reported under two numbers has the second in the table and both in the log |
| `Numbering.ViewNumbered` | pbft/pbft/PBFTServer.go:115-175 | over a whole view that starts numbered: the k-th new operation got number t0+k, and keeps it while it is live |
| `Numbering.NumberNext` | pbft/pbft/PBFTServer.go:115-145 | a new operation gets the next number, below the window's upper edge |
| `History.NumberExact` | pbft/pbft/PBFTServer.go:115-150 | the leader asked for a new operation sends a pre-prepare with the next number, or does nothing when the window is full or the service gives no auxiliary |
| `History.RepeatExact` | pbft/pbft/PBFTServer.go:115-175 | the leader asked again for a numbered operation never numbers it anew: nothing below the stable checkpoint, the stored pre-prepare once more while it is not executed, and the very answer sent before once it is |
| `Timeouts.ChangingExact` | pbft/pbft/PBFTServer.go:1031-1070 | a replica stops taking part exactly when its timer fires, and takes part again exactly when it is in a later view, however it got there; its count of view changes then starts anew |
| `Timeouts.ChangingWaits` | pbft/pbft/PBFTServer.go:104-340 | until then no step takes in a vote, executes, numbers a request, commits to anything or announces a checkpoint |
| `Timeouts.RunWaits` | pbft/pbft/PBFTServer.go:104-340 | the same over any run, for as long as the view stays |
| `Timeouts.TimerExact` | pbft/pbft/PBFTServer.go:573-635 | the timer makes a replica ask for the view after those it has asked for, with its stable checkpoint, and keeps it waiting with the timer running, unless the message completes the quorum of a view it is to lead itself, which it then enters |
| `Timeouts.ReportExact` | pbft/pbft/PBFTServer.go:600-635 | its message reports every slot above the stable checkpoint that is committed to or prepared, once each and no other, with the pre-prepare stored for it and the prepares heard for it |
| `Timeouts.TimeoutsClimb` | pbft/pbft/PBFTServer.go:573-600 | so timeouts in a row ask for one view after the other without a gap |
| `Timeouts.TimerStopped` | pbft/pbft/PBFTServer.go:208-340 | any vote, and any pre-prepare the service consents to, from anyone and for anything, stops the timer of a replica that takes part and resets that count, in every state |
| `Timeouts.RelayedOnce` | pbft/pbft/PBFTServer.go:177-196 | of all requests that reach a follower between two stops of its timer, the first is relayed and starts the timer, and no other does anything |
| `Timeouts.VoicesKept` | pbft/pbft/PBFTServer.go:1031-1070 | whatever step of any run: of the view changes asked for in views later than its own a replica has kept each message, in order, and adds exactly the one delivered or its own |
| `Timeouts.PreparesOwed` | pbft/pbft/PBFTServer.go:1031-1070 | a prepare owed for a view that was entered stays owed until it is sent |
| `Numbering.LiveNumbersDiffer` | pbft/pbft/PBFTServer.go:992-998 | two live numbers never belong to the same operation |
| `Numbering.StepNumbers` | pbft/pbft/PBFTServer.go:1031-1070 | every step of the view keeps the numbering, however requests, votes and checkpoints interleave |
| `Numbering.FirstViewNumbered` | pbft/pbft/PBFTServer.go:1080-1111 | the first view starts out numbered from initSeq |
| `Paillier.RoundTrip` | curv/proofs/paillier.go:202-245 | Decrypt(EncryptWithNonce(m, r)) = m for every usable key, m < n and r coprime to n, through the CRT path |
| `Paillier.RoundTripExact` | curv/proofs/paillier.go:202-245 | for every nonce, coprime or not: encryption refuses exactly m >= n, and decryption gives m back if and only if, for each prime, r is coprime to it or m·(other prime) is 1 modulo it |
| `Paillier.DecryptExact` | curv/proofs/paillier.go:222-245 | the same for every ciphertext, including sums and multiples of ciphertexts |
| `Paillier.KeyExists` | curv/proofs/paillier.go:109-137 | key creation succeeds for two primes if and only if neither divides the other minus one |
| `Paillier.HInverse` | curv/proofs/paillier.go:159-169 | `h` exists and inverts minus the other prime |
| `Paillier.AddEncrypts` | curv/proofs/paillier.go:250-259 | the product of ciphertexts encrypts the sum of the plaintexts |
| `Paillier.MulEncrypts` | curv/proofs/paillier.go:280-286 | the power of a ciphertext encrypts the multiple of the plaintext |
| `Paillier.CrtExact` | curv/proofs/paillier.go:241-245 | the recombined value is m mod n if and only if both halves are m's residues |
| `Paillier.RecombineDecompose` | curv/proofs/paillier.go:72-89 | crtRecombine undoes crtDecompose on [0, n) |
| `Paillier.RecombineExact` | curv/proofs/paillier.go:79-89 | the recombination lies in [0, pq) and has both given residues |
| `Paillier.NrootCorrect` | curv/proofs/paillier.go:289-295 | for every z in [0, n) the extracted root is in range and its n-th power modulo n is z |
| `Paillier.NrootUnique` | curv/proofs/paillier.go:289-295 | and from an n-th power it extracts the number that was raised, for every number below the modulus: n-th roots are unique |
| `Proofs.CreateNICorrectKeyProof` | curv/proofs/correct_key_ni.go:33-50 | the loop returns the n-th roots of all challenges |
| `Proofs.VerifyCorrectKey` | curv/proofs/correct_key_ni.go:53-73 | the loop accepts if and only if the primorial is coprime to n and every root's n-th power is its challenge |
| `Proofs.KeyProofComplete` | curv/proofs/correct_key_ni.go:33-73 | a created proof is accepted if and only if neither prime divides the primorial |
| `Proofs.KeyProofExact` | curv/proofs/correct_key_ni.go:53-73 | for a properly formed key any proof at all is accepted if and only if its answers are, modulo the modulus, the extracted roots of the challenges and neither prime divides the primorial |
| `Proofs.AcceptedModulus` | curv/proofs/correct_key_ni.go:53-73 | whatever modulus comes with an accepted proof, no divisor of it divides the primorial |
| `Proofs.PrimorialTest` | curv/proofs/correct_key_ni.go:54-58 | gcd(primorial, pq) = 1 if and only if neither prime divides the primorial |
| `Proofs.Prove` | curv/proofs/dlogprove.go:33-54 | the in-place computation leaves the caller's key alone and returns the proof of it |
| `Proofs.DLogComplete` | curv/proofs/dlogprove.go:33-70 | every created discrete-log proof is accepted and names the secret's point |
| `Proofs.DLogExact` | curv/proofs/dlogprove.go:33-70 | the prover's steps for a secret, shown for any point, are accepted if and only if it is the secret's point or the challenge is zero |
| `Soundness.DLogExtract` | curv/proofs/dlogprove.go:57-70 | two accepted proofs with one commitment and different challenges give the point's logarithm |
| `Proofs.CreateHomoELGamalProof` | curv/proofs/homoelgamalproof.go:43-93 | every proof created for a true statement is accepted; modulo a prime order one created for a false statement is refused, but for a zero challenge |
| `Soundness.ElGamalExtract` | curv/proofs/homoelgamalproof.go:70-93 | two accepted proofs with one first message and different challenges give a witness: D = x·H + r·Y and E = r·G |
| `Mta.NewMessageB` | service/mecdsa/dsm_handler.go:370-391 | the answer with its two proofs, or the failure of the encryption |
| `Mta.MtaCorrect` | service/mecdsa/dsm_handler.go:370-431 | for k, b, beta' below q and a modulus of at least q²: decryption gives exactly k·b + beta' with no wrap, verifyProofsGetAlpha accepts, and alpha + beta = k·b modulo q |
| `Mta.AlphaExact` | service/mecdsa/dsm_handler.go:415-431 | whatever is sent, honest or not: accepted if and only if it decrypts, both proofs verify and the decrypted value is k times the first announced exponent plus the second, modulo the order; alpha is then that value |
| `Mta.SharesMatch` | service/mecdsa/dsm_handler.go:415-431 | alpha + beta is k times the announced b if and only if beta fits the second announced point |
| `Mta.AnyAnswer` | service/mecdsa/dsm_handler.go:415-431 | a ciphertext of any x, with proofs for any two points, is refused unless x is what they call for |
| `Mta.NoWrap` | service/mecdsa/dsm_handler.go:380-388 | the bound that keeps k·b + beta' below the modulus |
| `Scalars.ModAdd` | curv/share/util.go:182-188 | overwrites and returns its first argument with the sum modulo N |
| `Scalars.ModMul` | curv/share/util.go:191-197 | overwrites and returns its first argument with the product modulo N |
| `Scalars.ModSub` | curv/share/util.go:200-216 | overwrites and returns its first argument with the difference, brought into [0, N) |
| `Scalars.InvertN` | curv/share/util.go:83-87 | a fresh scalar, proved an inverse for every nonzero residue modulo a prime |
| `Scalars.BigInt2PrivateKey` | curv/share/util.go:115-119 | a fresh scalar holding the residue |
| `Polynomials.InvertIsInverse` | curv/share/util.go:76-87 | k^(N-2) inverts k modulo a prime, from Fermat's theorem |
| `NumberTheory.Fermat` | curv/share/util.go:76-80 | Fermat's little theorem, proved rather than assumed |
| `Feldman.Share` | curv/feldman/feldman_vss.go:23-44 | the commitments are those of the polynomial and the i-th share is its value at i+1 |
| `Feldman.EvaluatePolynomial` | curv/feldman/feldman_vss.go:67-82 | the in-place Horner loop gives the polynomial's value at every index |
| `Feldman.ValidateShare` | curv/feldman/feldman_vss.go:85-106 | against commitments to any polynomial, the group Horner loop accepts if and only if the share is its value at the index modulo N |
| `Feldman.ShareAcceptedOnlyAtItsIndex` | curv/feldman/feldman_vss.go:23-106 | that value is exactly what the field Horner loop deals |
| `Feldman.MapShareToNewParams` | curv/feldman/feldman_vss.go:111-140 | the loops over numerators and denominators give the Lagrange weight of the share among the listed signers |
| `Feldman.LagrangeInterpolationAtZero` | curv/feldman/feldman_vss.go:153-183 | the nested in-place loops give Lagrange's sum at zero |
| `Feldman.Reconstruct` | curv/feldman/feldman_vss.go:189-202 | the same for shares named by index, at points index+1 |
| `Polynomials.LagrangeAtZero` | curv/feldman/feldman_vss.go:153-183 | for a polynomial with no more coefficients than points distinct modulo a prime, Lagrange's sum at zero is its constant term |
| `Sharing.ReconstructionCorrect` | curv/feldman/feldman_vss.go:189-202 | from any t+1 or more distinct indices, reconstruction returns the dealt secret |
| `Sharing.LambdaIsWeight` | curv/feldman/feldman_vss.go:111-140 | the mapped weight does not depend on the order in which the signers are listed |
| `Sharing.AdditiveSharesSum` | curv/feldman/feldman_vss.go:111-140 | the mapped shares of any large enough set sum to the secret, each signer listing the others in its own order |
| `Sharing.SumPolyEval` | service/mecdsa/pkn_handler.go:337-347 | the sum of the dealers' polynomials has the sum of their values everywhere |
| `KeyGen.KeyShareCorrect` | service/mecdsa/pkn_handler.go:314-347 | for commitments of the dealers' polynomials, in whatever order the shares arrive and with both checks made on each, every notary ends phase 3 once, holding the value at its own point of the sum of the polynomials |
| `Dealing.TakenSharesReconstruct` | service/mecdsa/pkn_handler.go:314-347 | whatever the dealers did: notaries that took every share and were shown the same points and polynomials, none longer than they are many, reconstruct the secret behind the joint public key, and their additive shares sum to it, whatever order each lists the others in |
| `Dealing.KeyShareOnShown` | service/mecdsa/pkn_handler.go:314-347 | a notary that has taken a share from every dealer holds the value at its own point of the sum of the polynomials it was shown, whose constant term is the sum of the announced points |
| `Dealing.OnlyTaken` | service/mecdsa/pkn_handler.go:314-335 | in whatever order and however often messages come in, a share is kept if and only if it passed both checks |
| `Dealing.SplitDealing` | service/mecdsa/pkn_handler.go:314-335 | nobody compares what different notaries are shown: when a dealer shows two of them u + a·x and u + b·x, both take their shares, and they reconstruct the announced secret if and only if a and b agree modulo N |
| `KeyGen.PublicKeyAgreed` | service/mecdsa/pkn_handler.go:181-211 | in whatever order the proofs arrive, every notary ends phase 1 once, with the same public key: the sum of all secrets |
| `KeyGen.HonestShareAccepted` | service/mecdsa/pkn_handler.go:314-335 | an honest dealer's share passes both checks of its receiver |
| `Dealing.PointTaken` | service/mecdsa/pkn_handler.go:181-196 | a point proved with a secret is taken if and only if it is that secret times G, for a nonzero challenge |
| `Dealing.PaillierTaken` | service/mecdsa/pkn_handler.go:235-252 | a properly formed Paillier key is taken if and only if its proof holds the roots of its challenges and the primorial spares its primes |
| `KeyGen.PKNHandler.ReceivePhase1PubKeyProof` | service/mecdsa/pkn_handler.go:181-196 | kept once per sender; the last one makes the public key |
| `KeyGen.PKNHandler.CheckPhase1Done` | service/mecdsa/pkn_handler.go:198-211 | ends the phase exactly when everybody else has been heard |
| `KeyGen.PKNHandler.ReceivePhase2PaillierPubKeyProof` | service/mecdsa/pkn_handler.go:235-260 | kept once per sender, after the key proof is verified |
| `KeyGen.PKNHandler.GeneratePhase3SecretShare` | service/mecdsa/pkn_handler.go:278-311 | deals nothing if one of the commitments it looks at does not open, otherwise one share per notary with its own kept; the last notary's commitment is never looked at |
| `KeyGen.PKNHandler.ReceivePhase3SecretShare` | service/mecdsa/pkn_handler.go:314-335 | kept once per sender, if the dealer's first point is the announced one and the share fits; the last one makes the key share |
| `KeyGen.PKNHandler.CheckPhase3Done` | service/mecdsa/pkn_handler.go:337-347 | ends the phase exactly when all shares are in, with their sum modulo N |
| `Arrivals.ArrivalOrder` | service/mecdsa/dsm_handler.go:319-335 | a barrier reports its end exactly once, with the last of the expected messages, in any order of arrival |
| `Arrivals.AllDelivered` | service/mecdsa/dsm_handler.go:319-329 | after all arrivals the map is the same in every order |
| `Arrivals.RepeatRefused` | service/mecdsa/dsm_handler.go:319-329 | a repeated sender changes nothing and is reported |
| `Arrivals.MapSumAnyOrder` | service/mecdsa/dsm_handler.go:563-569 | the sum over a map is the same in every order of walking it |
| `Signing.DSMHandler.constructor` | service/mecdsa/dsm_handler.go:286-300 | the additive share is the key share times its Lagrange weight among all signers |
| `Signing.DSMHandler.GeneratePhase1Broadcast` | service/mecdsa/dsm_handler.go:305-316 | the commitment to the gamma point, kept as the own message |
| `Signing.DSMHandler.ReceivePhase1Broadcast` | service/mecdsa/dsm_handler.go:319-329 | kept once per sender; the last one ends the phase |
| `Signing.DSMHandler.ReceivePhase2MessageA` | service/mecdsa/dsm_handler.go:398-413 | one answer for gamma and one for the share |
| `Signing.DSMHandler.ReceivePhase2MessageB` | service/mecdsa/dsm_handler.go:434-440 | an answer overwrites an earlier one; the last missing one triggers the checks, and the phase ends only with alphas that fit every sender's two announced points |
| `Signing.DSMHandler.CheckPhase2Done` | service/mecdsa/dsm_handler.go:442-460 | if every answer convinces all alphas are stored, each what its sender's two announced points call for; otherwise the session fails with some of them stored |
| `Signing.AcceptedSum` | service/mecdsa/dsm_handler.go:462-495 | accepted answers whose betas fit their points add up, with the own product, to k times the sum of all announced exponents, whoever sent them |
| `Signing.DSMHandler.Phase2DeltaI` | service/mecdsa/dsm_handler.go:462-479 | own product plus every peer's alpha and beta, without changing the session's scalars |
| `Signing.DSMHandler.Phase2SigmaI` | service/mecdsa/dsm_handler.go:480-495 | the same for the key shares |
| `Signing.DSMHandler.GeneratePhase3DeltaI` | service/mecdsa/dsm_handler.go:501-510 | sets sigma, records and returns delta |
| `Signing.DSMHandler.ReceivePhase3DeltaI` | service/mecdsa/dsm_handler.go:513-523 | kept once per sender; the last one ends the phase |
| `Signing.DSMHandler.GeneratePhase4R` | service/mecdsa/dsm_handler.go:572-588 | the nonce point from the gammas and deltas if all commitments open; one that does not open leaves no point and no error; a missing answer or commitment makes it panic |
| `SigningSteps.Phase3ReconstructDelta` | service/mecdsa/dsm_handler.go:563-569 | the inverse of the sum of all deltas, whatever order the map is walked in |
| `SigningSteps.Phase4` | service/mecdsa/dsm_handler.go:531-559 | for any answers and commitments: with the same senders a point, namely the summed gammas times the given inverse, exactly when every gamma matches its commitment; a panic when their numbers differ; with different senders a panic, or a refusal if some gamma does not match |
| `SigningAlgebra.NonceInverted` | service/mecdsa/dsm_handler.go:531-588 | the resulting nonce point inverts the sum of the k |
| `SigningSteps.Phase5LocalSignature` | service/mecdsa/dsm_handler.go:591-616 | the share m·k_i + r·sigma_i with the values it was made from |
| `Signing.DSMHandler.GeneratePhase5a5bZkProof` | service/mecdsa/dsm_handler.go:664-675 | a first decommitment that every receiver accepts |
| `SigningSteps.Phase5aBroadcast5bZkproof` | service/mecdsa/dsm_handler.go:620-657 | its commitment opens, its ElGamal proof verifies, and its points are the honest ones |
| `Soundness.FirstRoundExact` | service/mecdsa/dsm_handler.go:678-716 | a first decommitment proved with l and s is accepted if and only if its commitment opens, V = s·R + l·G and B = l·A, for a nonzero challenge |
| `Soundness.FirstRoundExtract` | service/mecdsa/dsm_handler.go:678-716 | whoever gets one accepted against two challenges has made its points from some l and s |
| `Soundness.DecommitmentsBind` | service/mecdsa/dsm_handler.go:678-802 | unless commitments collide, two decommitments accepted for one commitment, of the first round or the second, have the same hash of points |
| `Soundness.GammasBind` | service/mecdsa/dsm_handler.go:531-559 | unless commitments collide, two gamma points accepted for one commitment have the same x-coordinate |
| `Signing.DSMHandler.ReceivePhase5A5BProof` | service/mecdsa/dsm_handler.go:678-716 | kept once per sender; when all are in, the phase ends if and only if every commitment and proof is valid |
| `SigningSteps.Phase5c` | service/mecdsa/dsm_handler.go:718-755 | the second decommitment from all V, the own one included, and everybody else's A |
| `Signing.DSMHandler.GeneratePhase5CProof` | service/mecdsa/dsm_handler.go:758-775 | the same from the handler's maps, in any order of walking them |
| `Signing.DSMHandler.ReceivePhase5cProof` | service/mecdsa/dsm_handler.go:778-802 | kept once per sender if its commitment opens |
| `SigningSteps.Phase5d` | service/mecdsa/dsm_handler.go:832-864 | the biased sums over T, B and U come back to the bias if and only if sum T + sum B = sum U |
| `SigningAlgebra.Phase5Exact` | service/mecdsa/dsm_handler.go:718-864 | that equation holds if and only if the shares sum to a valid signature, for nonzero rho sum |
| `Signing.DSMHandler.Generate5dProof` | service/mecdsa/dsm_handler.go:808-827 | the own share is given away if and only if the test accepts |
| `Signing.DSMHandler.ReceiveSI` | service/mecdsa/dsm_handler.go:867-876 | kept once per sender; the last one decides the session |
| `Signing.DSMHandler.CheckPhase6Done` | service/mecdsa/dsm_handler.go:878-895 | the session ends well if and only if the summed shares verify |
| `SigningSteps.VerifyEquation` | service/mecdsa/dsm_handler.go:914-931 | the two scalar multiplications accept exactly the pairs whose point has x-coordinate r |
| `SigningAlgebra.SigningCorrect` | service/mecdsa/dsm_handler.go:531-931 | the algebra behind the main theorem, for shared products in any form |
| `Server.Server.HandleReq` | pbft/pbft/PBFTServer.go:1031-1070 | dispatch of one message: exactly the step function, and the invariant is kept |
| `Server.Server.Request` | pbft/pbft/PBFTServer.go:104-113 | exactly the request step, as leader, follower or changing replica |
| `Server.Server.HandleRequestFollower` | pbft/pbft/PBFTServer.go:177-196 | relays once and starts the timer only if it was not running |
| `Server.Server.HandleRequestLeader` | pbft/pbft/PBFTServer.go:115-175 | exactly the leader's step: number, restart, answer again or ignore |
| `Server.Server.PrePrepare` | pbft/pbft/PBFTServer.go:208-241 | exactly the pre-prepare step, the own prepare handled inside it |
| `Server.Server.Prepare` | pbft/pbft/PBFTServer.go:253-291 | exactly the prepare step, the own commit handled inside it |
| `Server.Server.Commit` | pbft/pbft/PBFTServer.go:317-341 | exactly the commit step |
| `Server.Server.Execute` | pbft/pbft/PBFTServer.go:385-440 | exactly the execution step, over the priority queue object |
| `Server.Server.ReplyByPendingTask` | pbft/pbft/PBFTServer.go:357-383 | prepares a task's answer once and sends it |
| `Server.Server.StartCheckPoint` | pbft/pbft/PBFTServer.go:452-469 | exactly the step that announces an own checkpoint and handles it at once |
| `Server.Server.CheckPoint` | pbft/pbft/PBFTServer.go:483-520 | exactly the announcement step: records it and stabilises at the first one agreed on often enough |
| `Server.Server.StablizeCP` | pbft/pbft/PBFTServer.go:523-560 | exactly the stabilisation: view, queue, log, checkpoints, numbering, history and window |
| `Server.Server.GetCheckPoint` | pbft/pbft/PBFTServer.go:906-939 | finds or creates the record, recomputing its digest; none below a stable checkpoint |
| `Server.Server.GetStableCheckPoint` | pbft/pbft/PBFTServer.go:941-948 | in every reachable state it finds the one stable checkpoint, whatever the map order, and never panics |
| `Server.Server.HandleTimer` | pbft/pbft/PBFTServer.go:573-619 | exactly the view-change request, for whatever order the log is walked in |
| `Server.Server.GenerateViewChange` | pbft/pbft/PBFTServer.go:586-619 | the report: the stable checkpoint and every prepared entry above it, once each |
| `Server.Server.ViewChange` | pbft/pbft/PBFTServer.go:637-683 | exactly the view-change step, counting messages |
| `Server.Server.NewView` | pbft/pbft/PBFTServer.go:805-840 | exactly the new-view step |
| `Server.Server.EnteringNewView` | pbft/pbft/PBFTServer.go:685-740 | exactly the entry: catch up, install, cut, and leave the prepares to be sent |
| `Server.CalcMinMaxspp` | pbft/pbft/PBFTServer.go:748-767 | the loops give the highest checkpoint, the highest reported number and the last report per number |
| `Server.CalcSlots` | pbft/pbft/PBFTServer.go:775-795 | the loop gives the list `NewView.SlotsTotal` speaks of |
| `Server.HasQuorum` | pbft/pbft/PBFTServer.go:294-306 | counts distinct senders of matching votes, not votes |
| `Server.FindAgreed` | pbft/pbft/PBFTServer.go:493-520 | the first announcement at which digest and view have both been seen more than 2f times |
| `Server.RecordsBehind` | pbft/pbft/PBFTServer.go:977-991 | what is left of the history when the records up to the checkpoint's are removed; all of it if that record is not there |
| `Client.PBFTClient.Start` | pbft/pbft/PBFTClient.go:104-143 | queues a new command or lets it wait when eleven are under way; a repeated one is refused and also forgets the first, which stays queued; either way every logged request is still queued |
| `Client.PBFTClient.Response` | pbft/pbft/PBFTClient.go:172-211 | in every state of the client: a request completes exactly when more than f different replicas gave this answer's number, at most once, and panics exactly if it is then not in the request queue; otherwise the next ones waiting are let in |
| `Client.PBFTClient.UpdateQueue` | pbft/pbft/PBFTClient.go:214-236 | the loop moves waiting requests over while there is room, dropping one that is queued already |
| `Client.RefilledKeeps` | pbft/pbft/PBFTClient.go:214-236 | that loses no request, keeps the request queue within outstanding+1, and leaves requests waiting only behind a full queue |
| `Client.RefilledInOrder` | pbft/pbft/PBFTClient.go:214-236 | as long as no command is queued twice it keeps the order over both queues |
| `Client.PBFTClient.NotifyResult` | pbft/pbft/PBFTClient.go:156-169 | reports unless the channel is full, and forgets the request either way |
| `Client.Completes` | pbft/pbft/PBFTClient.go:180-200 | reporting the last answer's fields is right: only its own number can have become settled |
| `Client.FindSettled` | pbft/pbft/PBFTClient.go:180-200 | the counting loop finds an answer whose number has more than f different repliers, if there is one |
| `Queues.PriorityQueue.Insert` | pbft/pbft/utility.go:111-134 | in-place shift: inserts in order, and refuses exactly a priority already held |
| `Queues.PriorityQueue.ExtractMin` | pbft/pbft/utility.go:74-84 | takes the first element off |
| `Queues.PriorityQueue.ExtractMax` | pbft/pbft/utility.go:61-71 | takes the last element off, above all others |
| `Queues.PriorityQueue.GetMin` | pbft/pbft/utility.go:99-108 | an element of smallest priority, if any |
| `Queues.PriorityQueue.GetMax` | pbft/pbft/utility.go:87-96 | an element of largest priority, if any |
| `Queues.InsertedAscending` | pbft/pbft/utility.go:111-134 | insertion keeps the strict order |
| `Queues.InsertedAdds` | pbft/pbft/utility.go:111-134 | insertion adds exactly the new element |
| `Queues.DifferentElemInSlice` | pbft/pbft/utility.go:147-154 | the number of different values |
| `Queues.StringQueue.Insert` | pbft/pbft/stringQueue.go:42-50 | appends to list and map together, and refuses a key already there |
| `Queues.StringQueue.Remove` | pbft/pbft/stringQueue.go:21-30 | removes from both, keeping the order of the rest |
| `Queues.StringQueue.ExtractMin` | pbft/pbft/stringQueue.go:10-20 | takes the oldest key with its value off both |
| `Queues.RemovedKeeps` | pbft/pbft/stringQueue.go:21-30 | removal drops exactly that key |
| `Utxo.GetAvailableUTXO` | models/BTCOutpoint.go:121-149 | for a positive amount: covers it with available outpoints, each once, no choice that covers it using fewer; fails only if no choice of at most ten covers it |
| `Utxo.SelectionOptimal` | models/BTCOutpoint.go:121-149 | that for every best fit and every top-ten listing the two queries may return |
| `Utxo.TopDominates` | models/BTCOutpoint.go:131-146 | the first rows are worth at least any other choice of the same size |
| `Utxo.OutpointStore.PreSelectUTXO` | models/BTCOutpoint.go:159-180 | marks if and only if the outpoint is known and free for this primary; each refusal with its own error |
| `Utxo.OutpointStore.CommitUTXO` | models/BTCOutpoint.go:183-192 | commits without checking, changing nothing else |
| `Utxo.OutpointStore.GetOpAuxiliary` | service/btcPBFTService.go:69-101 | an optimal choice, marked at once and written behind the digest; on failure the table is unchanged |
| `Utxo.OutpointStore.PrepareSeq` | service/btcPBFTService.go:106-128 | a backup's marking succeeds if and only if the list is a free choice; at the first refusal the marks before it stay; the primary does nothing |
| `Utxo.OutpointStore.CommitSeq` | service/btcPBFTService.go:135-150 | exactly the named outpoints end up committed to this primary |
| `Utxo.HandedDisjoint` | service/btcPBFTService.go:69-150 | in every run of one primary's view, other primaries' pre-selections included: at every point the handed-out sets are disjoint and stay so whatever the primary does next, if and only if no step pre-selected for another primary an outpoint that was handed out and not committed |
| `Utxo.HandedTwice` | pbft/pbft/PBFTServer.go:213-221 | for every unused outpoint and every other primary there is a run with such a step in which the outpoint is handed to two operations |
| `Utxo.HandKeeps` | service/btcPBFTService.go:69-101 | one more set keeps that, and contains no committed outpoint |
| `Utxo.OtherPrimaryFrees` | models/BTCOutpoint.go:170-175 | one step, whoever takes it, keeps the handed-out sets exclusive if and only if it is not another primary's pre-selection of a handed-out, uncommitted outpoint |
| `Utxo.AuxiliaryRoundTrip` | service/btcPBFTService.go:85-120 | backups read back exactly the outpoints the primary wrote |

## Left out

- NewView.ExecutedSurvives: only the first view change, with crash faults. It fails for later ones (Divergence.ViewsDisagree); NewView.SlotIsLastReport says for any view change exactly when a digest is kept.
- Agreement.NonceUnique: only numbers answered in one view; Client.ClientsShareNumber is a run in which a number answered in two views has two operations.
- Client.ClientsNeverShareNumber: only such numbers, for the same reason.
- LeaderViews.EveryViewNumbered: only views that start fresh, since the others start out of step (LeaderViews.StepStarts); the empty operation is not numbered, since null requests of a new view use it; and nobody else pre-prepares in the leader's view, which authentication gives.
- Proofs.KeyProofExact: properly formed moduli only, and Proofs.AcceptedModulus says no more of others; that an ill-formed modulus hardly ever passes, and secrecy of anything, are cryptographic assumptions.
- Soundness.ElGamalExtract: two challenges for one first message come from two hash functions; how likely a forger meets the second is not part of the model.
- StepLimits.StableBacked: not for checkpoints taken over in a view change, which the source adopts on one report (StepLimits.CaughtUp).
- Paillier.KeyExists: how the primes are found (`GenerateKey`) is not part of the model.
- Utxo.GetAvailableUTXO: the database is a map; that gorm skips fields holding zero, such as view 0, is not modelled.
- Curve arithmetic on coordinates, big.Int internals and byte encodings of numbers.
- In `verify`, address recovery, the packing of the signature and `restoreAndCheckRS`, whose normalisation panics for two values of s.
- `checkPhase4Done`: its comparison has no effect in the code.
- The digest a record shows after it has become stable: `getCheckPoint` recomputes it when one more announcement arrives.
- Liveness: timers, retransmission, channels and goroutine races. A timer may fire at any time, also after a failed `CommitSeq`; a full result channel is an argument.
- The order of one step's effects inside `stablizeCP`: queued tasks refer to their entry directly in the source and by number here, so the queue is answered before the log is cut.
- Message encoding, websockets, logging, and the older `mecdsa` package with the same algebra.
- Lock-in and lock-out handlers, chain listeners, the nonce server and the user interfaces.
