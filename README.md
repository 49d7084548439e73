# Follower election logic of a Copycat server, in Dafny

This project models the follower role of the Copycat Raft server
(`FollowerState`) and proves properties of that model.

A follower keeps one election timer, the `heartbeatTimer` field. When the timer fires and
the state is still open, the follower does three things:

- it clears the leader hint;
- it schedules a poll deadline;
- it sends a non-binding pre-vote ("poll") request to every active voting member.

Each request carries the current term, the local identity, the last log index and the
term of the last entry. The replies feed a per-round vote counter (`Quorum`), and the
counter's callback fires once. If it fires "elected", the follower asks the server context
for a transition to CANDIDATE. If it fires "not elected", the heartbeat timer is re-armed.
Install, configure and append requests always reset the timer. A vote the server grants
also resets it. Closing the state cancels the pending timer.

Every handler runs on the server's single thread context, so the model treats each
callback as one event. Each event is a method of the class `Follower.FollowerState`:
`Open`, `HeartbeatFired`, `PollDeadlineFired`, `PollReplied` (with `QuorumResolved` as the
counter's callback), `Install`, `Configure`, `Append`, `HandleVote` and `Close`. The
surroundings of the class are modelled by its fields:

- the thread context's scheduler: the map `scheduled` of tasks still to run, with their delays;
- the server context: `term`, `leader` and the list `transitions` of requested role changes;
- the transport: an `outbox` of poll requests and, per round, the members whose reply is still in flight.

Poll rounds are kept in a sequence, indexed by round number. A reply names its round, so a
reply to an abandoned round reaches that round's own counter, as the closures in the code
allow.

Files:

- `quorum.dfy` (module `Quorums`): the vote counter, and lemmas that its callback fires
  at most once, fires once the tallies are decided, and reports "elected" exactly when
  the successes reach the threshold before the failures do.
- `follower.dfy` (module `Follower`): the data of a round, the pure pieces (election delay,
  last log term, term adoption, reply classification, the fan-out loop) and the class
  `FollowerState` with its object invariant `Valid()`. The invariant keeps these facts:
  - every pending scheduler task is the one the `heartbeatTimer` field names, so at most one timer is pending;
  - every request in the outbox carries its round's request;
  - no round counts more replies than it has received.
- `scenarios.dfy` (module `FollowerScenarios`): whole event sequences from a fresh follower, each with
  the outcome it ends in.

Behaviour the model keeps as the code has it:

- The "different term" check at FollowerState.java:161 compares the response term with the
  current term after the adoption at :154-156, not with the term that was sent. An
  accepted response with a higher term is therefore adopted and counted as a success
  (`Classify`, `HigherTermAcceptElects`). A reply carrying the sent term fails once another
  reply has raised the local term.
- The poll deadline (:96-99) only resets the heartbeat timer. It does not mark the round
  complete, so later replies still reach the abandoned round's counter and can still
  request CANDIDATE (`AbandonedRoundStillElects`).
- `cancelHeartbeatTimeout` (:214-219) cancels the task but leaves the field pointing at it.

Assumptions about the vote counter. The `Quorum` class is not part of this model; only its
use at :111-119 and :152-166 is. The counter is modelled as follows:

- Its constructor receives only the threshold and the callback, so it cannot know how many
  members will answer. "Not elected" therefore fires when the failures reach the
  threshold.
- The local member counts as the first success. With this, a five-member cluster with
  threshold 3 is elected after two accepts.
- Each `succeed()`/`fail()` first bumps its counter, then checks successes before failures.
  It fires only while the counter is not complete, and firing marks it complete.

## Model

| member | source | states |
|---|---|---|
| `Quorums.Create` | server/src/main/java/io/atomix/copycat/server/state/FollowerState.java:111 | a fresh counter has the cluster's threshold, is undecided, and already counts the local member's vote as one success and no failure (an assumption about the counter, see above) |
| `Quorums.Record` | server/src/main/java/io/atomix/copycat/server/state/FollowerState.java:150-167 | one `succeed()`/`fail()` bumps exactly one tally; the callback fires exactly when an incomplete counter first has successes or failures at the threshold, "elected" only with successes at the threshold, "not elected" only with successes below it; the counter is complete afterwards exactly when it was before or it fired |
| `Quorums.FiresAtMostOnce` | server/src/main/java/io/atomix/copycat/server/state/FollowerState.java:111-119 | for any sequence of calls the resolution callback fires at most once, never after the counter is complete, and the counter ends complete exactly when it fired |
| `Quorums.ElectedIffSuccessFirst` | server/src/main/java/io/atomix/copycat/server/state/FollowerState.java:111-119 | for any order of replies the callback reports elected iff successes reach the threshold at some point before failures have, not elected iff failures reach it first, and nothing iff neither happens |
| `Quorums.DecidedFiresOnce` | server/src/main/java/io/atomix/copycat/server/state/FollowerState.java:111-119 | once the tallies of a fresh counter reach the threshold, the callback has fired exactly once |
| `Follower.ElectionDelay` | server/src/main/java/io/atomix/copycat/server/state/FollowerState.java:78-80 | the heartbeat delay is the election timeout plus a jitter below it, so it lies in [T, 2T) |
| `Follower.LastLogTerm` | server/src/main/java/io/atomix/copycat/server/state/FollowerState.java:121-132 | last index 0 gives last term 0 without regard to the log; a non-zero last index whose entry is held gives that entry's term; an entry no longer held gives 0; a non-zero last term is always the term of the entry held at the last index |
| `Follower.LastLogTermReadsOnlyLastEntry` | server/src/main/java/io/atomix/copycat/server/state/FollowerState.java:123-132 | the last term depends on nothing but the entry at the last index, and on no entry at all when the last index is 0 |
| `Follower.AdoptTerm` | server/src/main/java/io/atomix/copycat/server/state/FollowerState.java:154-156 | the term after a reply is the larger of the local and the response term: it never decreases, and only a response can raise it |
| `Follower.Classify` | server/src/main/java/io/atomix/copycat/server/state/FollowerState.java:150-167 | a reply is a success iff it is not an error, is accepted and its term is at least the local term (equal to the term after adoption); everything else is a failure |
| `Follower.PollMembers` | server/src/main/java/io/atomix/copycat/server/state/FollowerState.java:138-145 | the loop sends exactly one request to each voting member and to no one else, and every request carries the same term, candidate, last index and last term |
| `Follower.FollowerState.AtMostOneTimer` | server/src/main/java/io/atomix/copycat/server/state/FollowerState.java:73-82 | in every valid state at most one scheduler task of the follower is pending |
| `Follower.FollowerState.constructor` | server/src/main/java/io/atomix/copycat/server/state/FollowerState.java:42-45 | a new follower is closed, has no timer, no round and no request, and has the context's term and leader |
| `Follower.FollowerState.Schedule` | server/src/main/java/io/atomix/copycat/server/state/FollowerState.java:81-96 | with no task pending, scheduling a task makes it the only pending task, named by the `heartbeatTimer` field under a fresh id |
| `Follower.FollowerState.ResetHeartbeatTimeout` | server/src/main/java/io/atomix/copycat/server/state/FollowerState.java:68-89 | closed: nothing changes; open: the pending timer is cancelled and the only pending task is a new heartbeat with delay T + jitter, named by the field; nothing else changes |
| `Follower.FollowerState.Open` | server/src/main/java/io/atomix/copycat/server/state/FollowerState.java:52-63 | the state is open and a heartbeat timer is the only pending task |
| `Follower.FollowerState.HeartbeatFired` | server/src/main/java/io/atomix/copycat/server/state/FollowerState.java:81-88 | the fired task leaves the scheduler; closed: the field is cleared and nothing else changes; open: the leader is 0 and a poll round has started (see `SendPollRequests`) |
| `Follower.FollowerState.SendPollRequests` | server/src/main/java/io/atomix/copycat/server/state/FollowerState.java:94-173 | the poll deadline (delay T) is the only pending task; no voting member: CANDIDATE is requested, no round and no request; otherwise a round with a fresh counter is added and every member is sent the same request built from the current term and the last log index and term |
| `Follower.FollowerState.PollDeadlineFired` | server/src/main/java/io/atomix/copycat/server/state/FollowerState.java:96-99 | the heartbeat timer is reset (when open) and every round, including the abandoned one, is left as it was |
| `Follower.FollowerState.QuorumResolved` | server/src/main/java/io/atomix/copycat/server/state/FollowerState.java:111-119 | the round becomes complete; elected: CANDIDATE is requested and the timer is untouched; not elected: the heartbeat timer is reset |
| `Follower.FollowerState.PollReplied` | server/src/main/java/io/atomix/copycat/server/state/FollowerState.java:146-170 | the reply settles its member; when closed or the round is complete nothing else changes; otherwise the term becomes the adopted term, the counter records `Classify`'s verdict, and the round completes, requests CANDIDATE or re-arms the timer exactly as the counter fired; the term never decreases; only a lost round touches the timer |
| `Follower.FollowerState.CountReply` | server/src/main/java/io/atomix/copycat/server/state/FollowerState.java:149-168 | the live branch of the reply handler: term adoption, one counter step, and the callback's effect |
| `Follower.FollowerState.AdoptAndClassify` | server/src/main/java/io/atomix/copycat/server/state/FollowerState.java:150-167 | the term becomes `AdoptTerm` of the reply and the verdict is `Classify` against the term before adoption |
| `Follower.FollowerState.Install` | server/src/main/java/io/atomix/copycat/server/state/FollowerState.java:175-180 | the heartbeat timer is reset as by `ResetHeartbeatTimeout` |
| `Follower.FollowerState.Configure` | server/src/main/java/io/atomix/copycat/server/state/FollowerState.java:182-187 | the heartbeat timer is reset as by `ResetHeartbeatTimeout` |
| `Follower.FollowerState.Append` | server/src/main/java/io/atomix/copycat/server/state/FollowerState.java:189-199 | the heartbeat timer is reset as by `ResetHeartbeatTimeout` |
| `Follower.FollowerState.HandleVote` | server/src/main/java/io/atomix/copycat/server/state/FollowerState.java:201-209 | the timer is reset only when the vote was granted; otherwise nothing changes |
| `Follower.FollowerState.CancelHeartbeatTimeout` | server/src/main/java/io/atomix/copycat/server/state/FollowerState.java:214-219 | no task is pending afterwards; the field is left as it was |
| `Follower.FollowerState.Close` | server/src/main/java/io/atomix/copycat/server/state/FollowerState.java:221-224 | the state is closed and no timer is pending; term, leader, rounds and requests are unchanged |
| `FollowerScenarios.FiveMemberRound` | server/src/main/java/io/atomix/copycat/server/state/FollowerState.java:138-168 | four polled members, threshold 3: two accepts request CANDIDATE, and a later reject is ignored |
| `FollowerScenarios.ThreeMemberRejections` | server/src/main/java/io/atomix/copycat/server/state/FollowerState.java:111-119 | two polled members, threshold 2: a rejection and a transport error lose the round and re-arm the heartbeat timer |
| `FollowerScenarios.LoneMember` | server/src/main/java/io/atomix/copycat/server/state/FollowerState.java:105-109 | with no voting member, CANDIDATE is requested and no round or request exists |
| `FollowerScenarios.AbandonedRoundStillElects` | server/src/main/java/io/atomix/copycat/server/state/FollowerState.java:94-119 | after the poll deadline has re-armed the heartbeat timer, an accept still elects through the abandoned round |
| `FollowerScenarios.HigherTermAcceptElects` | server/src/main/java/io/atomix/copycat/server/state/FollowerState.java:154-166 | an accepted reply with a higher term is adopted and counts as a success |
| `FollowerScenarios.ClosedIgnoresReplies` | server/src/main/java/io/atomix/copycat/server/state/FollowerState.java:149 | after close, a reply adopts no term and requests no transition |

## Left out

- The `Quorum` class is not part of this model. Its behaviour is the assumed contract
  stated above, not something checked against its code.
- Futures, `getConnection`/`send` and the executor hand-off are not modelled; each
  callback is one event. A connection that cannot be obtained never produces a reply, so
  it is never counted. In the model that member simply stays in flight.
- `java.util.Random` and `Duration` are replaced by a `jitter` parameter with
  `0 <= jitter < T`. The `(int)` cast of the timeout in milliseconds is not modelled.
  `nextInt` rejects a zero bound, so the constructor requires `T > 0`.
- Logging is not modelled. This includes the "next term" in the message at :139, which
  is not what is sent.
- `ActiveState`'s `install`, `configure`, `append` and `handleVote` are not part of this
  model. Their effect on the log, term and leader is not modelled, and the vote result
  is an input.
- `FollowerAppender` (its `appendEntries` at :197 and `close` at :223) is not part of this model.
- `ServerContext.setTerm`, `setLeader` and `transition` are recorded as field updates and
  requests. Their side effects elsewhere in the server are not modelled. In particular, a
  requested transition does not close the follower by itself.
- Follower.FollowerState.HeartbeatFired and Follower.FollowerState.SendPollRequests take the
  voting set (`getActiveMemberStates()`, :103) and the threshold (`getQuorum()`, :111) as two
  unrelated parameters. In the server both come from the same cluster state, which is not
  part of this model. The model therefore accepts any threshold. With threshold 0 or 1, the
  first reply, even a rejection, elects: the local vote already meets the threshold.
- Follower.FollowerState.Close performs `super.close()` and `cancelHeartbeatTimeout` as one
  event, while the code chains them through futures (:223). The model therefore never
  reaches a closed follower whose timer is still pending. The closed branches of
  `HeartbeatFired` and `PollDeadlineFired` (the `isOpen()` check at :83 and the `isClosed()`
  check at :70 that the deadline reaches through `resetHeartbeatTimeout`, :97) are proved for every valid state, but no event sequence of the
  model produces a state that takes them.
- Terms are unbounded naturals; Java `long` overflow is not modelled.
- `Entry.close()`, `synchronized` and `checkThread()` are not modelled (resource and thread discipline only).
