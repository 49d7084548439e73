/**
 * The follower role of a Copycat server (FollowerState).
 *
 * A follower keeps one election timer.  When it fires, the follower forgets
 * its leader and polls every active voting member with a non-binding
 * pre-vote; a fresh vote counter (module Quorums) decides the round, and a
 * won round asks the server context to move to CANDIDATE while a lost one
 * re-arms the timer.  Any install, configure or append request, and any vote
 * the server grants, re-arms the timer.
 *
 * Every handler runs on the server's single thread context, so each callback
 * is one event here: a method of FollowerState.  The scheduler is modelled by
 * the map of tasks it still has to run; the server context by the term, the
 * leader hint and the list of role transitions requested so far; the
 * transport by an outbox of poll requests and, per round, the members whose
 * answer is still in flight.
 */
module Follower {
  import opened Quorums

  datatype Option<T> = None | Some(value: T)

  type MemberId = nat

  /** The role a follower can ask the server context to move to. */
  datatype Role = Candidate

  /** A callback the scheduler still has to run, and the delay it was scheduled with (ms). */
  datatype Task = HeartbeatTask(delay: nat) | PollDeadlineTask(delay: nat)

  /** What the follower sees of the log: its last index and the term of each entry still held. */
  datatype Log = Log(lastIndex: nat, terms: map<nat, nat>)

  datatype PollRequest = PollRequest(term: nat, candidate: int, logIndex: nat, logTerm: nat)

  /** How a poll request completed: with a transport error or with a response. */
  datatype PollReply = SendError | PollResponse(term: nat, accepted: bool)

  datatype Message = Message(round: nat, to: MemberId, request: PollRequest)

  /**
   * One poll round: the request every member was sent, the voting members
   * polled, those whose reply has not arrived yet, the round's vote counter
   * and its `complete` flag, which the counter's callback sets.
   */
  datatype Round = Round(request: PollRequest, members: set<MemberId>, inFlight: set<MemberId>,
                         quorum: Quorum, complete: bool)
  {
    ghost predicate Valid()
    {
      && inFlight <= members
      && (complete ==> quorum.complete)
      // every member is counted at most once: the local vote plus one per settled reply
      && quorum.succeeded + quorum.failed <= 1 + |members - inFlight|
    }
  }

  /** The election delay: the base timeout plus a jitter drawn below it. */
  function ElectionDelay(timeout: nat, jitter: nat): (delay: nat)
    requires jitter < timeout
    ensures timeout <= delay < 2 * timeout
  {
    timeout + jitter
  }

  /**
   * The term of the last log entry, sent with every poll: an empty log
   * (last index 0) is not read at all, and an entry that is no longer held
   * counts as term 0.
   */
  function LastLogTerm(log: Log): (t: nat)
    ensures log.lastIndex == 0 ==> t == 0
    ensures t != 0 ==> log.lastIndex in log.terms && t == log.terms[log.lastIndex]
    ensures log.lastIndex > 0 && log.lastIndex in log.terms ==> t == log.terms[log.lastIndex]
    ensures log.lastIndex !in log.terms ==> t == 0
  {
    if log.lastIndex > 0 && log.lastIndex in log.terms then log.terms[log.lastIndex] else 0
  }

  /** The term only depends on the entry at the last index, and on nothing when the log is empty. */
  lemma LastLogTermReadsOnlyLastEntry(a: Log, b: Log)
    requires a.lastIndex == b.lastIndex
    requires a.lastIndex > 0 ==> (a.lastIndex in a.terms <==> b.lastIndex in b.terms)
    requires a.lastIndex > 0 && a.lastIndex in a.terms ==> a.terms[a.lastIndex] == b.terms[b.lastIndex]
    ensures LastLogTerm(a) == LastLogTerm(b)
  {
  }

  /** The local term after a reply: a higher response term is adopted, nothing else changes it. */
  function AdoptTerm(localTerm: nat, reply: PollReply): (t: nat)
    ensures t >= localTerm
    ensures reply.PollResponse? ==> t >= reply.term
    ensures t == localTerm || (reply.PollResponse? && t == reply.term)
  {
    if reply.PollResponse? && reply.term > localTerm then reply.term else localTerm
  }

  /**
   * Whether a reply counts as a success: not an error, accepted, and carrying
   * the current term as it stands after adoption.  Because the comparison is
   * with the adopted term, an accepted response with a higher term succeeds.
   */
  function Classify(reply: PollReply, localTerm: nat): (success: bool)
    ensures success <==> reply.PollResponse? && reply.accepted && reply.term >= localTerm
  {
    match reply
    case SendError => false
    case PollResponse(t, accepted) =>
      var current := AdoptTerm(localTerm, reply);
      if !accepted then false
      else if t != current then false
      else true
  }

  /** The poll requests of one round: one per recipient, each carrying the round's request. */
  ghost predicate Broadcast(msgs: seq<Message>, round: nat, to: set<MemberId>, request: PollRequest)
  {
    && |msgs| == |to|
    && (forall i :: 0 <= i < |msgs| ==> msgs[i].round == round && msgs[i].request == request && msgs[i].to in to)
    && (forall i, j :: 0 <= i < j < |msgs| ==> msgs[i].to != msgs[j].to)
    && (forall m :: m in to ==> exists i :: 0 <= i < |msgs| && msgs[i].to == m)
  }

  /** Sending one more member a request keeps the round's requests a broadcast. */
  lemma BroadcastExtend(msgs: seq<Message>, round: nat, to: set<MemberId>, request: PollRequest, member: MemberId)
    requires Broadcast(msgs, round, to, request) && member !in to
    ensures Broadcast(msgs + [Message(round, member, request)], round, to + {member}, request)
  {
    var longer := msgs + [Message(round, member, request)];
    forall m | m in to + {member} ensures exists i :: 0 <= i < |longer| && longer[i].to == m {
      if m == member {
        assert longer[|msgs|].to == m;
      } else {
        var i :| 0 <= i < |msgs| && msgs[i].to == m;
        assert longer[i].to == m;
      }
    }
  }

  /**
   * The fan-out loop of a poll round: a request to every voting member, each
   * built from the same term, candidate, last index and last term.
   */
  method PollMembers(round: nat, members: set<MemberId>, term: nat, candidate: int,
                     lastIndex: nat, lastTerm: nat)
    returns (msgs: seq<Message>)
    ensures Broadcast(msgs, round, members, PollRequest(term, candidate, lastIndex, lastTerm))
  {
    msgs := [];
    var remaining := members;
    ghost var polled: set<MemberId> := {};
    while remaining != {}
      invariant remaining <= members && polled == members - remaining
      invariant Broadcast(msgs, round, polled, PollRequest(term, candidate, lastIndex, lastTerm))
      decreases remaining
    {
      var member :| member in remaining;
      var request := PollRequest(term, candidate, lastIndex, lastTerm);
      BroadcastExtend(msgs, round, polled, request, member);
      msgs := msgs + [Message(round, member, request)];
      remaining := remaining - {member};
      polled := polled + {member};
    }
  }

  lemma SettleOne(members: set<MemberId>, inFlight: set<MemberId>, m: MemberId)
    requires inFlight <= members && m in inFlight
    ensures |members - (inFlight - {m})| == |members - inFlight| + 1
  {
    assert members - (inFlight - {m}) == (members - inFlight) + {m};
  }

  class FollowerState {
    const electionTimeout: nat
    /** The identity sent as the candidate of every poll request. */
    const localId: int

    var open: bool
    /** The `heartbeatTimer` field: the last task the follower scheduled, if any. */
    var heartbeatTimer: Option<nat>
    /** The scheduler's pending tasks, by id, and the next id it hands out. */
    var scheduled: map<nat, Task>
    var nextTask: nat

    // the server context
    var term: nat
    var leader: int
    var transitions: seq<Role>

    // the poll rounds started so far, by round number, and the requests sent
    var rounds: seq<Round>
    var outbox: seq<Message>

    ghost predicate Valid()
      reads this
    {
      && electionTimeout > 0
      // the only task that can be pending is the one the timer field names
      && (forall id :: id in scheduled ==> heartbeatTimer == Some(id) && id < nextTask)
      && (forall k :: 0 <= k < |rounds| ==> rounds[k].Valid())
      && (forall i :: 0 <= i < |outbox| ==>
            outbox[i].round < |rounds| &&
            outbox[i].to in rounds[outbox[i].round].members &&
            outbox[i].request == rounds[outbox[i].round].request)
    }

    /** Exactly one task pending: `task`, under the id the field names. */
    ghost predicate ArmedWith(id: nat, task: Task)
      reads this
    {
      scheduled == map[id := task] && heartbeatTimer == Some(id) && nextTask == id + 1
    }

    /** At most one timer is ever pending. */
    lemma AtMostOneTimer()
      requires Valid()
      ensures |scheduled| <= 1
    {
      if heartbeatTimer.Some? && heartbeatTimer.value in scheduled {
        assert scheduled.Keys == {heartbeatTimer.value};
      } else {
        assert scheduled.Keys == {};
      }
    }

    constructor (electionTimeout: nat, localId: int, term: nat, leader: int)
      requires electionTimeout > 0
      ensures Valid() && !open
      ensures this.electionTimeout == electionTimeout && this.localId == localId
      ensures heartbeatTimer == None && scheduled == map[] && nextTask == 0
      ensures this.term == term && this.leader == leader && transitions == []
      ensures rounds == [] && outbox == []
    {
      this.electionTimeout := electionTimeout;
      this.localId := localId;
      open := false;
      heartbeatTimer := None;
      scheduled := map[];
      nextTask := 0;
      this.term := term;
      this.leader := leader;
      transitions := [];
      rounds := [];
      outbox := [];
    }

    /** Schedules `task` after cancelling nothing: the caller has cleared or cancelled the slot. */
    method Schedule(task: Task)
      requires Valid() && scheduled == map[]
      modifies this`scheduled, this`nextTask, this`heartbeatTimer
      ensures Valid() && ArmedWith(old(nextTask), task)
    {
      scheduled := scheduled[nextTask := task];
      heartbeatTimer := Some(nextTask);
      nextTask := nextTask + 1;
    }

    /**
     * resetHeartbeatTimeout: a no-op once closed; otherwise cancels the
     * pending timer and schedules a heartbeat after the jittered delay.
     */
    method ResetHeartbeatTimeout(jitter: nat)
      requires Valid() && jitter < electionTimeout
      modifies this
      ensures Valid()
      ensures !old(open) ==> unchanged(this)
      ensures old(open) ==> ArmedWith(old(nextTask), HeartbeatTask(ElectionDelay(electionTimeout, jitter)))
      ensures unchanged(this`open, this`term, this`leader, this`transitions, this`rounds, this`outbox)
    {
      if !open {
        return;
      }
      if heartbeatTimer.Some? {
        scheduled := scheduled - {heartbeatTimer.value};
      }
      assert scheduled == map[] by {
        assert forall id :: id !in scheduled;
      }
      Schedule(HeartbeatTask(ElectionDelay(electionTimeout, jitter)));
    }

    /** open: the state opens, then starts the heartbeat timer. */
    method Open(jitter: nat)
      requires Valid() && jitter < electionTimeout
      modifies this
      ensures Valid() && open
      ensures ArmedWith(old(nextTask), HeartbeatTask(ElectionDelay(electionTimeout, jitter)))
      ensures unchanged(this`term, this`leader, this`transitions, this`rounds, this`outbox)
    {
      open := true;
      ResetHeartbeatTimeout(jitter);
    }

    /**
     * The heartbeat task runs: the slot is cleared; if the state is still
     * open the leader is forgotten and a poll round starts.
     */
    method HeartbeatFired(id: nat, members: set<MemberId>, quorumSize: nat, log: Log)
      requires Valid() && id in scheduled && scheduled[id].HeartbeatTask?
      modifies this
      ensures Valid()
      ensures unchanged(this`open, this`term)
      ensures !old(open) ==> scheduled == map[] && heartbeatTimer == None
      ensures !old(open) ==> unchanged(this`nextTask, this`leader, this`transitions, this`rounds, this`outbox)
      ensures old(open) ==> leader == 0 && PollStarted(old(nextTask), old(transitions), old(rounds), old(outbox),
                                                        members, quorumSize, log)
    {
      scheduled := scheduled - {id};
      heartbeatTimer := None;
      assert scheduled == map[] by {
        assert forall k :: k !in scheduled;
      }
      if open {
        leader := 0;
        SendPollRequests(members, quorumSize, log);
      }
    }

    /**
     * What sendPollRequests leaves behind: the poll deadline is the one
     * pending task; an empty voting set asks for CANDIDATE and starts no
     * round; otherwise a round with a fresh counter is added and every
     * member is sent the same request.
     */
    ghost predicate PollStarted(task: nat, transitions0: seq<Role>, rounds0: seq<Round>, outbox0: seq<Message>,
                                members: set<MemberId>, quorumSize: nat, log: Log)
      reads this
    {
      var request := PollRequest(term, localId, log.lastIndex, LastLogTerm(log));
      && ArmedWith(task, PollDeadlineTask(electionTimeout))
      && (members == {} ==> transitions == transitions0 + [Candidate] && rounds == rounds0 && outbox == outbox0)
      && (members != {} ==>
            && transitions == transitions0
            && rounds == rounds0 + [Round(request, members, members, Create(quorumSize), false)]
            && |outbox| >= |outbox0| && outbox[..|outbox0|] == outbox0
            && Broadcast(outbox[|outbox0|..], |rounds0|, members, request))
    }

    /** sendPollRequests. */
    method SendPollRequests(members: set<MemberId>, quorumSize: nat, log: Log)
      requires Valid() && scheduled == map[]
      modifies this
      ensures Valid()
      ensures unchanged(this`open, this`term, this`leader)
      ensures PollStarted(old(nextTask), old(transitions), old(rounds), old(outbox), members, quorumSize, log)
    {
      Schedule(PollDeadlineTask(electionTimeout));
      if members == {} {
        transitions := transitions + [Candidate];
        return;
      }
      var lastTerm := LastLogTerm(log);
      var request := PollRequest(term, localId, log.lastIndex, lastTerm);
      var k := |rounds|;
      rounds := rounds + [Round(request, members, members, Create(quorumSize), false)];
      var msgs := PollMembers(k, members, term, localId, log.lastIndex, lastTerm);
      ghost var before := outbox;
      outbox := outbox + msgs;
      assert outbox[..|before|] == before;
      assert outbox[|before|..] == msgs;
      forall i | 0 <= i < |outbox|
        ensures outbox[i].round < |rounds| && outbox[i].to in rounds[outbox[i].round].members
        ensures outbox[i].request == rounds[outbox[i].round].request
      {
        if i >= |before| {
          assert outbox[i] == msgs[i - |before|];
        } else {
          assert outbox[i] == before[i];
        }
      }
      assert rounds[k].Valid();
    }

    /** The poll deadline runs: the heartbeat timer is reset; the round itself is left as it is. */
    method PollDeadlineFired(id: nat, jitter: nat)
      requires Valid() && id in scheduled && scheduled[id].PollDeadlineTask?
      requires jitter < electionTimeout
      modifies this
      ensures Valid()
      ensures unchanged(this`open, this`term, this`leader, this`transitions, this`rounds, this`outbox)
      ensures old(open) ==> ArmedWith(old(nextTask), HeartbeatTask(ElectionDelay(electionTimeout, jitter)))
      ensures !old(open) ==> scheduled == map[] && unchanged(this`heartbeatTimer, this`nextTask)
    {
      scheduled := scheduled - {id};
      assert scheduled == map[] by {
        assert forall k :: k !in scheduled;
      }
      ResetHeartbeatTimeout(jitter);
    }

    /** The counter of round `k` has fired: the round is complete; then CANDIDATE or a new timer. */
    method QuorumResolved(k: nat, elected: bool, jitter: nat)
      requires Valid() && k < |rounds| && rounds[k].quorum.complete && jitter < electionTimeout
      modifies this
      ensures Valid()
      ensures rounds == old(rounds)[k := old(rounds[k]).(complete := true)]
      ensures unchanged(this`open, this`term, this`leader, this`outbox)
      ensures elected ==> transitions == old(transitions) + [Candidate]
      ensures elected ==> unchanged(this`scheduled, this`heartbeatTimer, this`nextTask)
      ensures !elected ==> transitions == old(transitions)
      ensures !elected && old(open) ==>
                ArmedWith(old(nextTask), HeartbeatTask(ElectionDelay(electionTimeout, jitter)))
      ensures !elected && !old(open) ==> unchanged(this`scheduled, this`heartbeatTimer, this`nextTask)
    {
      rounds := rounds[k := rounds[k].(complete := true)];
      assert forall j :: 0 <= j < |rounds| ==> rounds[j].members == old(rounds[j].members);
      if elected {
        transitions := transitions + [Candidate];
      } else {
        ResetHeartbeatTimeout(jitter);
      }
    }

    /**
     * The reply of `member` to the poll of round `k` arrives.  It is ignored
     * when the state is closed or the round complete; otherwise it is counted
     * (CountReply).
     */
    method PollReplied(k: nat, member: MemberId, reply: PollReply, jitter: nat)
      requires Valid() && k < |rounds| && member in rounds[k].inFlight
      requires jitter < electionTimeout
      modifies this
      ensures Valid()
      ensures |rounds| == |old(rounds)|
      ensures forall j :: 0 <= j < |rounds| && j != k ==> rounds[j] == old(rounds[j])
      ensures rounds[k].request == old(rounds[k].request) && rounds[k].members == old(rounds[k].members)
      ensures rounds[k].inFlight == old(rounds[k].inFlight) - {member}
      ensures unchanged(this`open, this`leader, this`outbox)
      ensures term >= old(term)
      // stale replies change nothing else
      ensures !old(open) || old(rounds[k].complete) ==>
                && unchanged(this`term, this`transitions)
                && rounds[k].quorum == old(rounds[k].quorum) && rounds[k].complete == old(rounds[k].complete)
      ensures old(open) && !old(rounds[k].complete) ==>
                ReplyCounted(k, reply, jitter, old(term), old(rounds[k].quorum), old(transitions), old(nextTask))
      // only a lost round touches the timer
      ensures !(old(open) && !old(rounds[k].complete) &&
                Record(old(rounds[k].quorum), Classify(reply, old(term))).resolution == Resolved(false)) ==>
                unchanged(this`scheduled, this`heartbeatTimer, this`nextTask)
    {
      var r := rounds[k];
      SettleOne(r.members, r.inFlight, member);
      rounds := rounds[k := r.(inFlight := r.inFlight - {member})];
      assert rounds[k].Valid();
      if !open || r.complete {
        return;
      }
      CountReply(k, reply, jitter);
    }

    /**
     * What counting a reply leaves behind: the adopted term, the counter
     * after one success or failure, the round complete exactly when the
     * counter fired, CANDIDATE requested when it fired `elected`, and a new
     * heartbeat timer when it fired `not elected`.
     */
    ghost predicate ReplyCounted(k: nat, reply: PollReply, jitter: nat, term0: nat, quorum0: Quorum,
                                 transitions0: seq<Role>, nextTask0: nat)
      requires k < |rounds| && jitter < electionTimeout
      reads this
    {
      var step := Record(quorum0, Classify(reply, term0));
      && term == AdoptTerm(term0, reply)
      && rounds[k].quorum == step.quorum
      && rounds[k].complete == step.resolution.Resolved?
      && transitions == transitions0 + (if step.resolution == Resolved(true) then [Candidate] else [])
      && (step.resolution == Resolved(false) ==>
            ArmedWith(nextTask0, HeartbeatTask(ElectionDelay(electionTimeout, jitter))))
    }

    /** The live branch of the reply handler. */
    method CountReply(k: nat, reply: PollReply, jitter: nat)
      requires Valid() && k < |rounds| && open && !rounds[k].complete
      requires jitter < electionTimeout
      requires rounds[k].quorum.succeeded + rounds[k].quorum.failed < 1 + |rounds[k].members - rounds[k].inFlight|
      modifies this
      ensures Valid()
      ensures |rounds| == |old(rounds)|
      ensures forall j :: 0 <= j < |rounds| && j != k ==> rounds[j] == old(rounds[j])
      ensures rounds[k].request == old(rounds[k].request) && rounds[k].members == old(rounds[k].members)
      ensures rounds[k].inFlight == old(rounds[k].inFlight)
      ensures unchanged(this`open, this`leader, this`outbox)
      ensures ReplyCounted(k, reply, jitter, old(term), old(rounds[k].quorum), old(transitions), old(nextTask))
      ensures Record(old(rounds[k].quorum), Classify(reply, old(term))).resolution != Resolved(false) ==>
                unchanged(this`scheduled, this`heartbeatTimer, this`nextTask)
    {
      var success := AdoptAndClassify(reply);
      var r := rounds[k];
      var step := Record(r.quorum, success);
      rounds := rounds[k := r.(quorum := step.quorum)];
      assert rounds[k].Valid();
      if step.resolution.Resolved? {
        QuorumResolved(k, step.resolution.elected, jitter);
      }
    }

    /** Adopts a higher response term, then classifies the reply against the current term. */
    method AdoptAndClassify(reply: PollReply) returns (success: bool)
      modifies this`term
      ensures term == AdoptTerm(old(term), reply)
      ensures success == Classify(reply, old(term))
    {
      match reply {
        case SendError =>
          success := false;
        case PollResponse(t, accepted) =>
          if t > term {
            term := t;
          }
          if !accepted {
            success := false;
          } else if t != term {
            success := false;
          } else {
            success := true;
          }
      }
    }

    /** install: the leader sent a snapshot; the heartbeat timer is reset. */
    method Install(jitter: nat)
      requires Valid() && jitter < electionTimeout
      modifies this
      ensures Valid()
      ensures !old(open) ==> unchanged(this)
      ensures old(open) ==> ArmedWith(old(nextTask), HeartbeatTask(ElectionDelay(electionTimeout, jitter)))
      ensures unchanged(this`open, this`term, this`leader, this`transitions, this`rounds, this`outbox)
    {
      ResetHeartbeatTimeout(jitter);
    }

    /** configure: the leader sent a configuration; the heartbeat timer is reset. */
    method Configure(jitter: nat)
      requires Valid() && jitter < electionTimeout
      modifies this
      ensures Valid()
      ensures !old(open) ==> unchanged(this)
      ensures old(open) ==> ArmedWith(old(nextTask), HeartbeatTask(ElectionDelay(electionTimeout, jitter)))
      ensures unchanged(this`open, this`term, this`leader, this`transitions, this`rounds, this`outbox)
    {
      ResetHeartbeatTimeout(jitter);
    }

    /** append: the leader sent entries; the heartbeat timer is reset. */
    method Append(jitter: nat)
      requires Valid() && jitter < electionTimeout
      modifies this
      ensures Valid()
      ensures !old(open) ==> unchanged(this)
      ensures old(open) ==> ArmedWith(old(nextTask), HeartbeatTask(ElectionDelay(electionTimeout, jitter)))
      ensures unchanged(this`open, this`term, this`leader, this`transitions, this`rounds, this`outbox)
    {
      ResetHeartbeatTimeout(jitter);
    }

    /** handleVote: the timer is reset only when the vote was granted. */
    method HandleVote(voted: bool, jitter: nat)
      requires Valid() && jitter < electionTimeout
      modifies this
      ensures Valid()
      ensures !voted || !old(open) ==> unchanged(this)
      ensures voted && old(open) ==>
                ArmedWith(old(nextTask), HeartbeatTask(ElectionDelay(electionTimeout, jitter)))
      ensures unchanged(this`open, this`term, this`leader, this`transitions, this`rounds, this`outbox)
    {
      if voted {
        ResetHeartbeatTimeout(jitter);
      }
    }

    /** cancelHeartbeatTimeout: the pending task is cancelled; the field keeps its (dead) handle. */
    method CancelHeartbeatTimeout()
      requires Valid()
      modifies this`scheduled
      ensures Valid() && scheduled == map[]
    {
      if heartbeatTimer.Some? {
        scheduled := scheduled - {heartbeatTimer.value};
      }
      assert scheduled == map[] by {
        assert forall id :: id !in scheduled;
      }
    }

    /** close: the state closes and the pending timer is cancelled. */
    method Close()
      requires Valid()
      modifies this
      ensures Valid() && !open && scheduled == map[]
      ensures unchanged(this`heartbeatTimer, this`nextTask, this`term, this`leader, this`transitions,
                        this`rounds, this`outbox)
    {
      open := false;
      CancelHeartbeatTimeout();
    }
  }
}
