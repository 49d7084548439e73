/**
 * Event sequences that take the follower through whole poll rounds, each from a fresh
 * open follower (election timeout 100 ms, local term 3, last log entry 5 of
 * term 3).  Each method returns the follower it drove, and its postcondition
 * says what the sequence ends in.
 */
module FollowerScenarios {
  import opened Quorums
  import opened Follower

  /** A follower whose heartbeat timer has fired and polled `members`, with the given threshold. */
  method PollingFollower(members: set<MemberId>, quorumSize: nat) returns (f: FollowerState)
    ensures fresh(f) && f.Valid() && f.open && f.term == 3 && f.leader == 0
    ensures f.electionTimeout == 100
    ensures members == {} ==> f.transitions == [Candidate] && f.rounds == [] && f.outbox == []
    ensures members != {} ==>
              && f.transitions == []
              && f.rounds == [Round(PollRequest(3, 7, 5, 3), members, members, Create(quorumSize), false)]
    ensures f.ArmedWith(1, PollDeadlineTask(100))
  {
    f := new FollowerState(100, 7, 3, 2);
    f.Open(0);
    f.HeartbeatFired(0, members, quorumSize, Log(5, map[5 := 3]));
  }

  /**
   * Five-member cluster, threshold 3: two accepts elect (with the local
   * vote), and the reject that arrives afterwards is ignored.
   */
  method FiveMemberRound() returns (f: FollowerState)
    ensures f.transitions == [Candidate]
    ensures |f.rounds| == 1 && f.rounds[0].complete && f.rounds[0].quorum.succeeded == 3 && f.rounds[0].quorum.failed == 0
    ensures f.term == 3
  {
    f := PollingFollower({1, 2, 3, 4}, 3);
    f.PollReplied(0, 1, PollResponse(3, true), 0);
    assert f.transitions == [];
    f.PollReplied(0, 2, PollResponse(3, true), 0);
    assert f.transitions == [Candidate];
    f.PollReplied(0, 3, PollResponse(3, false), 0);
  }

  /**
   * Three-member cluster (two others), threshold 2: two rejections lose the
   * round, and the heartbeat timer is armed again.
   */
  method ThreeMemberRejections() returns (f: FollowerState)
    ensures f.transitions == [] && |f.rounds| == 1 && f.rounds[0].complete
    ensures f.ArmedWith(2, HeartbeatTask(150))
  {
    f := PollingFollower({1, 2}, 2);
    f.PollReplied(0, 1, PollResponse(3, false), 0);
    assert !f.rounds[0].complete;
    f.PollReplied(0, 2, SendError, 50);
  }

  /** No voting member to poll: CANDIDATE at once, and no round is started. */
  method LoneMember() returns (f: FollowerState)
    ensures f.transitions == [Candidate] && f.rounds == [] && f.outbox == []
  {
    f := PollingFollower({}, 1);
  }

  /**
   * The poll deadline fires before any reply: the timer is re-armed but the
   * round is not marked complete, so a later accept still elects, while the
   * new heartbeat timer stays pending.
   */
  method AbandonedRoundStillElects() returns (f: FollowerState)
    ensures f.transitions == [Candidate]
    ensures f.ArmedWith(2, HeartbeatTask(100))
  {
    f := PollingFollower({1, 2}, 2);
    f.PollDeadlineFired(1, 0);
    f.PollReplied(0, 1, PollResponse(3, true), 0);
  }

  /**
   * An accepted response carrying a higher term is adopted and then counts
   * as a success, because the check compares with the adopted term.
   */
  method HigherTermAcceptElects() returns (f: FollowerState)
    ensures f.term == 9 && f.transitions == [Candidate]
  {
    f := PollingFollower({1, 2}, 2);
    f.PollReplied(0, 1, PollResponse(9, true), 0);
  }

  /**
   * Once the follower has closed, replies of its round are ignored: no term
   * is adopted and no transition is requested.
   */
  method ClosedIgnoresReplies() returns (f: FollowerState)
    ensures !f.open && f.term == 3 && f.transitions == [] && |f.rounds| == 1 && !f.rounds[0].complete
    ensures f.scheduled == map[]
  {
    f := PollingFollower({1, 2}, 2);
    f.Close();
    f.PollReplied(0, 1, PollResponse(9, true), 0);
  }
}
