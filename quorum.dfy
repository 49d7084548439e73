/**
 * The vote counter of one poll round (io.atomix.copycat.server.util.Quorum).
 *
 * The counter is created with a success threshold and a resolution callback.
 * Every `succeed()` or `fail()` bumps a counter and then checks whether the
 * round is decided; the first time it is, the callback fires with `elected`
 * (true when the successes reached the threshold, false when the failures
 * did) and the counter marks itself complete, so the callback can never fire
 * again.  The local member counts as one success from the start.
 */
module Quorums {

  /** What one call into the counter made the callback do. */
  datatype Resolution = Unresolved | Resolved(elected: bool)

  datatype Quorum = Quorum(threshold: nat, succeeded: nat, failed: nat, complete: bool)

  /** A step: the counter afterwards and what the callback was told. */
  datatype Step = Step(quorum: Quorum, resolution: Resolution)

  /** A fresh counter: the local member's own vote is the first success. */
  function Create(threshold: nat): (q: Quorum)
    ensures q.threshold == threshold && !q.complete
    ensures q.succeeded == 1 && q.failed == 0
  {
    Quorum(threshold, 1, 0, false)
  }

  /** Fires the callback the first time either count reaches the threshold. */
  function CheckComplete(q: Quorum): Step
  {
    if !q.complete && q.succeeded >= q.threshold then
      Step(q.(complete := true), Resolved(true))
    else if !q.complete && q.failed >= q.threshold then
      Step(q.(complete := true), Resolved(false))
    else
      Step(q, Unresolved)
  }

  /** `succeed()` when `success`, `fail()` otherwise. */
  function Record(q: Quorum, success: bool): (s: Step)
    ensures s.quorum.threshold == q.threshold
    ensures s.quorum.succeeded == q.succeeded + (if success then 1 else 0)
    ensures s.quorum.failed == q.failed + (if success then 0 else 1)
    // the callback fires exactly when an undecided counter becomes decided
    ensures s.resolution.Resolved? <==>
              !q.complete && (s.quorum.succeeded >= q.threshold || s.quorum.failed >= q.threshold)
    ensures s.resolution == Resolved(true) ==> s.quorum.succeeded >= q.threshold
    ensures s.resolution == Resolved(false) ==>
              s.quorum.succeeded < q.threshold && s.quorum.failed >= q.threshold
    // once complete, always complete; complete only by firing
    ensures s.quorum.complete <==> q.complete || s.resolution.Resolved?
  {
    if success then CheckComplete(q.(succeeded := q.succeeded + 1))
    else CheckComplete(q.(failed := q.failed + 1))
  }

  /** The counter after a sequence of calls, and every value the callback received. */
  datatype Run = Run(quorum: Quorum, fired: seq<bool>)

  function Replay(q: Quorum, outcomes: seq<bool>): Run
    decreases |outcomes|
  {
    if outcomes == [] then Run(q, [])
    else
      var s := Record(q, outcomes[0]);
      var rest := Replay(s.quorum, outcomes[1..]);
      Run(rest.quorum, (if s.resolution.Resolved? then [s.resolution.elected] else []) + rest.fired)
  }

  /** How many of the outcomes equal `b`. */
  function Count(outcomes: seq<bool>, b: bool): (n: nat)
    ensures n <= |outcomes|
  {
    if outcomes == [] then 0
    else (if outcomes[0] == b then 1 else 0) + Count(outcomes[1..], b)
  }

  /** Successes and failures tallied after the outcomes, whatever the callback did. */
  function Successes(q: Quorum, outcomes: seq<bool>): nat
  {
    q.succeeded + Count(outcomes, true)
  }

  function Failures(q: Quorum, outcomes: seq<bool>): nat
  {
    q.failed + Count(outcomes, false)
  }

  /** The callback fires at most once, and never after the counter is complete. */
  lemma {:induction false} FiresAtMostOnce(q: Quorum, outcomes: seq<bool>)
    ensures |Replay(q, outcomes).fired| <= 1
    ensures q.complete ==> Replay(q, outcomes).fired == []
    ensures Replay(q, outcomes).quorum.complete <==> q.complete || Replay(q, outcomes).fired != []
    decreases |outcomes|
  {
    if outcomes != [] {
      var s := Record(q, outcomes[0]);
      FiresAtMostOnce(s.quorum, outcomes[1..]);
    }
  }

  /** Counting the first outcome moves the tallies onto the counter of the next step. */
  lemma ShiftPrefix(q: Quorum, outcomes: seq<bool>, i: nat)
    requires 1 <= i <= |outcomes|
    ensures Successes(q, outcomes[..i]) == Successes(Record(q, outcomes[0]).quorum, outcomes[1..][..i - 1])
    ensures Failures(q, outcomes[..i]) == Failures(Record(q, outcomes[0]).quorum, outcomes[1..][..i - 1])
  {
    assert outcomes[..i][0] == outcomes[0];
    assert outcomes[..i][1..] == outcomes[1..][..i - 1];
  }

  /**
   * Order independence: the callback reports `elected` exactly when, at some
   * point of the sequence, the successes reached the threshold while the
   * failures had not reached it at any earlier point; it reports `not
   * elected` exactly when the failures got there first.
   */
  ghost predicate SuccessFirst(q: Quorum, outcomes: seq<bool>)
  {
    exists i :: 1 <= i <= |outcomes| && Successes(q, outcomes[..i]) >= q.threshold &&
      forall j :: 1 <= j < i ==> Failures(q, outcomes[..j]) < q.threshold
  }

  ghost predicate FailureFirst(q: Quorum, outcomes: seq<bool>)
  {
    exists i :: 1 <= i <= |outcomes| && Failures(q, outcomes[..i]) >= q.threshold &&
      forall j :: 1 <= j <= i ==> Successes(q, outcomes[..j]) < q.threshold
  }

  /** When the first outcome already decides the counter, it decides the whole sequence. */
  lemma FirstOutcomeDecides(q: Quorum, outcomes: seq<bool>)
    requires !q.complete && outcomes != [] && Record(q, outcomes[0]).resolution.Resolved?
    ensures Replay(q, outcomes).fired == [Record(q, outcomes[0]).resolution.elected]
    ensures SuccessFirst(q, outcomes) <==> Record(q, outcomes[0]).resolution.elected
    ensures FailureFirst(q, outcomes) <==> !Record(q, outcomes[0]).resolution.elected
  {
    var s := Record(q, outcomes[0]);
    FiresAtMostOnce(s.quorum, outcomes[1..]);
    ShiftPrefix(q, outcomes, 1);
    assert outcomes[1..][..0] == [];
    assert Successes(q, outcomes[..1]) == s.quorum.succeeded;
    assert Failures(q, outcomes[..1]) == s.quorum.failed;
    if s.resolution.elected {
      assert SuccessFirst(q, outcomes);
    } else {
      assert FailureFirst(q, outcomes);
    }
  }

  lemma ShiftAllPrefixes(q: Quorum, outcomes: seq<bool>)
    requires outcomes != []
    ensures forall i :: 1 <= i <= |outcomes| ==>
      Successes(q, outcomes[..i]) == Successes(Record(q, outcomes[0]).quorum, outcomes[1..][..i - 1])
    ensures forall i :: 1 <= i <= |outcomes| ==>
      Failures(q, outcomes[..i]) == Failures(Record(q, outcomes[0]).quorum, outcomes[1..][..i - 1])
  {
    forall i | 1 <= i <= |outcomes|
      ensures Successes(q, outcomes[..i]) == Successes(Record(q, outcomes[0]).quorum, outcomes[1..][..i - 1])
      ensures Failures(q, outcomes[..i]) == Failures(Record(q, outcomes[0]).quorum, outcomes[1..][..i - 1])
    {
      ShiftPrefix(q, outcomes, i);
    }
  }

  /** When the first outcome leaves the counter undecided, the race is the same on the rest. */
  lemma SuccessFirstShifts(q: Quorum, outcomes: seq<bool>)
    requires !q.complete && outcomes != [] && !Record(q, outcomes[0]).resolution.Resolved?
    ensures SuccessFirst(q, outcomes) ==> SuccessFirst(Record(q, outcomes[0]).quorum, outcomes[1..])
  {
    var s := Record(q, outcomes[0]);
    var rest := outcomes[1..];
    ShiftAllPrefixes(q, outcomes);
    if SuccessFirst(q, outcomes) {
      var i :| 1 <= i <= |outcomes| && Successes(q, outcomes[..i]) >= q.threshold &&
        forall j :: 1 <= j < i ==> Failures(q, outcomes[..j]) < q.threshold;
      assert i != 1;
      forall j | 1 <= j < i - 1 ensures Failures(s.quorum, rest[..j]) < s.quorum.threshold {
        assert Failures(q, outcomes[..j + 1]) < q.threshold;
      }
      assert Successes(s.quorum, rest[..i - 1]) >= s.quorum.threshold;
    }
  }

  lemma SuccessFirstUnshifts(q: Quorum, outcomes: seq<bool>)
    requires !q.complete && outcomes != [] && !Record(q, outcomes[0]).resolution.Resolved?
    ensures SuccessFirst(Record(q, outcomes[0]).quorum, outcomes[1..]) ==> SuccessFirst(q, outcomes)
  {
    var s := Record(q, outcomes[0]);
    var rest := outcomes[1..];
    ShiftAllPrefixes(q, outcomes);
    if SuccessFirst(s.quorum, rest) {
      var i :| 1 <= i <= |rest| && Successes(s.quorum, rest[..i]) >= s.quorum.threshold &&
        forall j :: 1 <= j < i ==> Failures(s.quorum, rest[..j]) < s.quorum.threshold;
      assert rest[..0] == [];
      forall j | 1 <= j < i + 1 ensures Failures(q, outcomes[..j]) < q.threshold {
        if j > 1 {
          assert Failures(s.quorum, rest[..j - 1]) < s.quorum.threshold;
        }
      }
      assert Successes(q, outcomes[..i + 1]) >= q.threshold;
    }
  }

  lemma FailureFirstShifts(q: Quorum, outcomes: seq<bool>)
    requires !q.complete && outcomes != [] && !Record(q, outcomes[0]).resolution.Resolved?
    ensures FailureFirst(q, outcomes) ==> FailureFirst(Record(q, outcomes[0]).quorum, outcomes[1..])
  {
    var s := Record(q, outcomes[0]);
    var rest := outcomes[1..];
    ShiftAllPrefixes(q, outcomes);
    if FailureFirst(q, outcomes) {
      var i :| 1 <= i <= |outcomes| && Failures(q, outcomes[..i]) >= q.threshold &&
        forall j :: 1 <= j <= i ==> Successes(q, outcomes[..j]) < q.threshold;
      assert rest[..0] == [];
      assert i != 1;
      forall j | 1 <= j <= i - 1 ensures Successes(s.quorum, rest[..j]) < s.quorum.threshold {
        assert Successes(q, outcomes[..j + 1]) < q.threshold;
      }
      assert Failures(s.quorum, rest[..i - 1]) >= s.quorum.threshold;
    }
  }

  lemma FailureFirstUnshifts(q: Quorum, outcomes: seq<bool>)
    requires !q.complete && outcomes != [] && !Record(q, outcomes[0]).resolution.Resolved?
    ensures FailureFirst(Record(q, outcomes[0]).quorum, outcomes[1..]) ==> FailureFirst(q, outcomes)
  {
    var s := Record(q, outcomes[0]);
    var rest := outcomes[1..];
    ShiftAllPrefixes(q, outcomes);
    if FailureFirst(s.quorum, rest) {
      var i :| 1 <= i <= |rest| && Failures(s.quorum, rest[..i]) >= s.quorum.threshold &&
        forall j :: 1 <= j <= i ==> Successes(s.quorum, rest[..j]) < s.quorum.threshold;
      assert rest[..0] == [];
      forall j | 1 <= j <= i + 1 ensures Successes(q, outcomes[..j]) < q.threshold {
        if j > 1 {
          assert Successes(s.quorum, rest[..j - 1]) < s.quorum.threshold;
        }
      }
      assert Failures(q, outcomes[..i + 1]) >= q.threshold;
    }
  }

  lemma {:induction false} ElectedIffSuccessFirst(q: Quorum, outcomes: seq<bool>)
    requires !q.complete
    ensures Replay(q, outcomes).fired == [true] <==> SuccessFirst(q, outcomes)
    ensures Replay(q, outcomes).fired == [false] <==> FailureFirst(q, outcomes)
    ensures Replay(q, outcomes).fired == [] <==> !SuccessFirst(q, outcomes) && !FailureFirst(q, outcomes)
    decreases |outcomes|
  {
    if outcomes == [] {
      return;
    }
    var s := Record(q, outcomes[0]);
    if s.resolution.Resolved? {
      FirstOutcomeDecides(q, outcomes);
    } else {
      ElectedIffSuccessFirst(s.quorum, outcomes[1..]);
      SuccessFirstShifts(q, outcomes);
      SuccessFirstUnshifts(q, outcomes);
      FailureFirstShifts(q, outcomes);
      FailureFirstUnshifts(q, outcomes);
    }
  }

  /** Once the tallies reach the threshold, a fresh counter has fired exactly once. */
  lemma {:induction false} DecidedFiresOnce(q: Quorum, outcomes: seq<bool>)
    requires !q.complete && outcomes != []
    requires Successes(q, outcomes) >= q.threshold || Failures(q, outcomes) >= q.threshold
    ensures |Replay(q, outcomes).fired| == 1
    decreases |outcomes|
  {
    var s := Record(q, outcomes[0]);
    var rest := outcomes[1..];
    assert outcomes == [outcomes[0]] + rest;
    assert Successes(q, outcomes) == Successes(s.quorum, rest);
    assert Failures(q, outcomes) == Failures(s.quorum, rest);
    if s.resolution.Resolved? {
      FiresAtMostOnce(s.quorum, rest);
    } else if rest != [] {
      DecidedFiresOnce(s.quorum, rest);
    }
  }
}
