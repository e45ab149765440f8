/**
 * A bounded reorder buffer: frames arrive keyed by sequence number, in any
 * order, and are released strictly in order starting at 0.
 */
module FrameQueues {
  import opened Common

  type Frame = seq<byte>

  /**
   * Whether `push(no, _)` is accepted by a queue expecting `next` whose
   * pending keys are `pending`: not stale, and either room for one more
   * distinct key or `no` already pending.
   */
  predicate Accepts(pending: set<u64>, next: u64, maxLen: nat, no: u64) {
    no >= next && (|pending| < maxLen || no in pending)
  }

  /** A push below the expected sequence number is always rejected. */
  lemma StaleRejected(pending: set<u64>, next: u64, maxLen: nat, no: u64)
    requires no < next
    ensures !Accepts(pending, next, maxLen, no)
  {
  }

  /** Re-pushing a pending, non-stale key is accepted even when the queue is full. */
  lemma RepushAccepted(pending: set<u64>, next: u64, maxLen: nat, no: u64)
    requires no in pending && next <= no
    ensures Accepts(pending, next, maxLen, no)
  {
  }

  /** An accepted push keeps the number of distinct pending keys within capacity. */
  lemma AcceptedPushKeepsBound(frames: map<u64, Frame>, next: u64, maxLen: nat, no: u64, f: Frame)
    requires |frames| <= maxLen
    requires Accepts(frames.Keys, next, maxLen, no)
    ensures |frames[no := f]| <= maxLen
  {
    if no in frames {
      assert frames[no := f].Keys == frames.Keys;
    } else {
      assert |frames.Keys| < maxLen;
      assert frames[no := f].Keys == frames.Keys + {no};
    }
  }

  /** The sequence numbers `0 .. n-1`, in order. */
  ghost predicate IsPrefixOfNaturals(released: seq<u64>) {
    forall i :: 0 <= i < |released| ==> released[i] == i
  }

  class FrameQueue {
    var nextFrame: u64
    var frames: map<u64, Frame>
    const maxLen: usize
    /** Sequence numbers of the frames released so far, in release order. */
    ghost var released: seq<u64>

    ghost predicate Valid()
      reads this
    {
      && maxLen > 0
      && |frames| <= maxLen
      && (forall k :: k in frames ==> nextFrame <= k)
      && |released| == nextFrame
      && IsPrefixOfNaturals(released)
    }

    /** Panics (here: may not be called) on a zero capacity. */
    constructor (maxLen: usize)
      requires maxLen > 0
      ensures Valid()
      ensures this.maxLen == maxLen && nextFrame == 0 && frames == map[] && released == []
    {
      nextFrame := 0;
      frames := map[];
      this.maxLen := maxLen;
      released := [];
    }

    method NextFrameNumber() returns (n: u64)
      ensures n == nextFrame
    {
      n := nextFrame;
    }

    /**
     * Accepts exactly when `Accepts` holds, inserting or overwriting `no`;
     * on rejection nothing changes. The expected sequence number never moves.
     */
    method Push(no: u64, frame: Frame) returns (accepted: bool)
      requires Valid()
      modifies this
      ensures Valid()
      ensures accepted == Accepts(old(frames).Keys, old(nextFrame), maxLen, no)
      ensures frames == if accepted then old(frames)[no := frame] else old(frames)
      ensures nextFrame == old(nextFrame) && released == old(released)
    {
      if no < nextFrame {
        return false;
      }
      if |frames| >= maxLen && no !in frames {
        return false;
      }
      AcceptedPushKeepsBound(frames, nextFrame, maxLen, no, frame);
      frames := frames[no := frame];
      accepted := true;
    }

    /**
     * Releases the frame numbered `nextFrame` when it is pending and advances
     * the expected number by one; otherwise returns `None` and changes
     * nothing. Advancing past the largest `u64` would overflow, so that one
     * case is excluded.
     */
    method PopReady() returns (r: Option<Frame>)
      requires Valid()
      requires nextFrame in frames ==> nextFrame + 1 < U64_LIMIT
      modifies this
      ensures Valid()
      ensures old(nextFrame) in old(frames) ==>
        && r == Some(old(frames)[old(nextFrame)])
        && frames == old(frames) - {old(nextFrame)}
        && nextFrame == old(nextFrame) + 1
        && released == old(released) + [old(nextFrame)]
      ensures old(nextFrame) !in old(frames) ==>
        r == None && frames == old(frames) && nextFrame == old(nextFrame) && released == old(released)
    {
      if nextFrame in frames {
        var frame := frames[nextFrame];
        ghost var was := frames;
        frames := frames - {nextFrame};
        assert frames.Keys == was.Keys - {nextFrame};
        released := released + [nextFrame];
        nextFrame := nextFrame + 1;
        r := Some(frame);
      } else {
        r := None;
      }
    }
  }

  /**
   * The capacity scenario: with room for two, frames 0 and 2 are taken,
   * 3 is refused while full, releasing 0 makes room for 3, and 0 is then stale.
   */
  method CapacityScenario() returns (a: bool, c: bool, d: bool, first: Option<Frame>, next: u64, d2: bool, stale: bool)
    ensures a && c && !d
    ensures first == Some(['a' as byte]) && next == 1
    ensures d2 && !stale
  {
    var q := new FrameQueue(2);
    a := q.Push(0, ['a' as byte]);
    c := q.Push(2, ['c' as byte]);
    d := q.Push(3, ['d' as byte]);
    first := q.PopReady();
    next := q.NextFrameNumber();
    d2 := q.Push(3, ['d' as byte]);
    stale := q.Push(0, ['z' as byte]);
  }

  /**
   * Out-of-order completion: frames pushed as 2, 0, 1 are released as 0, 1, 2,
   * and nothing is released while frame 0 is missing.
   */
  method ReorderScenario(f0: Frame, f1: Frame, f2: Frame) returns (early: Option<Frame>, r0: Option<Frame>, r1: Option<Frame>, r2: Option<Frame>, r3: Option<Frame>)
    ensures early == None
    ensures r0 == Some(f0) && r1 == Some(f1) && r2 == Some(f2) && r3 == None
  {
    var q := new FrameQueue(4);
    var ok := q.Push(2, f2);
    early := q.PopReady();
    ok := q.Push(0, f0);
    ok := q.Push(1, f1);
    r0 := q.PopReady();
    r1 := q.PopReady();
    r2 := q.PopReady();
    r3 := q.PopReady();
  }
}
