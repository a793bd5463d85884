/**
 The tracking loop of `irMouse` (ir-mouse.py:81-193) as a state machine over
 frame results. The only state carried between frames is the peak location
 of the previous frame (the sentinel after a frame with no detection); the
 pointer moves the frames produce are the outputs.
 */
module Tracking {
  import opened Numeric
  import opened Geometry
  import opened Motion
  import opened PointerMap

  /** What one frame asks of the pointer. */
  datatype Move = Stay | MoveTo(target: Ptr)

  /** The state after a frame, and the move that frame produced. */
  datatype StepResult = StepResult(prev: Pos, move: Move)

  /**
   One successfully read frame: `loc` is the peak found in it, `ptr` the
   pointer position the system reports, `screen` the screen size and `root`
   the Euclidean norm's square root. The frame's location becomes the state
   for the next frame whether or not the pointer moves.
   */
  function Step(prev: Pos, loc: Pos, ptr: Ptr, screen: Screen, root: real -> real): (r: StepResult)
    requires IsSqrt(root)
    ensures r.prev == loc
    ensures r.move.MoveTo? <==> Detected(prev) && Detected(loc) && SqLen(Delta(prev, loc)) > 9
    ensures r.move.MoveTo? && ScreenNonNegative(screen) ==> OnScreen(r.move.target, screen)
  {
    if Detected(loc) && Detected(prev) then
      var d := Delta(prev, loc);
      var distance := root(SqLen(d) as real);
      RootOfOracle(root, SqLen(d));
      ActionableBySquare(distance, SqLen(d));
      if Actionable(distance) then
        StepResult(loc, MoveTo(MovePointer(ptr, d, distance, screen)))
      else
        StepResult(loc, Stay)
    else
      StepResult(loc, Stay)
  }

  /**
   A move always goes the way the tracked delta says, from a pointer that is
   on screen: left for a rightward frame delta, down for a downward one, and
   not at all on an axis whose delta is zero.
   */
  lemma StepDirection(prev: Pos, loc: Pos, ptr: Ptr, screen: Screen, root: real -> real)
    requires IsSqrt(root) && OnScreen(ptr, screen)
    ensures var r := Step(prev, loc, ptr, screen, root);
      var d := Delta(prev, loc);
      r.move.MoveTo? ==>
        && (d.dx > 0 ==> r.move.target.x <= ptr.x)
        && (d.dx < 0 ==> r.move.target.x >= ptr.x)
        && (d.dx == 0 ==> r.move.target.x == ptr.x)
        && (d.dy > 0 ==> r.move.target.y >= ptr.y)
        && (d.dy < 0 ==> r.move.target.y <= ptr.y)
        && (d.dy == 0 ==> r.move.target.y == ptr.y)
  {
    var d := Delta(prev, loc);
    var distance := root(SqLen(d) as real);
    RootOfOracle(root, SqLen(d));
    MovePointerDirection(ptr, d, distance, screen);
  }

  /**
   The scenarios of a delta of exactly 3 pixels (no move) and of the
   displacement from (10,10) to (10,14), distance 4 (a move), plus a
   vertical jump of 30 from the pointer at (500,500) that lands on the bottom
   edge of a 1920x1080 screen.
   */
  lemma StepExamples(ptr: Ptr, root: real -> real)
    requires IsSqrt(root)
    ensures Step(Pos(100, 100), Pos(103, 100), ptr, Screen(1920, 1080), root).move == Stay
    ensures Step(Pos(10, 10), Pos(10, 14), ptr, Screen(1920, 1080), root).move.MoveTo?
    ensures Step(Pos(100, 100), Pos(100, 130), Ptr(500, 500), Screen(1920, 1080), root).move
         == MoveTo(Ptr(500, 1080))
  {
    assert SqLen(Offset(0, 30)) == 30 * 30;
    RootOfOracle(root, 30 * 30);
    RootUnique(root(900.0), 30);
    ClampBottomEdgeExample();
  }

  /** One read attempt: the camera failed, or a frame was processed. */
  datatype Capture =
    | ReadFailed
    | Frame(loc: Pos, ptr: Ptr, esc: bool)

  /** Whether the loop is still going, or how it ended. */
  datatype Status = Running | Exited(code: int)

  /**
   The observable outcome of running the loop over a sequence of reads: the
   stored location, one `Move` per processed frame, and how the loop ended.
   */
  datatype Trace = Trace(prev: Pos, moves: seq<Move>, status: Status)

  /** A read that neither fails nor is followed by the Esc key. */
  predicate Continues(c: Capture) {
    c.Frame? && !c.esc
  }

  predicate AllContinue(cs: seq<Capture>) {
    forall i :: 0 <= i < |cs| ==> Continues(cs[i])
  }

  /** The read at `k` ends the loop through a camera failure. */
  predicate FailsAt(cs: seq<Capture>, k: int) {
    0 <= k < |cs| && cs[k].ReadFailed? && AllContinue(cs[..k])
  }

  /** The read at `k` is processed and then Esc ends the loop. */
  predicate EscapesAt(cs: seq<Capture>, k: int) {
    0 <= k < |cs| && cs[k].Frame? && cs[k].esc && AllContinue(cs[..k])
  }

  /**
   The loop from state `prev` over the reads `cs`: a failed read stops it with
   -1, a frame followed by Esc stops it with 0 after that frame is processed,
   and reads that are used up leave it running.
   */
  function RunFrom(prev: Pos, cs: seq<Capture>, screen: Screen, root: real -> real): (t: Trace)
    requires IsSqrt(root)
    ensures t.status == Exited(-1) <==> exists k :: FailsAt(cs, k)
    ensures t.status == Exited(0) <==> exists k :: EscapesAt(cs, k)
    ensures t.status == Running <==> AllContinue(cs)
    ensures t.status.Exited? ==> t.status.code == 0 || t.status.code == -1
    ensures 0 < |cs| && cs[|cs| - 1].Frame? && AllContinue(cs[..|cs| - 1]) ==> t.prev == cs[|cs| - 1].loc
    ensures |t.moves| <= |cs|
    ensures ScreenNonNegative(screen) ==>
      forall i :: 0 <= i < |t.moves| && t.moves[i].MoveTo? ==> OnScreen(t.moves[i].target, screen)
    decreases |cs|
  {
    if |cs| == 0 then
      Trace(prev, [], Running)
    else
      match cs[0]
      case ReadFailed =>
        assert FailsAt(cs, 0);
        Trace(prev, [], Exited(-1))
      case Frame(loc, ptr, esc) =>
        var s := Step(prev, loc, ptr, screen, root);
        if esc then
          assert EscapesAt(cs, 0);
          Trace(s.prev, [s.move], Exited(0))
        else
          var t := RunFrom(s.prev, cs[1..], screen, root);
          ShiftStops(cs);
          Trace(t.prev, [s.move] + t.moves, t.status)
  }

  /** How the stopping predicates of `cs` relate to those of its tail. */
  lemma ShiftStops(cs: seq<Capture>)
    requires 0 < |cs| && Continues(cs[0])
    ensures forall k :: 0 < k ==> (FailsAt(cs, k) <==> FailsAt(cs[1..], k - 1))
    ensures forall k :: 0 < k ==> (EscapesAt(cs, k) <==> EscapesAt(cs[1..], k - 1))
    ensures (exists k :: FailsAt(cs, k)) <==> (exists k :: FailsAt(cs[1..], k))
    ensures (exists k :: EscapesAt(cs, k)) <==> (exists k :: EscapesAt(cs[1..], k))
    ensures AllContinue(cs) <==> AllContinue(cs[1..])
  {
    forall k | 0 < k <= |cs|
      ensures AllContinue(cs[..k]) <==> AllContinue(cs[1..][..k - 1])
    {
      assert forall i :: 0 < i < k ==> cs[..k][i] == cs[1..][..k - 1][i - 1];
    }
    if exists k :: FailsAt(cs, k) {
      var k :| FailsAt(cs, k);
      assert FailsAt(cs[1..], k - 1);
    }
    if exists k :: FailsAt(cs[1..], k) {
      var k :| FailsAt(cs[1..], k);
      assert FailsAt(cs, k + 1);
    }
    if exists k :: EscapesAt(cs, k) {
      var k :| EscapesAt(cs, k);
      assert EscapesAt(cs[1..], k - 1);
    }
    if exists k :: EscapesAt(cs[1..], k) {
      var k :| EscapesAt(cs[1..], k);
      assert EscapesAt(cs, k + 1);
    }
    if AllContinue(cs[1..]) {
      assert forall i :: 0 < i < |cs| ==> cs[i] == cs[1..][i - 1];
    }
  }

  /**
   Entry `i` of `moves` is the decision `Step` takes for read `i`, a frame,
   from the location of the read before it (`prev` for the first).
   */
  ghost predicate MovesFollowSteps(prev: Pos, cs: seq<Capture>, moves: seq<Move>, screen: Screen, root: real -> real)
    requires IsSqrt(root)
  {
    && |moves| <= |cs|
    && (forall i :: 0 <= i < |moves| ==> cs[i].Frame?)
    && (forall i :: 0 <= i < |moves| ==>
          moves[i] == Step(if i == 0 then prev else cs[i - 1].loc, cs[i].loc, cs[i].ptr, screen, root).move)
  }

  /**
   The loop records exactly one move per processed frame: as many as the
   reads when none stops it, `k` when the read at `k` fails, `k + 1` when Esc
   follows frame `k`; and each entry is that frame's own decision.
   */
  lemma {:induction false} RunMoves(prev: Pos, cs: seq<Capture>, screen: Screen, root: real -> real)
    requires IsSqrt(root)
    ensures MovesFollowSteps(prev, cs, RunFrom(prev, cs, screen, root).moves, screen, root)
    ensures forall k :: FailsAt(cs, k) ==> |RunFrom(prev, cs, screen, root).moves| == k
    ensures forall k :: EscapesAt(cs, k) ==> |RunFrom(prev, cs, screen, root).moves| == k + 1
    ensures AllContinue(cs) ==> |RunFrom(prev, cs, screen, root).moves| == |cs|
    decreases |cs|
  {
    if 0 < |cs| && Continues(cs[0]) {
      var s := Step(prev, cs[0].loc, cs[0].ptr, screen, root);
      var t := RunFrom(s.prev, cs[1..], screen, root);
      RunMoves(s.prev, cs[1..], screen, root);
      ShiftStops(cs);
      var moves := RunFrom(prev, cs, screen, root).moves;
      assert moves == [s.move] + t.moves;
      forall i | 0 < i < |moves|
        ensures cs[i].Frame?
        ensures moves[i] == Step(cs[i - 1].loc, cs[i].loc, cs[i].ptr, screen, root).move
      {
        assert moves[i] == t.moves[i - 1] && cs[i] == cs[1..][i - 1];
        if i > 1 {
          assert cs[i - 1] == cs[1..][i - 2];
        }
      }
      forall k | FailsAt(cs, k)
        ensures |moves| == k
      {
        assert 0 < k && FailsAt(cs[1..], k - 1);
      }
      forall k | EscapesAt(cs, k)
        ensures |moves| == k + 1
      {
        assert 0 < k && EscapesAt(cs[1..], k - 1);
      }
    }
  }

  /** The loop as the program starts it: no detection yet. */
  function Run(cs: seq<Capture>, screen: Screen, root: real -> real): Trace
    requires IsSqrt(root)
  {
    RunFrom(Origin, cs, screen, root)
  }

  /**
   The first frame never moves the pointer, because the stored location
   starts as the sentinel; the rest of the run starts from that frame's
   location.
   */
  lemma FirstFrameStays(cs: seq<Capture>, screen: Screen, root: real -> real)
    requires IsSqrt(root) && 0 < |cs|
    ensures cs[0].Frame? ==> Step(Origin, cs[0].loc, cs[0].ptr, screen, root).move == Stay
    ensures cs[0].Frame? ==> 0 < |Run(cs, screen, root).moves| && Run(cs, screen, root).moves[0] == Stay
    ensures Continues(cs[0]) ==>
      Run(cs, screen, root).moves == [Stay] + RunFrom(cs[0].loc, cs[1..], screen, root).moves
  {
  }

  /**
   The `while True` loop itself: read, process, stop on a failed read (-1) or
   after a frame on which Esc was pressed (0). It issues exactly the moves of
   the fold `Run` and ends the same way.
   */
  method TrackingLoop(cs: seq<Capture>, screen: Screen, root: real -> real)
    returns (status: Status, moves: seq<Move>)
    requires IsSqrt(root)
    ensures status == Run(cs, screen, root).status
    ensures moves == Run(cs, screen, root).moves
  {
    var prev := Origin;
    moves := [];
    status := Running;
    var i := 0;
    while i < |cs|
      invariant 0 <= i <= |cs|
      invariant var t := RunFrom(prev, cs[i..], screen, root);
        Run(cs, screen, root) == Trace(t.prev, moves + t.moves, t.status)
      decreases |cs| - i
    {
      assert cs[i..][1..] == cs[i + 1..];
      match cs[i]
      case ReadFailed =>
        status := Exited(-1);
        return;
      case Frame(loc, ptr, esc) =>
        var s := Step(prev, loc, ptr, screen, root);
        moves := moves + [s.move];
        prev := s.prev;
        if esc {
          status := Exited(0);
          return;
        }
        i := i + 1;
    }
  }
}
