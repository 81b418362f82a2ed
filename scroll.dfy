/** The horizontal scrolling that makes the board load lazily rendered
    columns: in `fetch_taskcard_data` (taskcard_downloader.py:129-167) and
    before the attachments are collected (taskcard_downloader.py:329-339).
    The page is reduced to the `scrollLeft` values set on `.board-container`
    and the time waited after each. */
module Scroll {

  /** The distance between two scroll positions, in pixels. */
  const Step: nat := 600

  /** `container.scrollLeft = position`, then `wait_for_timeout(waitMs)`. */
  datatype Move = Move(position: nat, waitMs: nat)

  /** The number of positions `0, 600, 1200, …` below `width`. */
  function StepCount(width: nat): nat {
    (width + Step - 1) / Step
  }

  /** Reference definition of the stepping loop: positions `0, 600, …`
      below `width`, each followed by the same wait. */
  function StepMoves(width: nat, waitMs: nat): seq<Move> {
    seq(StepCount(width), k requires 0 <= k => Move(Step * k, waitMs))
  }

  /** The loop `while current < scroll_width: scrollLeft = current; wait;
      current += 600`. */
  method StepThrough(width: nat, waitMs: nat) returns (moves: seq<Move>)
    ensures moves == StepMoves(width, waitMs)
  {
    moves := [];
    var current := 0;
    while current < width
      invariant current == Step * |moves|
      invariant |moves| == 0 || Step * (|moves| - 1) < width
      invariant forall k :: 0 <= k < |moves| ==> moves[k] == Move(Step * k, waitMs)
    {
      moves := moves + [Move(current, waitMs)];
      current := current + Step;
    }
    assert |moves| == StepCount(width);
  }

  /** The positions visited lie inside the board, start at 0 and are 600
      pixels apart. */
  lemma StepMovesInside(width: nat, waitMs: nat)
    ensures forall k :: 0 <= k < |StepMoves(width, waitMs)| ==>
              StepMoves(width, waitMs)[k].position == Step * k < width
    ensures width > 0 <==> |StepMoves(width, waitMs)| > 0
  {
  }

  /** No part of the board is skipped: every horizontal offset below the
      width lies within 600 pixels after some visited position. */
  lemma StepMovesCover(width: nat, waitMs: nat, x: nat)
    requires x < width
    ensures exists k :: 0 <= k < |StepMoves(width, waitMs)| &&
              StepMoves(width, waitMs)[k].position <= x < StepMoves(width, waitMs)[k].position + Step
  {
    var k := x / Step;
    assert Step * k <= x < Step * k + Step;
    assert k < StepCount(width);
    assert StepMoves(width, waitMs)[k].position == Step * k;
  }

  /** The scrolling of `fetch_taskcard_data`: nothing when there is no
      `.board-container`; else the steps with 800 ms each, then the end
      (`scrollWidth` read again, as `endWidth`) and the start, 2000 ms
      each. */
  function FetchScrolls(hasContainer: bool, width: nat, endWidth: nat): seq<Move> {
    if hasContainer then StepMoves(width, 800) + [Move(endWidth, 2000), Move(0, 2000)] else []
  }

  /** The scrolling before the attachments are collected: the steps with
      500 ms each, then back to the start with 1000 ms. */
  function AttachmentScrolls(hasContainer: bool, width: nat): seq<Move> {
    if hasContainer then StepMoves(width, 500) + [Move(0, 1000)] else []
  }

  method ScrollForFetch(hasContainer: bool, width: nat, endWidth: nat) returns (moves: seq<Move>)
    ensures moves == FetchScrolls(hasContainer, width, endWidth)
  {
    moves := [];
    if hasContainer {
      moves := StepThrough(width, 800);
      moves := moves + [Move(endWidth, 2000)];
      moves := moves + [Move(0, 2000)];
    }
  }

  method ScrollForAttachments(hasContainer: bool, width: nat) returns (moves: seq<Move>)
    ensures moves == AttachmentScrolls(hasContainer, width)
  {
    moves := [];
    if hasContainer {
      moves := StepThrough(width, 500);
      moves := moves + [Move(0, 1000)];
    }
  }

  /** The total time waited. */
  function TotalWait(moves: seq<Move>): nat {
    if |moves| == 0 then 0 else TotalWait(moves[..|moves| - 1]) + moves[|moves| - 1].waitMs
  }

  lemma {:induction false} TotalWaitAppend(xs: seq<Move>, ys: seq<Move>)
    ensures TotalWait(xs + ys) == TotalWait(xs) + TotalWait(ys)
  {
    if |ys| == 0 {
      assert xs + ys == xs;
    } else {
      TotalWaitAppend(xs, ys[..|ys| - 1]);
      assert (xs + ys)[..|xs + ys| - 1] == xs + ys[..|ys| - 1];
    }
  }

  lemma {:induction false} StepMovesWait(width: nat, waitMs: nat, n: nat)
    requires n <= StepCount(width)
    ensures TotalWait(StepMoves(width, waitMs)[..n]) == n * waitMs
  {
    if n > 0 {
      StepMovesWait(width, waitMs, n - 1);
      assert StepMoves(width, waitMs)[..n][..n - 1] == StepMoves(width, waitMs)[..n - 1];
    }
  }

  /** The scrolling of `fetch_taskcard_data` ends back at the start and
      waits 800 ms per step plus 4 s. */
  lemma FetchScrollsShape(width: nat, endWidth: nat)
    ensures |FetchScrolls(true, width, endWidth)| == StepCount(width) + 2
    ensures FetchScrolls(true, width, endWidth)[StepCount(width)].position == endWidth
    ensures FetchScrolls(true, width, endWidth)[StepCount(width) + 1].position == 0
    ensures TotalWait(FetchScrolls(true, width, endWidth)) == 800 * StepCount(width) + 4000
  {
    var steps := StepMoves(width, 800);
    StepMovesWait(width, 800, StepCount(width));
    assert steps[..StepCount(width)] == steps;
    TotalWaitAppend(steps, [Move(endWidth, 2000), Move(0, 2000)]);
    var tail := [Move(endWidth, 2000), Move(0, 2000)];
    assert tail[..1] == [Move(endWidth, 2000)];
    assert [Move(endWidth, 2000)][..0] == [];
    assert TotalWait([Move(endWidth, 2000)]) == 2000;
    assert TotalWait(tail) == 4000;
  }

  /** The scrolling before the attachments are collected ends back at the
      start and waits 500 ms per step plus 1 s. */
  lemma AttachmentScrollsShape(width: nat)
    ensures |AttachmentScrolls(true, width)| == StepCount(width) + 1
    ensures AttachmentScrolls(true, width)[StepCount(width)].position == 0
    ensures TotalWait(AttachmentScrolls(true, width)) == 500 * StepCount(width) + 1000
  {
    var steps := StepMoves(width, 500);
    StepMovesWait(width, 500, StepCount(width));
    assert steps[..StepCount(width)] == steps;
    TotalWaitAppend(steps, [Move(0, 1000)]);
    assert [Move(0, 1000)][..0] == [];
  }
}
