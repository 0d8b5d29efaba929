/**
 * The flip board (src/components/FlipBoard.tsx): a 6 x 6 grid of tiles. A hover spins a
 * tile once, tilted by its column, at most once per 1000 ms per tile; the button flips
 * every tile over.
 */
module FlipBoard {
  import opened Wrappers

  const Rows: nat := 6
  const Cols: nat := 6
  const Cooldown: int := 1000

  /** The tilt rule, in the order the component checks the columns. */
  function ColumnTilt(col: nat): int
    requires col < Cols
  {
    if col == 0 then -40
    else if col == Cols - 1 then 40
    else if col == 1 then -20
    else if col == Cols - 2 then 20
    else if col == 2 then -10
    else 10
  }

  /** A tile's tilt depends only on its column, `index % 6`. */
  function Tilt(index: nat): (t: int)
    ensures t == ColumnTilt(index % Cols)
    ensures t in {-40, -20, -10, 10, 20, 40}
  {
    ColumnTilt(index % Cols)
  }

  /** Columns 0 to 5 tilt by -40, -20, -10, 10, 20, 40. */
  lemma TiltTable()
    ensures forall c :: 0 <= c < Cols ==> ColumnTilt(c) == [-40, -20, -10, 10, 20, 40][c]
  {
    forall c | 0 <= c < Cols
      ensures ColumnTilt(c) == [-40, -20, -10, 10, 20, 40][c]
    {
      assert c == 0 || c == 1 || c == 2 || c == 3 || c == 4 || c == 5;
    }
  }

  /** Mirror-image columns tilt in opposite directions by the same amount. */
  lemma TiltAntisymmetric(c: nat)
    requires c < Cols
    ensures ColumnTilt(c) == -ColumnTilt(Cols - 1 - c)
  {
    TiltTable();
  }

  /** Tiles in the same column of different rows tilt alike. */
  lemma TiltPerColumn(index: nat, row: nat)
    ensures Tilt(index + row * Cols) == Tilt(index)
  {
    assert (index + row * Cols) % Cols == index % Cols;
  }

  /** One hover animation: set to `start`, spin to `middle` tilted, settle at `end`. */
  datatype TileAnimation = TileAnimation(start: int, middle: int, end: int, tiltY: int)

  /** `animateTile`: 0 -> 270 -> 360, or 180 -> 450 -> 540 on a flipped board. */
  function AnimateTile(isFlipped: bool, tiltY: int): (a: TileAnimation)
    ensures a.start == (if isFlipped then 180 else 0)
    ensures a.middle == a.start + 270 && a.end == a.start + 360 && a.tiltY == tiltY
    ensures a.end % 360 == a.start % 360
  {
    TileAnimation(if isFlipped then 180 else 0, if isFlipped then 450 else 270,
      if isFlipped then 540 else 360, tiltY)
  }

  /** `flipAllTiles`' target: face down at 180, face up at 0. */
  function FlipTarget(isFlipped: bool): (r: int)
    ensures r % 360 == AnimateTile(isFlipped, 0).start % 360
  {
    if isFlipped then 180 else 0
  }

  /** The board's state: `isFlippedRef` and the per-tile `lastEnterTimes`. */
  class Board {
    var isFlipped: bool
    const lastEnterTimes: array<int>

    /**
     * The effect: one time slot per tile found, all 0 (`new Array(n).fill(0)`); `tileCount`
     * is 36 when the board element exists and 0 otherwise.
     */
    constructor (tileCount: nat)
      ensures !isFlipped && lastEnterTimes.Length == tileCount
      ensures forall k :: 0 <= k < tileCount ==> lastEnterTimes[k] == 0
      ensures fresh(lastEnterTimes)
    {
      isFlipped := false;
      var times := new int[tileCount];
      var i := 0;
      while i < tileCount
        invariant 0 <= i <= tileCount
        invariant forall k :: 0 <= k < i ==> times[k] == 0
      {
        times[i] := 0;
        i := i + 1;
      }
      lastEnterTimes := times;
    }

    /**
     * `handleMouseEnter` for tile `index` at time `now` (ms): accepted only if more than
     * 1000 ms have passed since the tile's last accepted hover; then that time is recorded.
     */
    method MouseEnter(index: nat, now: int) returns (animation: Option<TileAnimation>)
      requires index < lastEnterTimes.Length
      modifies lastEnterTimes
      ensures animation.Some? <==> now - old(lastEnterTimes[index]) > Cooldown
      ensures animation.Some? ==>
        animation.value == AnimateTile(isFlipped, Tilt(index)) &&
        lastEnterTimes[..] == old(lastEnterTimes[..])[index := now]
      ensures animation.None? ==> lastEnterTimes[..] == old(lastEnterTimes[..])
    {
      var currentTime := now;
      if currentTime - lastEnterTimes[index] > Cooldown {
        lastEnterTimes[index] := currentTime;
        var tiltY := Tilt(index);
        animation := Some(AnimateTile(isFlipped, tiltY));
      } else {
        animation := None;
      }
    }

    /** `flipAllTiles`: negate the flag and turn every tile to the new side. */
    method FlipAll() returns (target: int)
      modifies this
      ensures isFlipped == !old(isFlipped)
      ensures target == FlipTarget(isFlipped)
    {
      isFlipped := !isFlipped;
      target := FlipTarget(isFlipped);
    }
  }

  /**
   * Two hovers on one tile 1000 ms apart: only the first spins. A third, after the
   * cooldown, spins again; other tiles are not affected.
   */
  method CooldownScenario() returns (b: Board, spins: seq<bool>)
    ensures spins == [true, false, true]
    ensures b.lastEnterTimes.Length == Rows * Cols
    ensures b.lastEnterTimes[7] == 5000 && b.lastEnterTimes[8] == 0
  {
    b := new Board(Rows * Cols);
    var first := b.MouseEnter(7, 3000);
    assert first.Some?;
    var second := b.MouseEnter(7, 4000);
    assert second.None?;
    var third := b.MouseEnter(7, 5000);
    assert third == Some(TileAnimation(0, 270, 360, -20));
    spins := [first.Some?, second.Some?, third.Some?];
  }
}
