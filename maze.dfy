/** The DOM maze game: a player box moved in 20-pixel steps by the w/a/s/d
    keys, blocked by walls, winning when it touches the cheese.
    Positions are integer pixels in viewport coordinates. */
module Maze {
  import opened Geometry

  /** A bounding box as `getBoundingClientRect` reports it. */
  datatype Rect = Rect(left: int, top: int, right: int, bottom: int)

  /** Length of one key-press step, in pixels. */
  const Step: int := 20

  /** Where the player is put when the page has loaded. */
  const InitialX: int := 600
  const InitialY: int := 80

  function Max(a: int, b: int): int { if a < b then b else a }
  function Min(a: int, b: int): int { if a < b then a else b }

  /** The box of size `w` by `h` placed at `(x, y)`. */
  function BoxAt(x: int, y: int, w: int, h: int): Rect {
    Rect(x, y, x + w, y + h)
  }

  /** The box at `(x, y)` of size `w` by `h` and `wall` share interior:
      all four comparisons are strict, so boxes whose edges only touch do
      not overlap. */
  predicate Overlaps(x: int, y: int, w: int, h: int, wall: Rect) {
    x < wall.right && x + w > wall.left && y < wall.bottom && y + h > wall.top
  }

  /** Some wall overlaps the box at `(x, y)`. */
  predicate Collides(x: int, y: int, w: int, h: int, walls: seq<Rect>) {
    exists i :: 0 <= i < |walls| && Overlaps(x, y, w, h, walls[i])
  }

  /** The player touches the cheese: all four comparisons are non-strict,
      so touching edges count as a win. */
  predicate Wins(player: Rect, cheese: Rect) {
    player.right >= cheese.left && player.left <= cheese.right &&
    player.bottom >= cheese.top && player.top <= cheese.bottom
  }

  /** The position a key press proposes for a `w` by `h` player at `(x, y)`
      in a `viewW` by `viewH` viewport. */
  function Propose(key: string, x: int, y: int, w: int, h: int, viewW: int, viewH: int): (p: (int, int))
    // each key moves along its own axis only, and any other key proposes staying put
    ensures key == "w" || key == "s" ==> p.0 == x
    ensures key == "a" || key == "d" ==> p.1 == y
    ensures key != "w" && key != "a" && key != "s" && key != "d" ==> p == (x, y)
    // w and a step back a full 20 when there is room, and otherwise stop at 0
    ensures key == "w" ==> p.1 == (if Step <= y then y - Step else 0) && 0 <= p.1
    ensures key == "a" ==> p.0 == (if Step <= x then x - Step else 0) && 0 <= p.0
    // s and d step on a full 20 when there is room, and otherwise stop with
    // the box against the far edge of the viewport
    ensures key == "s" ==> p.1 == (if y + Step + h <= viewH then y + Step else viewH - h) && p.1 + h <= viewH
    ensures key == "d" ==> p.0 == (if x + Step + w <= viewW then x + Step else viewW - w) && p.0 + w <= viewW
  {
    if key == "w" then (x, Max(0, y - Step))
    else if key == "a" then (Max(0, x - Step), y)
    else if key == "s" then (x, Min(viewH - h, y + Step))
    else if key == "d" then (Min(viewW - w, x + Step), y)
    else (x, y)
  }

  /** A player whose box lies inside the viewport is proposed a box inside
      the viewport, at most one step away along one axis. */
  lemma ProposeStaysInViewport(key: string, x: int, y: int, w: int, h: int, viewW: int, viewH: int)
    requires 0 <= x && x + w <= viewW && 0 <= y && y + h <= viewH
    ensures var p := Propose(key, x, y, w, h, viewW, viewH);
      0 <= p.0 && p.0 + w <= viewW && 0 <= p.1 && p.1 + h <= viewH &&
      (p.0 == x || p.1 == y) &&
      x - Step <= p.0 <= x + Step && y - Step <= p.1 <= y + Step
  {
  }

  /** Boxes that only share an edge with a wall do not collide with it. */
  lemma TouchingIsNoCollision(x: int, y: int, w: int, h: int, wall: Rect)
    requires x == wall.right || x + w == wall.left || y == wall.bottom || y + h == wall.top
    ensures !Overlaps(x, y, w, h, wall)
  {
  }

  /** `r` has no negative width or height. */
  predicate WellFormed(r: Rect) {
    r.left <= r.right && r.top <= r.bottom
  }

  /** A player box that shares an edge with the cheese, on any of the four
      sides, wins. */
  lemma TouchingCheeseWins(player: Rect, cheese: Rect)
    requires WellFormed(player) && WellFormed(cheese)
    requires
      ((player.bottom == cheese.top || player.top == cheese.bottom) &&
       player.left <= cheese.right && cheese.left <= player.right) ||
      ((player.right == cheese.left || player.left == cheese.right) &&
       player.top <= cheese.bottom && cheese.top <= player.bottom)
    ensures Wins(player, cheese)
  {
  }

  /** Point `(px, py)` lies in `r`, edges included. */
  predicate HasPoint(r: Rect, px: int, py: int) {
    r.left <= px <= r.right && r.top <= py <= r.bottom
  }

  /** Pixel `(px, py)`, the unit square with that top-left corner, lies in `r`. */
  predicate HasPixel(r: Rect, px: int, py: int) {
    r.left <= px < r.right && r.top <= py < r.bottom
  }

  /** The win test holds exactly when the two closed boxes share a point. */
  lemma WinsIffSharedPoint(player: Rect, cheese: Rect)
    requires WellFormed(player) && WellFormed(cheese)
    ensures Wins(player, cheese) <==>
      exists px, py :: HasPoint(player, px, py) && HasPoint(cheese, px, py)
  {
    if Wins(player, cheese) {
      var px := Max(player.left, cheese.left);
      var py := Max(player.top, cheese.top);
      assert HasPoint(player, px, py) && HasPoint(cheese, px, py);
    }
  }

  /** For a player box and a wall of positive size, the wall test holds
      exactly when they share a pixel. */
  lemma OverlapsIffSharedPixel(x: int, y: int, w: int, h: int, wall: Rect)
    requires 0 < w && 0 < h && wall.left < wall.right && wall.top < wall.bottom
    ensures Overlaps(x, y, w, h, wall) <==>
      exists px, py :: HasPixel(BoxAt(x, y, w, h), px, py) && HasPixel(wall, px, py)
  {
    if Overlaps(x, y, w, h, wall) {
      var px := Max(x, wall.left);
      var py := Max(y, wall.top);
      assert HasPixel(BoxAt(x, y, w, h), px, py) && HasPixel(wall, px, py);
    }
  }

  /** A collision with a list of walls is a collision with its first part or
      its second: the answer does not depend on where in the list the wall is. */
  lemma CollidesConcat(x: int, y: int, w: int, h: int, walls: seq<Rect>, more: seq<Rect>)
    ensures Collides(x, y, w, h, walls + more) <==>
      Collides(x, y, w, h, walls) || Collides(x, y, w, h, more)
  {
    var all := walls + more;
    if Collides(x, y, w, h, all) {
      var i :| 0 <= i < |all| && Overlaps(x, y, w, h, all[i]);
      if i >= |walls| {
        assert more[i - |walls|] == all[i];
      }
    }
    if Collides(x, y, w, h, more) {
      var i :| 0 <= i < |more| && Overlaps(x, y, w, h, more[i]);
      assert all[|walls| + i] == more[i];
    }
    if Collides(x, y, w, h, walls) {
      var i :| 0 <= i < |walls| && Overlaps(x, y, w, h, walls[i]);
      assert all[i] == walls[i];
    }
  }

  /** Scans the walls in order and stops at the first one the box overlaps. */
  method CheckCollision(x: int, y: int, w: int, h: int, walls: seq<Rect>) returns (hit: bool)
    ensures hit <==> exists i :: 0 <= i < |walls| && Overlaps(x, y, w, h, walls[i])
  {
    for i := 0 to |walls|
      invariant forall j :: 0 <= j < i ==> !Overlaps(x, y, w, h, walls[j])
    {
      if Overlaps(x, y, w, h, walls[i]) {
        return true;
      }
    }
    return false;
  }

  /** The page: the player box, the walls and the cheese. Only the player's
      position changes. */
  class Game {
    var x: int
    var y: int
    const width: int
    const height: int
    const walls: seq<Rect>
    /** `None` when the page has no cheese element. */
    const cheese: Option<Rect>

    /** The player's current bounding box. */
    function Box(): Rect
      reads this
    {
      BoxAt(x, y, width, height)
    }

    /** Page load: the player is placed at the initial position. */
    constructor (width: int, height: int, walls: seq<Rect>, cheese: Option<Rect>)
      ensures x == InitialX && y == InitialY
      ensures this.width == width && this.height == height
      ensures this.walls == walls && this.cheese == cheese
    {
      this.width := width;
      this.height := height;
      this.walls := walls;
      this.cheese := cheese;
      x := InitialX;
      y := InitialY;
    }

    /** One key press in a `viewW` by `viewH` window. The proposed position is
        committed only when it collides with no wall, and only after a
        committed move is the win test made, on the box the player had
        before the move. `won` says whether the win message is shown. */
    method Move(key: string, viewW: int, viewH: int) returns (won: bool)
      modifies this
      ensures cheese.None? ==> x == old(x) && y == old(y) && !won
      ensures cheese.Some? ==>
        var p := Propose(key, old(x), old(y), width, height, viewW, viewH);
        if Collides(p.0, p.1, width, height, walls) then
          x == old(x) && y == old(y) && !won
        else
          x == p.0 && y == p.1 &&
          won == Wins(BoxAt(old(x), old(y), width, height), cheese.value)
      // a player clear of every wall stays clear of every wall
      ensures !Collides(old(x), old(y), width, height, walls) ==> !Collides(x, y, width, height, walls)
    {
      won := false;
      if cheese.None? {
        return;
      }
      var before := Box();
      var p := Propose(key, x, y, width, height, viewW, viewH);
      var hit := CheckCollision(p.0, p.1, width, height, walls);
      if !hit {
        x, y := p.0, p.1;
        won := Wins(before, cheese.value);
      }
    }
  }
}
