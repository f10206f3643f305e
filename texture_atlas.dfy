/** The texture atlas packer: a first-fit placer of rectangles inside one
    fixed-size texture, keeping a one-pixel gap around every texture. */
module TextureAtlas {
  import opened Ints
  import opened Options

  /** `TextureRect = [u32; 4]`: left, top, right, bottom. */
  datatype Rect = Rect(x0: int, y0: int, x1: int, y1: int)

  predicate IsU32Rect(r: Rect) {
    IsU32(r.x0) && IsU32(r.y0) && IsU32(r.x1) && IsU32(r.y1)
  }

  /** A rectangle that covers at least one column of pixels. */
  predicate Wide(r: Rect) {
    r.x0 < r.x1
  }

  /** Every stored rectangle is in this range: at least one pixel in from the
      left and top edges and strictly left of / above the right and bottom ones. */
  predicate Inside(r: Rect, width: int, height: int) {
    1 <= r.x0 <= r.x1 < width && 1 <= r.y0 <= r.y1 < height
  }

  /** At least one pixel of empty space lies between `a` and `b` on some axis. */
  predicate Separated(a: Rect, b: Rect) {
    a.x1 < b.x0 || b.x1 < a.x0 || a.y1 < b.y0 || b.y1 < a.y0
  }

  /** The `pad` closure: grow by one pixel on every side. On `u32` this panics
      (debug build) when a low edge is 0 or a high edge is `u32::MAX`; that is
      `None` here. */
  function Pad(r: Rect): (p: Option<Rect>)
    requires IsU32Rect(r)
    ensures p.Some? <==> 1 <= r.x0 && 1 <= r.y0 && r.x1 + 1 < U32_LIMIT && r.y1 + 1 < U32_LIMIT
    ensures p.Some? ==> IsU32Rect(p.value) && Unpad(p.value) == Some(r)
  {
    if 1 <= r.x0 && 1 <= r.y0 && r.x1 + 1 < U32_LIMIT && r.y1 + 1 < U32_LIMIT then
      Some(Rect(r.x0 - 1, r.y0 - 1, r.x1 + 1, r.y1 + 1))
    else
      None
  }

  /** The `unpad` closure: shrink by one pixel on every side, `None` where `u32`
      arithmetic would leave its range. */
  function Unpad(r: Rect): (u: Option<Rect>)
    requires IsU32Rect(r)
    ensures u.Some? <==> 1 <= r.x1 && 1 <= r.y1 && r.x0 + 1 < U32_LIMIT && r.y0 + 1 < U32_LIMIT
    ensures u.Some? ==> u.value.x1 - u.value.x0 == r.x1 - r.x0 - 2 && u.value.y1 - u.value.y0 == r.y1 - r.y0 - 2
  {
    if 1 <= r.x1 && 1 <= r.y1 && r.x0 + 1 < U32_LIMIT && r.y0 + 1 < U32_LIMIT then
      Some(Rect(r.x0 + 1, r.y0 + 1, r.x1 - 1, r.y1 - 1))
    else
      None
  }

  /** The overlap filter exactly as written: the second test compares the
      stored rectangle's right edge with its own left edge, where a test of the
      candidate's right edge against the stored left edge was meant. So every
      stored rectangle to the right of the candidate, in its band of rows, counts
      as overlapping, and a stored rectangle without width never does. */
  predicate FilterHit(t1: Rect, t2: Rect) {
    !(t1.x0 >= t2.x1 || t2.x1 <= t2.x0 || t1.y0 >= t2.y1 || t1.y1 <= t2.y0)
  }

  /** What the filter was meant to be: the interiors of `a` and `b` meet. */
  predicate Intersects(a: Rect, b: Rect) {
    a.x0 < b.x1 && b.x0 < a.x1 && a.y0 < b.y1 && b.y0 < a.y1
  }

  /** How the source ends a call of `add_texture`. */
  datatype Placement =
    | Placed(rect: Rect)
      /** `Err("Texture atlas overflow")` */
    | AtlasOverflow
      /** panic: `self.size.1 - size.1` or `self.size.0 - size.0` underflows */
    | SizeUnderflow
      /** panic: `pad` computes `0 - 1` on the row-restart cursor `x = 0` at row `y` */
    | PadUnderflow(y: int)

  /** The stored rectangles of an atlas of the given size: each lies inside
      the atlas with its top edge on row 1, and any two with width are at
      least one pixel apart. */
  predicate Packed(rs: seq<Rect>, width: int, height: int) {
    && (forall i :: 0 <= i < |rs| ==> Inside(rs[i], width, height) && rs[i].y0 == 1)
    && (forall i, j ::
          (0 <= i < |rs| && 0 <= j < |rs| && i != j && Wide(rs[i]) && Wide(rs[j])) ==> Separated(rs[i], rs[j]))
  }

  /** Two stored rectangles with width never overlap. */
  lemma PackedNoOverlap(rs: seq<Rect>, width: int, height: int, i: nat, j: nat)
    requires Packed(rs, width, height) && i < |rs| && j < |rs| && i != j && Wide(rs[i]) && Wide(rs[j])
    ensures !Intersects(rs[i], rs[j])
  {
  }

  predicate HasWide(rs: seq<Rect>) {
    exists i :: 0 <= i < |rs| && Wide(rs[i])
  }

  /** The right edge furthest to the right among the rectangles with width,
      0 when there are none. */
  function RightmostEdge(rs: seq<Rect>): (e: int)
    ensures forall i :: 0 <= i < |rs| && Wide(rs[i]) ==> rs[i].x1 <= e
    ensures HasWide(rs) ==> exists i :: 0 <= i < |rs| && Wide(rs[i]) && rs[i].x1 == e
    ensures !HasWide(rs) ==> e == 0
    decreases |rs|
  {
    if rs == [] then 0
    else
      var init := rs[..|rs| - 1];
      var e := RightmostEdge(init);
      var r := rs[|rs| - 1];
      assert forall i :: 0 <= i < |rs| - 1 ==> init[i] == rs[i];
      if Wide(r) && (r.x1 > e || !HasWide(init)) then r.x1 else e
  }

  /** One row below the highest bottom edge among the rectangles with width,
      and `height` when that is lower or there are none. */
  function LowestBottom(rs: seq<Rect>, height: int): (b: int)
    ensures b <= height
    ensures forall i :: 0 <= i < |rs| && Wide(rs[i]) ==> b <= rs[i].y1 + 1
    ensures b == height || exists i :: 0 <= i < |rs| && Wide(rs[i]) && b == rs[i].y1 + 1
    decreases |rs|
  {
    if rs == [] then height
    else
      var b := LowestBottom(rs[..|rs| - 1], height);
      var r := rs[|rs| - 1];
      assert forall i :: 0 <= i < |rs| - 1 ==> rs[..|rs| - 1][i] == rs[i];
      if Wide(r) && r.y1 + 1 < b then r.y1 + 1 else b
  }

  /** What `add_texture` does to an atlas whose rectangles are `Packed`,
      in closed form. The size checks come first, in the order the loop
      conditions evaluate them. Then the cursor starts at (1, 1), is pushed
      once past the rightmost texture, and the texture is placed there if it
      still fits the row. Otherwise the loop restarts at `x = 0` on the row
      below the highest bottom edge, where `pad` underflows, unless that row
      no longer fits the texture. */
  function FirstFit(rs: seq<Rect>, width: int, height: int, w: int, h: int): Placement {
    if h > height then SizeUnderflow
    else if height - h <= 1 then AtlasOverflow
    else if w > width then SizeUnderflow
    else if width - w <= 1 then AtlasOverflow
    else
      var x := RightmostEdge(rs) + 1;
      if x < width - w then Placed(Rect(x, 1, x + w, 1 + h))
      else
        var y := LowestBottom(rs, height);
        if y < height - h then PadUnderflow(y) else AtlasOverflow
  }

  /** The cursor after one pass of the overlap loop that starts at `x`: each
      rectangle the filter lets through pushes the cursor past its right edge,
      if it is not already there. */
  function PassX(rs: seq<Rect>, t1: Rect, x: int): int
    decreases |rs|
  {
    if rs == [] then x
    else
      var x' := PassX(rs[..|rs| - 1], t1, x);
      var r := rs[|rs| - 1];
      if FilterHit(t1, r) && r.x1 > x' then r.x1 + 1 else x'
  }

  /** `next_y` after one pass that starts with `nextY`: each rectangle the
      filter lets through lowers it to the row below its bottom edge. */
  function PassY(rs: seq<Rect>, t1: Rect, nextY: int): int
    decreases |rs|
  {
    if rs == [] then nextY
    else
      var y' := PassY(rs[..|rs| - 1], t1, nextY);
      var r := rs[|rs| - 1];
      if FilterHit(t1, r) && r.y1 < y' then r.y1 + 1 else y'
  }

  /** One pass of the `for rect in overlap` loop over the stored rectangles. */
  method ScanOverlaps(rects: seq<Rect>, t1: Rect, x0: int, nextY0: int) returns (x: int, nextY: int, anyIntersect: bool)
    ensures x == PassX(rects, t1, x0) && nextY == PassY(rects, t1, nextY0)
    ensures anyIntersect <==> exists k :: 0 <= k < |rects| && FilterHit(t1, rects[k])
  {
    x, nextY, anyIntersect := x0, nextY0, false;
    var j := 0;
    while j < |rects|
      invariant 0 <= j <= |rects|
      invariant x == PassX(rects[..j], t1, x0) && nextY == PassY(rects[..j], t1, nextY0)
      invariant anyIntersect <==> exists k :: 0 <= k < j && FilterHit(t1, rects[k])
    {
      var rect := rects[j];
      assert rects[..j + 1][..j] == rects[..j];
      if FilterHit(t1, rect) {
        if rect.y1 < nextY {
          nextY := rect.y1 + 1;
        }
        if rect.x1 > x {
          x := rect.x1 + 1;
        }
        anyIntersect := true;
      }
      j := j + 1;
    }
    assert rects[..|rects|] == rects;
  }

  /** In row 1 the filter lets through exactly the stored rectangles with
      width whose right edge is at or right of the cursor. */
  lemma RowOneHit(r: Rect, width: int, height: int, x: int, w: int, h: int)
    requires Inside(r, width, height) && r.y0 == 1 && 1 <= x && 0 <= h
    requires IsU32Rect(Rect(x, 1, x + w, 1 + h)) && Pad(Rect(x, 1, x + w, 1 + h)).Some?
    ensures FilterHit(Pad(Rect(x, 1, x + w, 1 + h)).value, r) <==> Wide(r) && x <= r.x1
  {
  }

  /** During the first pass of row 1 every rectangle with width seen so far
      lies left of the cursor, and the cursor is 1 or just past one of them.
      An edge exactly at the cursor would touch that rectangle, which `Packed`
      rules out. */
  lemma {:induction false} FirstPassInvariant(rs: seq<Rect>, width: int, height: int, w: int, h: int)
    requires Packed(rs, width, height) && 0 <= h
    requires IsU32Rect(Rect(1, 1, 1 + w, 1 + h)) && Pad(Rect(1, 1, 1 + w, 1 + h)).Some?
    ensures var x := PassX(rs, Pad(Rect(1, 1, 1 + w, 1 + h)).value, 1);
      && (forall i :: 0 <= i < |rs| && Wide(rs[i]) ==> rs[i].x1 < x)
      && (x == 1 || exists i :: 0 <= i < |rs| && Wide(rs[i]) && x == rs[i].x1 + 1)
    decreases |rs|
  {
    if rs != [] {
      var init := rs[..|rs| - 1];
      var r := rs[|rs| - 1];
      var t1 := Pad(Rect(1, 1, 1 + w, 1 + h)).value;
      assert forall i :: 0 <= i < |init| ==> init[i] == rs[i];
      assert Packed(init, width, height);
      FirstPassInvariant(init, width, height, w, h);
      var x' := PassX(init, t1, 1);
      RowOneHit(r, width, height, 1, w, h);
      if Wide(r) && x' < r.x1 {
        assert PassX(rs, t1, 1) == r.x1 + 1;
      } else {
        assert PassX(rs, t1, 1) == x';
        if Wide(r) && x' != 1 {
          var i :| 0 <= i < |init| && Wide(init[i]) && x' == init[i].x1 + 1;
          assert Separated(rs[i], r);
        }
      }
    }
  }

  /** The first pass of row 1 pushes the cursor to one past the rightmost
      edge, and `next_y` to one row below the highest bottom edge. */
  lemma {:induction false} FirstPass(rs: seq<Rect>, width: int, height: int, w: int, h: int)
    requires Packed(rs, width, height) && 0 <= h
    requires IsU32Rect(Rect(1, 1, 1 + w, 1 + h)) && Pad(Rect(1, 1, 1 + w, 1 + h)).Some?
    ensures var t1 := Pad(Rect(1, 1, 1 + w, 1 + h)).value;
      && PassX(rs, t1, 1) == RightmostEdge(rs) + 1
      && PassY(rs, t1, height) == LowestBottom(rs, height)
    decreases |rs|
  {
    var t1 := Pad(Rect(1, 1, 1 + w, 1 + h)).value;
    FirstPassInvariant(rs, width, height, w, h);
    if HasWide(rs) {
      var i :| 0 <= i < |rs| && Wide(rs[i]) && rs[i].x1 == RightmostEdge(rs);
      assert Inside(rs[i], width, height);
    }
    FirstPassBottom(rs, width, height, w, h);
  }

  lemma {:induction false} FirstPassBottom(rs: seq<Rect>, width: int, height: int, w: int, h: int)
    requires forall i :: 0 <= i < |rs| ==> Inside(rs[i], width, height) && rs[i].y0 == 1
    requires 0 <= h && IsU32Rect(Rect(1, 1, 1 + w, 1 + h)) && Pad(Rect(1, 1, 1 + w, 1 + h)).Some?
    ensures PassY(rs, Pad(Rect(1, 1, 1 + w, 1 + h)).value, height) == LowestBottom(rs, height)
    decreases |rs|
  {
    if rs != [] {
      var init := rs[..|rs| - 1];
      assert forall i :: 0 <= i < |init| ==> init[i] == rs[i];
      FirstPassBottom(init, width, height, w, h);
      RowOneHit(rs[|rs| - 1], width, height, 1, w, h);
    }
  }

  /** What a pass of row 1 finds: at the start some rectangle is hit iff one
      has width; one past the rightmost edge nothing is hit. */
  lemma RowOnePass(rs: seq<Rect>, width: int, height: int, x: int, w: int, h: int)
    requires Packed(rs, width, height) && 0 <= h
    requires x == 1 || (HasWide(rs) && x == RightmostEdge(rs) + 1)
    requires IsU32Rect(Rect(x, 1, x + w, 1 + h)) && Pad(Rect(x, 1, x + w, 1 + h)).Some?
    ensures var t1 := Pad(Rect(x, 1, x + w, 1 + h)).value;
      (exists k :: 0 <= k < |rs| && FilterHit(t1, rs[k])) <==> x == 1 && HasWide(rs)
  {
    var t1 := Pad(Rect(x, 1, x + w, 1 + h)).value;
    forall k | 0 <= k < |rs|
      ensures FilterHit(t1, rs[k]) <==> Wide(rs[k]) && x <= rs[k].x1
    {
      RowOneHit(rs[k], width, height, x, w, h);
    }
    if x == 1 && HasWide(rs) {
      var i :| 0 <= i < |rs| && Wide(rs[i]);
      assert FilterHit(t1, rs[i]);
    }
  }

  /** Placing at the cursor one past the rightmost edge of row 1 is what
      `FirstFit` does, and the atlas stays `Packed`. */
  lemma PlaceInRowOne(rs: seq<Rect>, width: int, height: int, x: int, w: int, h: int)
    requires Packed(rs, width, height) && 0 <= w && 0 <= h && 1 < height - h && w <= width
    requires 1 <= x < width - w && x == RightmostEdge(rs) + 1
    ensures FirstFit(rs, width, height, w, h) == Placed(Rect(x, 1, x + w, 1 + h))
    ensures Packed(rs + [Rect(x, 1, x + w, 1 + h)], width, height)
  {
    var rs' := rs + [Rect(x, 1, x + w, 1 + h)];
    assert forall i :: 0 <= i < |rs| ==> rs'[i] == rs[i];
  }

  /** Leaving row 1 after the only pass and restarting at `x = 0`: `pad`
      underflows, as `FirstFit` says. */
  lemma RestartUnderflows(rs: seq<Rect>, width: int, height: int, y: int, w: int, h: int)
    requires 0 <= h && h <= height && w <= width && 1 < width - w
    requires HasWide(rs) && width - w <= RightmostEdge(rs) + 1
    requires y == LowestBottom(rs, height) && 1 < y < height - h
    ensures FirstFit(rs, width, height, w, h) == PadUnderflow(y)
  {
  }

  /** The outer loop ends without a placement: `FirstFit` overflows too. */
  lemma LoopEndOverflows(rs: seq<Rect>, width: int, height: int, y: int, w: int, h: int)
    requires 0 <= h && h <= height && 1 <= y && height - h <= y
    requires 1 < y ==> w <= width
    requires 1 < y ==>
               || (width - w <= 1 && y == height)
               || (1 < width - w && HasWide(rs) && width - w <= RightmostEdge(rs) + 1 && y == LowestBottom(rs, height))
    ensures FirstFit(rs, width, height, w, h) == AtlasOverflow
  {
  }

  /** In a packed atlas the rightmost edge of a texture with width is at
      least 2, and the row below the highest bottom edge is at least 2. */
  lemma PackedBounds(rs: seq<Rect>, width: int, height: int)
    requires Packed(rs, width, height)
    ensures HasWide(rs) ==> 2 <= RightmostEdge(rs) < width
    ensures 1 < height ==> 1 < LowestBottom(rs, height)
  {
    if HasWide(rs) {
      var i :| 0 <= i < |rs| && Wide(rs[i]) && rs[i].x1 == RightmostEdge(rs);
      assert Inside(rs[i], width, height);
    }
    if 1 < height && LowestBottom(rs, height) != height {
      var i :| 0 <= i < |rs| && Wide(rs[i]) && LowestBottom(rs, height) == rs[i].y1 + 1;
      assert Inside(rs[i], width, height);
    }
  }

  /** One pass of the inner loop in row 1, from either of the two cursors
      row 1 ever has: with the cursor at 1 every texture with width is hit,
      which moves the cursor one past the rightmost edge and `next_y` to the
      row below the highest bottom edge; from there nothing is hit. */
  method RowOneStep(rs: seq<Rect>, width: int, height: int, x0: int, w: int, h: int, nextY0: int)
    returns (x: int, nextY: int, anyIntersect: bool)
    requires Packed(rs, width, height) && 0 <= h
    requires (x0 == 1 && nextY0 == height) || (HasWide(rs) && x0 == RightmostEdge(rs) + 1)
    requires IsU32Rect(Rect(x0, 1, x0 + w, 1 + h)) && Pad(Rect(x0, 1, x0 + w, 1 + h)).Some?
    ensures anyIntersect <==> x0 == 1 && HasWide(rs)
    ensures anyIntersect ==> x == RightmostEdge(rs) + 1 && nextY == LowestBottom(rs, height)
  {
    var t1 := Pad(Rect(x0, 1, x0 + w, 1 + h)).value;
    RowOnePass(rs, width, height, x0, w, h);
    if x0 == 1 {
      FirstPass(rs, width, height, w, h);
    }
    x, nextY, anyIntersect := ScanOverlaps(rs, t1, x0, nextY0);
  }

  /** A placement happens iff the texture fits inside the border with room
      to the right of every stored texture. */
  lemma FirstFitPlacedIff(rs: seq<Rect>, width: int, height: int, w: int, h: int)
    requires 0 <= w && 0 <= h
    ensures FirstFit(rs, width, height, w, h).Placed? <==>
      h + 1 < height && w + 1 < width && RightmostEdge(rs) + 1 < width - w
  {
  }

  /** A placed rectangle has the requested size, lies in row 1 strictly
      inside the atlas, passes the as-written filter against every stored
      rectangle and lies right of every stored rectangle with width, so the
      atlas stays `Packed`. */
  lemma FirstFitPlaced(rs: seq<Rect>, width: int, height: int, w: int, h: int)
    requires Packed(rs, width, height) && IsU32(width) && IsU32(height) && IsU32(w) && IsU32(h)
    requires FirstFit(rs, width, height, w, h).Placed?
    ensures var r := FirstFit(rs, width, height, w, h).rect;
      && r.x1 - r.x0 == w && r.y1 - r.y0 == h && r.y0 == 1
      && Inside(r, width, height) && IsU32Rect(r) && Pad(r).Some?
      && (forall k :: 0 <= k < |rs| ==> !FilterHit(Pad(r).value, rs[k]))
      && (forall k :: 0 <= k < |rs| && Wide(rs[k]) ==> rs[k].x1 < r.x0 && Separated(r, rs[k]))
      && Packed(rs + [r], width, height)
  {
    var x := RightmostEdge(rs) + 1;
    PackedBounds(rs, width, height);
    PlaceInRowOne(rs, width, height, x, w, h);
    forall k | 0 <= k < |rs|
      ensures !FilterHit(Pad(Rect(x, 1, x + w, 1 + h)).value, rs[k])
    {
      RowOneHit(rs[k], width, height, x, w, h);
    }
  }

  /** `SizeUnderflow` exactly when one of the size subtractions of the loop
      conditions underflows. */
  lemma FirstFitSizeUnderflow(rs: seq<Rect>, width: int, height: int, w: int, h: int)
    ensures FirstFit(rs, width, height, w, h).SizeUnderflow? <==>
      h > height || (1 < height - h && w > width)
  {
  }

  /** A texture that leaves no room inside the one-pixel border overflows. */
  lemma FirstFitTooLarge(rs: seq<Rect>, width: int, height: int, w: int, h: int)
    requires h <= height && (height - h <= 1 || (w <= width && width - w <= 1))
    ensures FirstFit(rs, width, height, w, h) == AtlasOverflow
  {
  }

  /** `PadUnderflow` happens only when a stored texture with width leaves no
      room in row 1, on the row just below the lowest-ending such texture. */
  lemma FirstFitPadUnderflow(rs: seq<Rect>, width: int, height: int, w: int, h: int)
    requires Packed(rs, width, height) && 0 <= h
    requires FirstFit(rs, width, height, w, h).PadUnderflow?
    ensures var y := FirstFit(rs, width, height, w, h).y;
      && 1 < y < height - h && w < width
      && (exists i :: 0 <= i < |rs| && Wide(rs[i]) && y == rs[i].y1 + 1)
      && (exists i :: 0 <= i < |rs| && Wide(rs[i]) && width - w <= rs[i].x1 + 1)
      && (forall i :: 0 <= i < |rs| && Wide(rs[i]) ==> y <= rs[i].y1 + 1)
  {
    PackedBounds(rs, width, height);
    var y := LowestBottom(rs, height);
    assert y < height - h && !(RightmostEdge(rs) + 1 < width - w);
  }

  /** An empty atlas places a texture that fits at (1, 1). */
  lemma FirstFitEmpty(width: int, height: int, w: int, h: int)
    requires 0 <= w && w < width - 1 && 0 <= h && h < height - 1
    ensures FirstFit([], width, height, w, h) == Placed(Rect(1, 1, 1 + w, 1 + h))
  {
  }

  /** A second texture goes right of the first one, past a one-pixel gap. */
  lemma FirstFitSecondTexture()
    ensures FirstFit([Rect(1, 1, 3, 3)], 100, 100, 2, 2) == Placed(Rect(4, 1, 6, 3))
  {
    assert RightmostEdge([Rect(1, 1, 3, 3)]) == 3 by {
      assert [Rect(1, 1, 3, 3)][..0] == [];
    }
  }

  class Atlas {
    const width: int
    const height: int
    var textureRects: seq<Rect>

    /** The sizes are `u32` and the stored rectangles are `Packed`. */
    ghost predicate Valid()
      reads this
    {
      IsU32(width) && IsU32(height) && Packed(textureRects, width, height)
    }

    /** `TextureAtlas::new` */
    constructor (width: int, height: int)
      requires IsU32(width) && IsU32(height)
      ensures Valid()
      ensures this.width == width && this.height == height && textureRects == []
    {
      this.width := width;
      this.height := height;
      textureRects := [];
    }

    /** `TextureAtlas::add_texture((w, h))`: the outcome is `FirstFit`, and a
        placed rectangle is stored. */
    method AddTexture(w: int, h: int) returns (res: Placement)
      requires Valid() && IsU32(w) && IsU32(h)
      modifies this
      ensures Valid()
      ensures res == FirstFit(old(textureRects), width, height, w, h)
      ensures res.Placed? ==> textureRects == old(textureRects) + [res.rect]
      ensures !res.Placed? ==> textureRects == old(textureRects)
    {
      // `self.size.1 - size.1` is evaluated by the first test of the outer loop
      if h > height {
        return SizeUnderflow;
      }
      var y := 1;
      var x := 1;
      var coords: Option<Rect> := None;
      PackedBounds(textureRects, width, height);
      ghost var edge := RightmostEdge(textureRects);
      ghost var bottom := LowestBottom(textureRects, height);
      ghost var wide := HasWide(textureRects);
      label outer: while y < height - h
        invariant 1 <= y
        invariant coords == None && textureRects == old(textureRects)
        invariant y == 1 ==> x == 1
        invariant 1 < y ==> x == 0 && w <= width
        invariant 1 < y ==>
                    || (width - w <= 1 && y == height)
                    || (1 < width - w && wide && width - w <= edge + 1 && y == bottom)
        decreases height - y
      {
        var nextY := height;
        // `self.size.0 - size.0` is evaluated by the first test of the inner loop
        if w > width {
          return SizeUnderflow;
        }
        while x < width - w
          invariant coords == None && textureRects == old(textureRects)
          invariant 1 < y ==> x == 0
          invariant y == 1 ==>
                      || (x == 1 && nextY == height)
                      || (1 < width - w && wide && x == edge + 1 && nextY == bottom)
          decreases width - x
        {
          var padded := Pad(Rect(x, y, x + w, y + h));
          if padded.None? {
            RestartUnderflows(textureRects, width, height, y, w, h);
            return PadUnderflow(y);
          }
          var t1 := padded.value;
          var xStart := x;
          var anyIntersect;
          x, nextY, anyIntersect := RowOneStep(textureRects, width, height, x, w, h, nextY);
          if !anyIntersect {
            PlaceInRowOne(textureRects, width, height, xStart, w, h);
            coords := Unpad(t1);
            assert coords == Some(Rect(xStart, 1, xStart + w, 1 + h));
            break outer;
          }
        }
        x := 0;
        y := nextY;
      }

      match coords
      case Some(c) =>
        textureRects := textureRects + [c];
        res := Placed(c);
      case None =>
        LoopEndOverflows(textureRects, width, height, y, w, h);
        res := AtlasOverflow;
    }
  }
}
