/** Sprites cut out of the texture atlas and the two-triangle quads that draw
    atlas rectangles. Floating-point coordinates are modelled as reals. */
module Graphics {
  import opened Ints
  import opened TextureAtlas
  import opened Geometry

  /** `TEXTURE_ATLAS_SIZE`: the atlas texture is 1024 by 1024 pixels. */
  const ATLAS_WIDTH: int := 1024
  const ATLAS_HEIGHT: int := 1024

  /** `Box2D<f32>`: the two opposite corners. */
  datatype Box2 = Box2(min: Point2, max: Point2)

  datatype Color = Color(r: real, g: real, b: real, a: real)

  datatype Vertex = Vertex(position: Point2, uv: Point2, color: Color)

  /** A sprite: its frames, left to right, and its origin. */
  datatype Sprite = Sprite(frames: seq<Rect>, frameCount: nat, origin: Point2)

  /** The outcome of `Sprite::new`. The two panics of a debug build, in the
      order the source meets them: `image[2] - image[0]` below zero, then
      `width / frame_count` with no frames. */
  datatype SpriteOutcome = Built(sprite: Sprite) | WidthUnderflow | DivideByZero

  lemma MulMono(a: nat, b: nat, c: nat)
    requires a <= b
    ensures a * c <= b * c
  {
  }

  /** `Sprite::new`: cut `image` into `frameCount` frames of equal width,
      left to right. */
  function NewSprite(image: Rect, frameCount: nat, origin: Point2): (r: SpriteOutcome)
    requires IsU32Rect(image) && IsU32(frameCount)
    ensures r.WidthUnderflow? <==> image.x1 < image.x0
    ensures r.DivideByZero? <==> image.x0 <= image.x1 && frameCount == 0
    ensures r.Built? ==> |r.sprite.frames| == frameCount == r.sprite.frameCount && r.sprite.origin == origin
  {
    if image.x1 < image.x0 then WidthUnderflow
    else if frameCount == 0 then DivideByZero
    else
      var fw := (image.x1 - image.x0) / frameCount;
      Built(Sprite(seq(frameCount, i => Rect(image.x0 + i * fw, image.y0, image.x0 + (i + 1) * fw, image.y1)),
                   frameCount, origin))
  }

  /** The width every frame gets: the image width divided by the frame count,
      rounded down. */
  function FrameWidth(image: Rect, frameCount: nat): nat
    requires image.x0 <= image.x1 && frameCount > 0
  {
    (image.x1 - image.x0) / frameCount
  }

  /** Every frame has the same width and the image's whole vertical span, and
      the frames lie side by side with no gap, from the image's left edge. */
  lemma {:induction false} FramesTile(image: Rect, frameCount: nat, origin: Point2, i: nat)
    requires IsU32Rect(image) && IsU32(frameCount) && NewSprite(image, frameCount, origin).Built?
    requires i < frameCount
    ensures var f := NewSprite(image, frameCount, origin).sprite.frames;
      && f[i].x1 - f[i].x0 == FrameWidth(image, frameCount)
      && f[i].y0 == image.y0 && f[i].y1 == image.y1
      && (i == 0 ==> f[i].x0 == image.x0)
      && (i + 1 < frameCount ==> f[i].x1 == f[i + 1].x0)
  {
    var fw := FrameWidth(image, frameCount);
    assert (i + 1) * fw == i * fw + fw;
  }

  /** All frames lie inside the image, and fewer than `frameCount` columns are
      left over on the right. */
  lemma {:induction false} FramesInsideImage(image: Rect, frameCount: nat, origin: Point2, i: nat)
    requires IsU32Rect(image) && IsU32(frameCount) && NewSprite(image, frameCount, origin).Built?
    requires i < frameCount
    ensures var f := NewSprite(image, frameCount, origin).sprite.frames;
      && image.x0 <= f[i].x0 <= f[i].x1 <= image.x1
      && IsU32Rect(f[i])
      && image.x1 - f[frameCount - 1].x1 < frameCount
  {
    var fw := FrameWidth(image, frameCount);
    var width := image.x1 - image.x0;
    assert width == frameCount * fw + width % frameCount;
    MulMono(i + 1, frameCount, fw);
    assert (i + 1) * fw == i * fw + fw;
  }

  /** Two different frames never overlap: an earlier frame ends where or
      before a later one starts. */
  lemma {:induction false} FramesDisjoint(image: Rect, frameCount: nat, origin: Point2, i: nat, j: nat)
    requires IsU32Rect(image) && IsU32(frameCount) && NewSprite(image, frameCount, origin).Built?
    requires i < j < frameCount
    ensures var f := NewSprite(image, frameCount, origin).sprite.frames;
      f[i].x1 <= f[j].x0
  {
    MulMono(i + 1, j, FrameWidth(image, frameCount));
  }

  /** The texture rectangle of a quad in atlas coordinates, 0 to 1 on each axis:
      its top-left corner and its bottom-right one. */
  function UvMin(tex: Rect): Point2 {
    Point2(tex.x0 as real / ATLAS_WIDTH as real, tex.y0 as real / ATLAS_HEIGHT as real)
  }

  function UvMax(tex: Rect): Point2 {
    Point2(UvMin(tex).x + (tex.x1 - tex.x0) as real / ATLAS_WIDTH as real,
           UvMin(tex).y + (tex.y1 - tex.y0) as real / ATLAS_HEIGHT as real)
  }

  /** One corner of a quad: `right` picks `max.x` over `min.x` and `bottom`
      picks `max.y` over `min.y`. The texture is drawn upside down: the
      `min.y` row of the box gets the texture's `max.y` row. */
  function Corner(rect: Box2, tex: Rect, color: Color, right: bool, bottom: bool): Vertex {
    Vertex(Point2(if right then rect.max.x else rect.min.x, if bottom then rect.max.y else rect.min.y),
           Point2(if right then UvMax(tex).x else UvMin(tex).x, if bottom then UvMin(tex).y else UvMax(tex).y),
           color)
  }

  /** The six vertices `render_quad` appends: two triangles. */
  function QuadVertices(rect: Box2, tex: Rect, color: Color): (v: seq<Vertex>)
    ensures |v| == 6
    ensures forall k :: 0 <= k < 6 ==> v[k].color == color
  {
    [Corner(rect, tex, color, false, false), Corner(rect, tex, color, true, false),
     Corner(rect, tex, color, false, true), Corner(rect, tex, color, true, false),
     Corner(rect, tex, color, true, true), Corner(rect, tex, color, false, true)]
  }

  /** The two triangles share the diagonal from (max.x, min.y) to
      (min.x, max.y): vertex 1 is vertex 3 and vertex 2 is vertex 5; together
      they reach all four corners of the box, each with the texture corner
      that belongs to it. */
  lemma QuadTriangles(rect: Box2, tex: Rect, color: Color)
    ensures var v := QuadVertices(rect, tex, color);
      && v[1] == v[3] && v[2] == v[5]
      && (set k | 0 <= k < 6 :: v[k]) ==
         (set right: bool, bottom: bool :: Corner(rect, tex, color, right, bottom))
  {
    var v := QuadVertices(rect, tex, color);
    var corners := set right: bool, bottom: bool :: Corner(rect, tex, color, right, bottom);
    forall c | c in corners ensures c in (set k | 0 <= k < 6 :: v[k]) {
      var right: bool, bottom: bool :| c == Corner(rect, tex, color, right, bottom);
      if right && bottom { assert c == v[4]; }
      else if right { assert c == v[1]; }
      else if bottom { assert c == v[2]; }
      else { assert c == v[0]; }
    }
  }

  /** Each vertex's texture coordinate follows its position: on the left edge
      of a box that is wider than zero it has the texture's left edge, and the
      top of the box gets the bottom of the texture. */
  lemma QuadUvFollowsPosition(rect: Box2, tex: Rect, color: Color, k: nat)
    requires rect.min.x < rect.max.x && rect.min.y < rect.max.y && k < 6
    ensures var v := QuadVertices(rect, tex, color)[k];
      && (v.position.x == rect.min.x || v.position.x == rect.max.x)
      && (v.position.y == rect.min.y || v.position.y == rect.max.y)
      && (v.position.x == rect.min.x ==> v.uv.x == UvMin(tex).x)
      && (v.position.x == rect.max.x ==> v.uv.x == UvMax(tex).x)
      && (v.position.y == rect.min.y ==> v.uv.y == UvMax(tex).y)
      && (v.position.y == rect.max.y ==> v.uv.y == UvMin(tex).y)
  {
  }

  /** `&mut Vec<Vertex>`: the vertex list a frame is drawn into. */
  class VertexList {
    var items: seq<Vertex>

    constructor ()
      ensures items == []
    {
      items := [];
    }
  }

  /** `render_quad`: append the quad's six vertices. The texture rectangle's
      width and height are `u32` differences; a rectangle whose right or bottom
      edge lies before its left or top edge panics (`ok` false) before anything
      is appended. */
  method RenderQuad(rect: Box2, tex: Rect, color: Color, out: VertexList) returns (ok: bool)
    modifies out
    ensures ok <==> tex.x0 <= tex.x1 && tex.y0 <= tex.y1
    ensures ok ==> out.items == old(out.items) + QuadVertices(rect, tex, color)
    ensures !ok ==> out.items == old(out.items)
  {
    if tex.x1 < tex.x0 || tex.y1 < tex.y0 {
      return false;
    }
    out.items := out.items + QuadVertices(rect, tex, color);
    return true;
  }
}
