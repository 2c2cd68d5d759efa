/**
 * Camera2D (include/Camera.h, src/Camera.cpp): a zoom factor and an offset defining
 * the view map p ↦ offset + zoom·p, and the viewport size used for the orthographic
 * projection.
 */
module Camera {
  import opened Vec

  /** The view part of the camera: translate by `offset` after scaling by `zoom`. */
  datatype ViewTransform = ViewTransform(zoom: real, offset: Vec2) {
    /** The view map; for a non-zero zoom it is undone by removing the offset and dividing by the zoom. */
    function Apply(p: Vec2): (q: Vec2)
      ensures zoom != 0.0 ==> q.Minus(offset).Scale(1.0 / zoom) == p
    {
      Unscale(p.x, zoom);
      Unscale(p.y, zoom);
      offset.Plus(p.Scale(zoom))
    }

    function Panned(dx: real, dy: real): ViewTransform
    {
      ViewTransform(zoom, offset.Plus(Vec2(dx, dy)))
    }

    /** The state after zooming by `factor` about `mouse`. */
    function ZoomedAt(factor: real, mouse: Vec2): ViewTransform
    {
      ViewTransform(zoom * factor, mouse.Minus(mouse.Minus(offset).Scale(factor)))
    }
  }

  const Identity: ViewTransform := ViewTransform(1.0, Origin)

  /** glm::ortho(0, width, 0, height): x in [0, width] and y in [0, height] onto [-1, 1]. */
  function Ortho(width: real, height: real, q: Vec2): (c: Vec2)
    requires width != 0.0 && height != 0.0
    ensures q == Vec2((c.x + 1.0) * width / 2.0, (c.y + 1.0) * height / 2.0)
  {
    ToUnitRange(q.x, width);
    ToUnitRange(q.y, height);
    Vec2(2.0 * q.x / width - 1.0, 2.0 * q.y / height - 1.0)
  }

  /** Helper: dividing a product by a non-zero factor gives back the other. */
  lemma Unscale(x: real, k: real)
    ensures k != 0.0 ==> (k * x) * (1.0 / k) == x
  {
    if k != 0.0 {
      assert (k * x) * (1.0 / k) == x * (k / k);
    }
  }

  /** Helper: the map x ↦ 2x/w − 1 is undone by c ↦ (c + 1)·w/2. */
  lemma ToUnitRange(x: real, w: real)
    requires w != 0.0
    ensures (2.0 * x / w - 1.0 + 1.0) * w / 2.0 == x
  {
    assert 2.0 * x / w - 1.0 + 1.0 == 2.0 * x / w;
    assert (2.0 * x / w) * w == 2.0 * x;
  }

  class Camera2D {
    var width: real
    var height: real
    var zoom: real
    var offset: Vec2

    function View(): ViewTransform
      reads this
    {
      ViewTransform(zoom, offset)
    }

    constructor(w: real, h: real)
      ensures width == w && height == h
      ensures View() == Identity
    {
      width := w;
      height := h;
      zoom := 1.0;
      offset := Origin;
    }

    method SetViewport(w: real, h: real)
      modifies this
      ensures width == w && height == h
      ensures View() == old(View())
    {
      width := w;
      height := h;
    }

    method Reset()
      modifies this
      ensures View() == Identity
      ensures width == old(width) && height == old(height)
    {
      zoom := 1.0;
      offset := Origin;
    }

    method Pan(dx: real, dy: real)
      modifies this
      ensures View() == old(View()).Panned(dx, dy)
      ensures width == old(width) && height == old(height)
    {
      offset := offset.Plus(Vec2(dx, dy));
    }

    method ZoomAt(factor: real, mouse: Vec2)
      modifies this
      ensures View() == old(View()).ZoomedAt(factor, mouse)
      ensures width == old(width) && height == old(height)
    {
      offset := mouse.Minus(mouse.Minus(offset).Scale(factor));
      zoom := zoom * factor;
    }

    /**
     * Where getMatrix sends a point: the view map, then the projection.  The clip
     * coordinates determine the view image: (c + 1)·size/2 recovers it.
     */
    function Project(p: Vec2): (c: Vec2)
      reads this
      requires width != 0.0 && height != 0.0
      ensures View().Apply(p) == Vec2((c.x + 1.0) * width / 2.0, (c.y + 1.0) * height / 2.0)
    {
      Ortho(width, height, View().Apply(p))
    }
  }

  // ---------------------------------------------------------------------------
  // Properties

  /** A new or reset camera maps every point to itself. */
  lemma IdentityView(p: Vec2)
    ensures Identity.Apply(p) == p
  {
  }

  /** Zooming about `mouse` is the homothety of ratio `factor` centred on `mouse`, applied after the old view. */
  lemma ZoomIsHomothety(v: ViewTransform, factor: real, mouse: Vec2, p: Vec2)
    ensures v.ZoomedAt(factor, mouse).Apply(p) == mouse.Plus(v.Apply(p).Minus(mouse).Scale(factor))
  {
    var z, o := v.zoom, v.offset;
    var zx, zy := (z * factor) * p.x, (z * factor) * p.y;
    assert zx == factor * (z * p.x) && zy == factor * (z * p.y);
    var ax, ay := o.x + z * p.x - mouse.x, o.y + z * p.y - mouse.y;
    assert factor * ax == factor * (o.x - mouse.x) + factor * (z * p.x);
    assert factor * ay == factor * (o.y - mouse.y) + factor * (z * p.y);
  }

  /** The point under the cursor stays under the cursor. */
  lemma ZoomKeepsCursorFixed(v: ViewTransform, factor: real, mouse: Vec2, p: Vec2)
    requires v.Apply(p) == mouse
    ensures v.ZoomedAt(factor, mouse).Apply(p) == mouse
  {
    ZoomIsHomothety(v, factor, mouse, p);
  }

  /** Zooming by 1 changes nothing. */
  lemma ZoomByOne(v: ViewTransform, mouse: Vec2)
    ensures v.ZoomedAt(1.0, mouse) == v
  {
  }

  /** Two zooms about the same point compose into one zoom by the product of the factors. */
  lemma ZoomsCompose(v: ViewTransform, f1: real, f2: real, mouse: Vec2)
    ensures v.ZoomedAt(f1, mouse).ZoomedAt(f2, mouse) == v.ZoomedAt(f1 * f2, mouse)
  {
    var dx, dy := mouse.x - v.offset.x, mouse.y - v.offset.y;
    assert (v.zoom * f1) * f2 == v.zoom * (f1 * f2);
    assert f2 * (f1 * dx) == (f1 * f2) * dx;
    assert f2 * (f1 * dy) == (f1 * f2) * dy;
  }

  /** Pans add up, in either order. */
  lemma PansCompose(v: ViewTransform, dx1: real, dy1: real, dx2: real, dy2: real)
    ensures v.Panned(dx1, dy1).Panned(dx2, dy2) == v.Panned(dx1 + dx2, dy1 + dy2)
    ensures v.Panned(dx1, dy1).Panned(dx2, dy2) == v.Panned(dx2, dy2).Panned(dx1, dy1)
  {
  }

  /** A pan moves the image of every point by the pan vector and keeps the zoom. */
  lemma PanShiftsImage(v: ViewTransform, dx: real, dy: real, p: Vec2)
    ensures v.Panned(dx, dy).Apply(p) == v.Apply(p).Plus(Vec2(dx, dy))
    ensures v.Panned(dx, dy).zoom == v.zoom
  {
  }

  /** The projection sends (0, 0) and (width, height) to the corners (-1, -1) and (1, 1), and the centre to the origin. */
  lemma OrthoCorners(width: real, height: real)
    requires width != 0.0 && height != 0.0
    ensures Ortho(width, height, Origin) == Vec2(-1.0, -1.0)
    ensures Ortho(width, height, Vec2(width, height)) == Vec2(1.0, 1.0)
    ensures Ortho(width, height, Vec2(width / 2.0, height / 2.0)) == Origin
  {
  }

  /** For a positive viewport the projection keeps the order of coordinates. */
  lemma OrthoMonotone(width: real, height: real, q: Vec2, r: Vec2)
    requires 0.0 < width && 0.0 < height
    requires q.x <= r.x && q.y <= r.y
    ensures Ortho(width, height, q).x <= Ortho(width, height, r).x
    ensures Ortho(width, height, q).y <= Ortho(width, height, r).y
  {
    var qx, rx := q.x / width, r.x / width;
    var qy, ry := q.y / height, r.y / height;
    assert qx <= rx by {
      assert rx - qx == (r.x - q.x) / width;
    }
    assert qy <= ry by {
      assert ry - qy == (r.y - q.y) / height;
    }
    assert 2.0 * q.x / width == 2.0 * qx && 2.0 * r.x / width == 2.0 * rx;
    assert 2.0 * q.y / height == 2.0 * qy && 2.0 * r.y / height == 2.0 * ry;
  }
}
