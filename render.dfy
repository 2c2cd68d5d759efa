/**
 * The bookkeeping half of Render2D (src/Render2D.cpp): the entity list, highlighting,
 * picking, the screen-to-world y flip, and the input handlers that drive the camera.
 * Shader, buffer and draw calls are not modelled.
 */
module Render {
  import opened Wrappers
  import opened Vec
  import opened Camera
  import opened Entities

  /** Alpha of an entity that is not the selected one while a selection is shown. */
  const DimmedAlpha: real := 0.2

  /** Pick tolerance in screen pixels. */
  const PickPixels: real := 5.0

  /** Screen y grows downwards, world y upwards: keep x, flip y about the window height. */
  function ScreenToWorld(height: int, sx: real, sy: real): (w: Vec2)
    ensures w.x == sx && w.y + sy == height as real
  {
    Vec2(sx, height as real - sy)
  }

  /** The wheel rule: zoom in by 1.1 for a positive delta, otherwise (zero included) out by 0.9. */
  function ZoomFactor(delta: real): (f: real)
    ensures f == 1.1 <==> 0.0 < delta
    ensures f == 0.9 <==> delta <= 0.0
  {
    if delta > 0.0 then 1.1 else 0.9
  }

  /** The alpha that highlighting gives `e`: full when nothing is selected or `e` is the selection. */
  function HighlightAlpha(e: Entity, selected: Entity?): (a: real)
    ensures a == 1.0 <==> selected == null || e == selected
    ensures a == 1.0 || a == DimmedAlpha
  {
    if selected == null || e == selected then 1.0 else DimmedAlpha
  }

  /** Index of the first entity the hit test accepts, if any. */
  function FirstHit(es: seq<Entity>, hit: Entity -> bool): (r: Option<nat>)
    ensures r.Some? ==> r.value < |es| && hit(es[r.value]) && forall j :: 0 <= j < r.value ==> !hit(es[j])
    ensures r.None? ==> forall j :: 0 <= j < |es| ==> !hit(es[j])
  {
    if es == [] then None
    else if hit(es[0]) then Some(0)
    else match FirstHit(es[1..], hit)
      case None => None
      case Some(k) => Some(k + 1)
  }

  class Render2D {
    var width: int
    var height: int
    const camera: Camera2D
    var entities: seq<Entity>

    constructor(w: int, h: int)
      ensures width == w && height == h && entities == []
      ensures fresh(camera)
      ensures camera.width == w as real && camera.height == h as real
      ensures camera.View() == Identity
    {
      width := w;
      height := h;
      camera := new Camera2D(w as real, h as real);
      entities := [];
    }

    method AddEntity(e: Entity)
      modifies this
      ensures entities == old(entities) + [e]
      ensures width == old(width) && height == old(height)
    {
      entities := entities + [e];
    }

    /** Releases every entity's GL objects, then empties the list. */
    method ClearEntities(hasContext: bool)
      modifies this, set e | e in entities
      ensures entities == []
      ensures width == old(width) && height == old(height)
      ensures forall e :: e in old(entities) ==> e.alpha == old(e.alpha)
      ensures hasContext ==> forall e :: e in old(entities) ==> e.vao == 0 && e.vbo == 0
      ensures !hasContext ==> forall e :: e in old(entities) ==> e.vao == old(e.vao) && e.vbo == old(e.vbo)
    {
      var k := 0;
      while k < |entities|
        invariant 0 <= k <= |entities|
        invariant entities == old(entities) && width == old(width) && height == old(height)
        invariant forall e :: e in entities ==> e.alpha == old(e.alpha)
        invariant hasContext ==> forall j :: 0 <= j < k ==> entities[j].vao == 0 && entities[j].vbo == 0
        invariant !hasContext ==> forall e :: e in entities ==> e.vao == old(e.vao) && e.vbo == old(e.vbo)
      {
        entities[k].DeleteBuffers(hasContext);
        k := k + 1;
      }
      entities := [];
    }

    /** Sets every entity's alpha: 1.0 for the selection (or for all, with no selection), 0.2 for the rest. */
    method HighlightEntity(selected: Entity?)
      modifies set e | e in entities
      ensures forall e :: e in entities ==> e.alpha == HighlightAlpha(e, selected)
      ensures forall e :: e in entities ==> e.vao == old(e.vao) && e.vbo == old(e.vbo)
    {
      var k := 0;
      while k < |entities|
        invariant 0 <= k <= |entities|
        invariant forall j :: 0 <= j < k ==> entities[j].alpha == HighlightAlpha(entities[j], selected)
        invariant forall e :: e in entities ==> e.vao == old(e.vao) && e.vbo == old(e.vbo)
      {
        var entity := entities[k];
        if selected == null || entity == selected {
          entity.SetAlpha(1.0);
        } else {
          entity.SetAlpha(DimmedAlpha);
        }
        k := k + 1;
      }
    }

    /**
     * The first entity, in list order, whose hit test accepts the world position with a
     * tolerance of 5 pixels at the given scale; null when none does.
     */
    method PickEntity(worldPos: Vec2, scale: real, hitTest: (Entity, real, real, real) -> bool) returns (picked: Entity?)
      requires scale != 0.0
      ensures picked == match FirstHit(entities, (e: Entity) => hitTest(e, worldPos.x, worldPos.y, PickPixels / scale))
                        case None => null
                        case Some(k) => entities[k]
    {
      var tolerance := PickPixels / scale;
      ghost var hit := (e: Entity) => hitTest(e, worldPos.x, worldPos.y, tolerance);
      var k := 0;
      while k < |entities|
        invariant 0 <= k <= |entities|
        invariant forall j :: 0 <= j < k ==> !hit(entities[j])
      {
        if hitTest(entities[k], worldPos.x, worldPos.y, tolerance) {
          FirstHitIsFirstMatch(entities, hit, k);
          return entities[k];
        }
        k := k + 1;
      }
      FirstHitIsFirstMatch(entities, hit, |entities|);
      return null;
    }

    method HandlePan(dx: real, dy: real)
      modifies camera
      ensures camera.View() == old(camera.View()).Panned(dx, dy)
      ensures camera.width == old(camera.width) && camera.height == old(camera.height)
    {
      camera.Pan(dx, dy);
    }

    /** Zooms about the cursor, converted with the y flip. */
    method HandleZoom(delta: real, mouseX: real, mouseY: real)
      modifies camera
      ensures camera.View() == old(camera.View()).ZoomedAt(ZoomFactor(delta), ScreenToWorld(height, mouseX, mouseY))
      ensures camera.width == old(camera.width) && camera.height == old(camera.height)
    {
      var factor := ZoomFactor(delta);
      var worldPos := ScreenToWorld(height, mouseX, mouseY);
      camera.ZoomAt(factor, worldPos);
    }

    /** Stores the new size and forwards it to the camera's viewport; the view is kept. */
    method Resize(w: int, h: int)
      modifies this, camera
      ensures width == w && height == h && entities == old(entities)
      ensures camera.width == w as real && camera.height == h as real
      ensures camera.View() == old(camera.View())
    {
      width := w;
      height := h;
      camera.SetViewport(w as real, h as real);
    }
  }

  // ---------------------------------------------------------------------------
  // Properties

  /**
   * FirstHit returns index k exactly when entity k is accepted and no earlier one is;
   * it returns nothing exactly when no entity is accepted.
   */
  lemma {:induction false} FirstHitIsFirstMatch(es: seq<Entity>, hit: Entity -> bool, k: nat)
    requires k <= |es|
    requires forall j :: 0 <= j < k ==> !hit(es[j])
    ensures k < |es| && hit(es[k]) ==> FirstHit(es, hit) == Some(k)
    ensures k == |es| ==> FirstHit(es, hit) == None
  {
    if es != [] && k > 0 {
      assert forall j :: 0 <= j < k - 1 ==> es[1..][j] == es[j + 1];
      FirstHitIsFirstMatch(es[1..], hit, k - 1);
    }
  }

  /** Flipping y twice restores the screen position. */
  lemma ScreenToWorldInvolution(height: int, sx: real, sy: real)
    ensures ScreenToWorld(height, ScreenToWorld(height, sx, sy).x, ScreenToWorld(height, sx, sy).y) == Vec2(sx, sy)
  {
  }

  /** The wheel zooms in exactly for a positive delta; a zero delta zooms out. */
  lemma ZoomFactorDirection(delta: real)
    ensures 1.0 < ZoomFactor(delta) <==> 0.0 < delta
    ensures ZoomFactor(delta) < 1.0 <==> delta <= 0.0
    ensures 0.0 < ZoomFactor(delta)
  {
  }

  /** A wheel step keeps the world point under the cursor where it was on screen. */
  lemma WheelKeepsCursorPoint(v: ViewTransform, height: int, delta: real, mouseX: real, mouseY: real, p: Vec2)
    requires v.Apply(p) == ScreenToWorld(height, mouseX, mouseY)
    ensures v.ZoomedAt(ZoomFactor(delta), ScreenToWorld(height, mouseX, mouseY)).Apply(p) == ScreenToWorld(height, mouseX, mouseY)
  {
    ZoomKeepsCursorFixed(v, ZoomFactor(delta), ScreenToWorld(height, mouseX, mouseY), p);
  }
}
