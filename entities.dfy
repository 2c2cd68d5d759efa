/**
 * The part of the Entity base class (include/Entities/Entity.h, src/Entities/Entity.cpp)
 * that the viewer's bookkeeping touches: the two OpenGL handles and the display alpha.
 * The geometry lives in the concrete entity modules; drawing is not modelled.
 */
module Entities {
  class Entity {
    /** Handle of the vertex array object; 0 means none. */
    var vao: nat
    /** Handle of the vertex buffer object; 0 means none. */
    var vbo: nat
    /** Display alpha, written by the viewer's highlighting. */
    var alpha: real

    /** A new entity owns no GL objects yet. */
    constructor()
      ensures vao == 0 && vbo == 0
    {
      vao := 0;
      vbo := 0;
      alpha := 1.0;
    }

    /**
     * Frees both GL objects and zeroes their handles; without a GL function table
     * (`hasContext` false) nothing happens.  The GL calls themselves are not modelled.
     */
    method DeleteBuffers(hasContext: bool)
      modifies this
      ensures hasContext ==> vao == 0 && vbo == 0
      ensures !hasContext ==> vao == old(vao) && vbo == old(vbo)
      ensures alpha == old(alpha)
    {
      if !hasContext {
        return;
      }
      if vbo != 0 {
        vbo := 0;
      }
      if vao != 0 {
        vao := 0;
      }
    }

    method SetAlpha(a: real)
      modifies this
      ensures alpha == a && vao == old(vao) && vbo == old(vbo)
    {
      alpha := a;
    }
  }
}
