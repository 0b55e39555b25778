/**
  The wrapper's buffer-target and draw-mode enums and their translation to GL enum values.
  Each translation is paired with its inverse (a decoder of GL values), so that the
  round trip in both directions states that the mapping is total and injective.
 */
module Enums {
  import opened Gl

  datatype Option<+T> = None | Some(value: T)

  datatype BufferTarget = Array | ElementArray

  datatype DrawMode =
    | Triangles
    | TriangleFan
    | Lines
    | TriangleStrip
    | Patches
    | LineStrip
    | LineLoop
    | Points

  /** Decodes a GL buffer-target value; `None` for values the wrapper never produces. */
  function BufferTargetOf(c: GLuint): Option<BufferTarget> {
    if c == ARRAY_BUFFER then Some(Array)
    else if c == ELEMENT_ARRAY_BUFFER then Some(ElementArray)
    else None
  }

  /** Decodes a GL primitive-mode value; `None` for values the wrapper never produces. */
  function DrawModeOf(c: GLuint): Option<DrawMode> {
    if c == TRIANGLES then Some(Triangles)
    else if c == TRIANGLE_FAN then Some(TriangleFan)
    else if c == LINES then Some(Lines)
    else if c == TRIANGLE_STRIP then Some(TriangleStrip)
    else if c == PATCHES then Some(Patches)
    else if c == LINE_STRIP then Some(LineStrip)
    else if c == LINE_LOOP then Some(LineLoop)
    else if c == POINTS then Some(Points)
    else None
  }

  function TranslateBufferTarget(target: BufferTarget): (c: GLuint)
    ensures BufferTargetOf(c) == Some(target)
  {
    match target
    case Array => ARRAY_BUFFER
    case ElementArray => ELEMENT_ARRAY_BUFFER
  }

  function TranslateDrawMode(mode: DrawMode): (c: GLuint)
    ensures DrawModeOf(c) == Some(mode)
  {
    match mode
    case Triangles => TRIANGLES
    case TriangleFan => TRIANGLE_FAN
    case Lines => LINES
    case TriangleStrip => TRIANGLE_STRIP
    case Patches => PATCHES
    case LineStrip => LINE_STRIP
    case LineLoop => LINE_LOOP
    case Points => POINTS
  }

  /** Decoding a GL value yields `target` exactly when `target` translates to that value. */
  lemma BufferTargetRoundTrip(c: GLuint, target: BufferTarget)
    ensures BufferTargetOf(c) == Some(target) <==> TranslateBufferTarget(target) == c
  {
  }

  lemma DrawModeRoundTrip(c: GLuint, mode: DrawMode)
    ensures DrawModeOf(c) == Some(mode) <==> TranslateDrawMode(mode) == c
  {
  }

  /** No two buffer targets share a GL value. */
  lemma BufferTargetInjective(a: BufferTarget, b: BufferTarget)
    ensures TranslateBufferTarget(a) == TranslateBufferTarget(b) <==> a == b
  {
  }

  /** No two draw modes share a GL value. */
  lemma DrawModeInjective(a: DrawMode, b: DrawMode)
    ensures TranslateDrawMode(a) == TranslateDrawMode(b) <==> a == b
  {
  }
}
