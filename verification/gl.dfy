/**
  The OpenGL boundary of the engine.  Nothing here talks to a GPU: every GL call the
  wrapper makes is represented as one `GlCmd` value, and an operation of the wrapper is
  described by the exact sequence of commands it issues (`Emit`).  Handles are opaque
  32-bit names handed out by the driver; the model receives them as parameters.

  Enum values are those of the OpenGL registry (OpenGL 4.5 Core Profile).
 */
module Gl {

  const TWO_32: int := 0x1_0000_0000
  const TWO_31: int := 0x8000_0000
  const TWO_64: int := 0x1_0000_0000_0000_0000
  const TWO_63: int := 0x8000_0000_0000_0000

  /** GLuint / GLenum / Rust u32 */
  type GLuint = x: int | 0 <= x < TWO_32

  /** GLint / GLsizei / Rust i32 */
  type GLint = x: int | -TWO_31 <= x < TWO_31

  /** GLsizeiptr / GLintptr on a 64-bit target (Rust isize) */
  type GLsizeiptr = x: int | -TWO_63 <= x < TWO_63

  /** A Rust `as u32` cast of a non-negative integer: keep the low 32 bits. */
  function CastU32(n: nat): (r: GLuint)
    ensures n < TWO_32 ==> r == n
    ensures (n - r) % TWO_32 == 0
  {
    n % TWO_32
  }

  /** A Rust `as i32` cast of a non-negative integer: low 32 bits, read as two's complement. */
  function CastI32(n: nat): (r: GLint)
    ensures n < TWO_31 ==> r == n
    ensures (n - r) % TWO_32 == 0
  {
    var low := n % TWO_32;
    if low < TWO_31 then low else low - TWO_32
  }

  /** A Rust `as isize` cast (64-bit target) of a non-negative integer. */
  function CastI64(n: nat): (r: GLsizeiptr)
    ensures n < TWO_63 ==> r == n
    ensures (n - r) % TWO_64 == 0
  {
    var low := n % TWO_64;
    if low < TWO_63 then low else low - TWO_64
  }

  // Buffer binding targets (section 6.1 of the OpenGL 4.5 Core Profile specification)
  const ARRAY_BUFFER: GLuint := 0x8892
  const ELEMENT_ARRAY_BUFFER: GLuint := 0x8893

  // Primitive modes (section 10.1)
  const POINTS: GLuint := 0x0000
  const LINES: GLuint := 0x0001
  const LINE_LOOP: GLuint := 0x0002
  const LINE_STRIP: GLuint := 0x0003
  const TRIANGLES: GLuint := 0x0004
  const TRIANGLE_STRIP: GLuint := 0x0005
  const TRIANGLE_FAN: GLuint := 0x0006
  const PATCHES: GLuint := 0x000E

  // Buffer usage hints (section 6.2)
  const STATIC_DRAW: GLuint := 0x88E4
  const DYNAMIC_DRAW: GLuint := 0x88E8

  // Component type of a vertex attribute (section 10.3)
  const FLOAT: GLuint := 0x1406

  /** One GL call, with the arguments exactly as they are passed across the FFI boundary. */
  datatype GlCmd =
    | CreateBuffers(created: GLuint)
    | NamedBufferData(buffer: GLuint, byteSize: GLsizeiptr, hasData: bool, usage: GLuint)
    | BindBuffer(target: GLuint, buffer: GLuint)
    | CreateVertexArrays(created: GLuint)
    | BindVertexArray(vaobj: GLuint)
    | VertexArrayAttribFormat(vaobj: GLuint, attribIndex: GLuint, size: GLint, componentType: GLuint,
                              normalized: bool, relativeOffset: GLuint)
    | VertexArrayAttribBinding(vaobj: GLuint, attribIndex: GLuint, bindingIndex: GLuint)
    | VertexArrayVertexBuffer(vaobj: GLuint, bindingIndex: GLuint, buffer: GLuint, offset: GLsizeiptr, stride: GLint)
    | VertexArrayElementBuffer(vaobj: GLuint, buffer: GLuint)
    | DrawArrays(mode: GLuint, first: GLint, count: GLint)

  /** The value an operation produces together with the GL calls it issued, in order. */
  datatype Emit<+T> = Emit(value: T, cmds: seq<GlCmd>)
}
