/**
  `Buffer<T>`: one GPU buffer object holding elements of a numeric type T.  The object
  records its GL name, its target and its length in ELEMENTS; the byte length it asks the
  driver for (`NamedBufferData`, section 6.2 of the OpenGL 4.5 Core Profile specification)
  is that length times the size of T.
 */
module Buffers {
  import opened Gl
  import opened Enums

  /** The element type T of a `Buffer<T>`: a primitive numeric type (64-bit target), or any
      other `Num` type, known only by its size in bytes. */
  datatype ElemType =
    | U8 | U16 | U32 | U64 | U128 | Usize
    | I8 | I16 | I32 | I64 | I128 | Isize
    | F32 | F64
    | Other(bytes: nat)

  /** `std::mem::size_of::<T>()` in bytes. */
  function SizeOf(e: ElemType): nat {
    match e
    case U8 | I8 => 1
    case U16 | I16 => 2
    case U32 | I32 | F32 => 4
    case U64 | I64 | F64 | Usize | Isize => 8
    case U128 | I128 => 16
    case Other(bytes) => bytes
  }

  datatype Buffer = Buffer(handle: GLuint, size: nat, target: BufferTarget, elem: ElemType)

  /** The GL byte-length argument for `n` elements of type `e`: the product, cast to GLsizeiptr. */
  function ByteLength(n: nat, e: ElemType): GLsizeiptr {
    CastI64(n * SizeOf(e))
  }

  /** `cmds` allocates the storage of `b`: it creates the name `b.handle` and then asks for
      exactly `b.size` elements' worth of bytes for it. */
  predicate Allocates(cmds: seq<GlCmd>, b: Buffer) {
    && |cmds| == 2
    && cmds[0] == CreateBuffers(b.handle)
    && cmds[1].NamedBufferData?
    && cmds[1].buffer == b.handle
    && cmds[1].byteSize == ByteLength(b.size, b.elem)
  }

  /** `create_blank_sized(target, size)`: storage for `size` elements, contents undefined
      (a null data pointer), usage hint DYNAMIC_DRAW.  `handle` is the name the driver
      returns from `CreateBuffers`. */
  function CreateBlankSized(elem: ElemType, target: BufferTarget, size: nat, handle: GLuint): (r: Emit<Buffer>)
    requires size < TWO_64  // usize
    ensures r.value.handle == handle && r.value.target == target && r.value.elem == elem
    ensures r.value.size == size
    ensures Allocates(r.cmds, r.value)
    ensures !r.cmds[1].hasData && r.cmds[1].usage == DYNAMIC_DRAW
  {
    Emit(Buffer(handle, size, target, elem),
         [CreateBuffers(handle), NamedBufferData(handle, ByteLength(size, elem), false, DYNAMIC_DRAW)])
  }

  /** `create_null(target)`: a blank buffer of zero elements, requesting zero bytes. */
  function CreateNull(elem: ElemType, target: BufferTarget, handle: GLuint): (r: Emit<Buffer>)
    ensures r.value == Buffer(handle, 0, target, elem)
    ensures Allocates(r.cmds, r.value) && r.cmds[1].byteSize == 0
    ensures r == CreateBlankSized(elem, target, 0, handle)
  {
    CreateBlankSized(elem, target, 0, handle)
  }

  /** `create(target, data)`: storage initialised from `data`, usage hint STATIC_DRAW.  The
      stored length is the number of elements of `data`; the requested byte length is that
      number times the element size, exactly (a Rust `Vec` never spans more than
      `isize::MAX` bytes, so the cast to GLsizeiptr is lossless). */
  function Create<V>(elem: ElemType, target: BufferTarget, data: seq<V>, handle: GLuint): (r: Emit<Buffer>)
    requires |data| * SizeOf(elem) < TWO_63
    ensures r.value.handle == handle && r.value.target == target && r.value.elem == elem
    ensures r.value.size == |data|
    ensures Allocates(r.cmds, r.value)
    ensures r.cmds[1].byteSize == |data| * SizeOf(elem)
    ensures r.cmds[1].hasData && r.cmds[1].usage == STATIC_DRAW
  {
    Emit(Buffer(handle, |data|, target, elem),
         [CreateBuffers(handle), NamedBufferData(handle, ByteLength(|data|, elem), true, STATIC_DRAW)])
  }

  /** Whenever the byte count fits in GLsizeiptr, a blank buffer of `size` elements requests
      exactly `size * sizeof(T)` bytes. */
  lemma BlankSizedByteLength(elem: ElemType, target: BufferTarget, size: nat, handle: GLuint)
    requires size < TWO_64  // usize
    requires size * SizeOf(elem) < TWO_63
    ensures CreateBlankSized(elem, target, size, handle).cmds[1].byteSize == size * SizeOf(elem)
  {
  }

  /** `Bindable::bind` for a buffer: bind its name to the GL value of its target.  The
      command alone determines the buffer and its target. */
  function BindBufferCmd(b: Buffer): (c: GlCmd)
    ensures c.BindBuffer? && c.buffer == b.handle
    ensures BufferTargetOf(c.target) == Some(b.target)
  {
    BindBuffer(TranslateBufferTarget(b.target), b.handle)
  }
}
