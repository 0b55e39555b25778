# katengine — a Dafny model of the GL bookkeeping

katengine is a thin Rust layer over GLFW and OpenGL 4.5. Almost all of it passes calls straight
through to the native libraries. The only logic of its own is in `katengine/src/lib.rs`:

- **Enum translation.** `translate_buffer_target` and `translate_draw_mode` map the wrapper's
  `BufferTarget` and `DrawMode` enums to GL enum values.
- **`Buffer<T>` creation.** `create_null`, `create_blank_sized` and `create` record the element
  count on the object. They ask `NamedBufferData` for that count times `size_of::<T>()` bytes
  (section 6.2 of the OpenGL 4.5 Core Profile specification).
- **`VertexArray` layout.** `new`, `vertex_buffer`, `element_buffer` and `draw_arrays` keep two
  counters: the next free attribute index and the next free binding index. `vertex_buffer` lays
  out a list of interleaved `f32` attributes using the direct-state-access calls of section 10.3
  (`VertexArrayAttribFormat`, `VertexArrayAttribBinding`, `VertexArrayVertexBuffer`).

The model describes every GL call as a `GlCmd` value. Each constructor and each
`VertexArray` operation returns `Emit(value, cmds)`: the new object, plus the exact GL calls it
issued, in order. The two `bind` functions return the single command they issue. The contracts
then say which commands are emitted, with which arguments and in which order. GL names (handles)
are opaque 32-bit values. The driver hands them out, so the model takes them as parameters. GL
enum values are those of the OpenGL registry. The Rust `as GLuint`, `as GLint`, `as GLsizei` and
`as GLsizeiptr` casts are written out as wrap-around (`CastU32`, `CastI32`, `CastI64`). The postconditions
of these functions state that each cast is the identity when its argument is in range. The
model assumes a 64-bit target: `usize` and `isize` are 64 bits wide and `GLsizeiptr` is a
64-bit signed integer.

Files, one module each:

- `gl.dfy` (`Gl`): integer widths, the casts, GL enum values, `GlCmd`, `Emit`.
- `enums.dfy` (`Enums`): `BufferTarget`, `DrawMode`, the translations and their inverses.
- `buffers.dfy` (`Buffers`): element types, `Buffer`, the three constructors, `bind`. The element
  type is either a primitive numeric type or any other `Num` type, given by its size in bytes
  (`Other(bytes)`).
- `vertex_arrays.dfy` (`VertexArrays`): `VertexArray` and its operations. `vertex_buffer` is a
  loop (`VertexBuffer`). `VertexBufferSpec` is an independent recursive reference for it.
- `sessions.dfy` (`Sessions`): a vertex array's whole life (`new` followed by any calls), with
  the properties that span calls.

## Model

| member | source | states |
|---|---|---|
| Gl.CastU32 | katengine/src/lib.rs:219-220 | An `as GLuint` cast: the result is congruent to the argument modulo 2^32, and equals it when the argument is below 2^32 |
| Gl.CastI32 | katengine/src/lib.rs:241 | An `as GLint`/`as GLsizei` cast: the result is congruent to the argument modulo 2^32, and equals it when the argument is below 2^31 |
| Gl.CastI64 | katengine/src/lib.rs:169 | An `as GLsizeiptr` cast: the result is congruent to the argument modulo 2^64, and equals it when the argument is below 2^63 |
| Enums.TranslateBufferTarget | katengine/src/lib.rs:132-137 | Every buffer target translates to a GL value, and decoding that value gives back the same target |
| Enums.TranslateDrawMode | katengine/src/lib.rs:139-150 | Every draw mode translates to a GL value, and decoding that value gives back the same mode |
| Enums.BufferTargetRoundTrip | katengine/src/lib.rs:132-137 | Decoding a GL value gives a target exactly when that target translates to the value (both directions) |
| Enums.DrawModeRoundTrip | katengine/src/lib.rs:139-150 | Decoding a GL value gives a mode exactly when that mode translates to the value (both directions) |
| Enums.BufferTargetInjective | katengine/src/lib.rs:132-137 | Two targets translate to the same GL value if and only if they are the same target |
| Enums.DrawModeInjective | katengine/src/lib.rs:139-150 | Two draw modes translate to the same GL value if and only if they are the same mode |
| Buffers.CreateBlankSized | katengine/src/lib.rs:165-177 | The buffer stores the given handle, target and element count. Its commands create the name, then request count × sizeof(T) bytes (cast to GLsizeiptr) with no data and usage DYNAMIC_DRAW |
| Buffers.CreateNull | katengine/src/lib.rs:161-163 | Same as a blank buffer of 0 elements: the stored count is 0 and the requested byte length is 0 |
| Buffers.Create | katengine/src/lib.rs:179-193 | The stored count is the number of data elements. Exactly that many × sizeof(T) bytes are requested, with the data and usage STATIC_DRAW |
| Buffers.BlankSizedByteLength | katengine/src/lib.rs:169 | If the byte count fits in GLsizeiptr, a blank buffer requests exactly count × sizeof(T) bytes |
| Buffers.BindBufferCmd | katengine/src/lib.rs:246-250 | Binding a buffer emits a BindBuffer of its handle. The buffer's own target can be decoded from the command |
| VertexArrays.New | katengine/src/lib.rs:203-211 | A new vertex array holds the driver's handle, and both counters start at 0 |
| VertexArrays.BindVertexArrayCmd | katengine/src/lib.rs:252-256 | Binding a vertex array emits a BindVertexArray of its handle |
| VertexArrays.AttribCmdsSnoc | katengine/src/lib.rs:217-225 | One more loop iteration appends a format command and a binding command for the next index. The format offset is the byte size of all earlier attributes |
| VertexArrays.AttribCmdsShape | katengine/src/lib.rs:217-225 | In the attribute layout, attribute k gets index first+k, relative offset 4 × (sum of the earlier sizes) and its own component count. It is then bound to the call's single binding index |
| VertexArrays.VertexBufferSpecShape | katengine/src/lib.rs:213-229 | The reference command sequence is: a bind, then a format and a binding per attribute, then a VertexBuffer with offset 0 and stride 4 × sum |
| VertexArrays.VertexBuffer | katengine/src/lib.rs:213-229 | The loop emits the bind first and the VertexBuffer command last. Attribute k gets index old nextAttrib + k, offset 4 × prefix sum, and binding old nextBinding. The stride is 4 × sum. nextAttrib grows by the number of attributes and nextBinding by 1, even for an empty list. The result equals the recursive reference |
| VertexArrays.ElementBuffer | katengine/src/lib.rs:231-236 | The counters are unchanged. It emits a bind of the buffer (its target decodable), then VertexArrayElementBuffer(vao, buffer) |
| VertexArrays.DrawArraysOp | katengine/src/lib.rs:238-243 | The counters are unchanged. It emits BindVertexArray, then DrawArrays: the mode decodes back to the requested mode, `start` goes in as first and `count` as count, unchanged when below 2^31 |
| Sessions.AttribCmdsIndices | katengine/src/lib.rs:217-225 | A call's attribute commands name consecutive indices from the starting counter, one per attribute, and attach no buffer |
| Sessions.VertexBufferIndices | katengine/src/lib.rs:213-229 | A vertex_buffer call writes consecutive attribute indices from nextAttrib, one per attribute, and attaches its buffer to binding nextBinding and no other |
| Sessions.StepIndices | katengine/src/lib.rs:213-243 | Any single call writes the attribute indices from nextAttrib, one per declared attribute. Only vertex_buffer attaches a buffer, at binding nextBinding |
| Sessions.RunCounters | katengine/src/lib.rs:213-243 | Over any sequence of calls, nextAttrib grows by the total number of declared attributes and nextBinding by the number of vertex_buffer calls. The handle never changes |
| Sessions.RunIndices | katengine/src/lib.rs:217-228 | Over any sequence of calls, the logged attribute indices are exactly the consecutive run from the initial counter. The logged buffer bindings are the consecutive run from the initial binding counter |
| Sessions.NoIndexReused | katengine/src/lib.rs:203-228 | Starting from a new vertex array, no attribute index and no binding index is written twice while the counters fit in GLuint |
| Sessions.TwoVertexBuffers | testapp/src/main.rs:36 | The demo's vertex_buffer with [2,2] on a new array, followed by a second call with [3] that the model adds, gives counters 3 and 2 and strides 16 and 12. The third attribute sits at offset 0 of binding 1 |

## Left out

- `Engine`, `Window`, `load_gl`, `update_events`, `swap`, `is_open`: GLFW window, context and event plumbing with no logic of its own.
- `Color`, `colors::*`, `Engine::clear`, `clear_default`: floating-point values passed on to `glClearColor`/`glClear`.
- The GPU effect of every GL call and the contents of buffers: the model records only the calls. `NamedBufferData` keeps just whether a data pointer was passed (`hasData`).
- The handles returned by `CreateBuffers` and `CreateVertexArrays`: they come from the driver and are parameters of the model.
- `lib.rs` has no `Drop` impl, so no delete command is modelled.
- `testapp/src/main.rs:7-8,39-42,53` uses `Shader`, `ShaderFile`, `ShaderType` and `draw_elements`, which `lib.rs` does not define; they are not part of this model.
- `testapp/src/main.rs`: an application frame loop. Only its `vertex_buffer(…, [2, 2])` call is used, as the example in `Sessions.TwoVertexBuffers`.
- Rust `usize` overflow in `self.nextAttrib += 1`, `stride += a * 4` and `size * size_of::<T>()`: the model computes these in unbounded integers and then applies the wrapping cast. That matches a release build, where the arithmetic wraps modulo 2^64 before the cast. A debug build would panic on overflow, and that panic is not modelled.
- `Buffers.Create` requires the data's byte size to be below 2^63. A Rust `Vec` can never be larger than that, so the requirement excludes no real input.
- 32-bit targets: the model fixes a 64-bit target (`usize` < 2^64, `GLsizeiptr` = i64, byte counts wrap modulo 2^64, `usize`/`isize` elements are 8 bytes). On a 32-bit target `size * size_of::<T>()` would wrap modulo 2^32 and `GLsizeiptr` would be 32 bits, so `Buffers.CreateBlankSized` would request a different byte length for huge sizes.
