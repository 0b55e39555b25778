/**
  `VertexArray`: one GL vertex array object plus two counters, the next free attribute
  index and the next free binding index.  Each `vertex_buffer` call lays out a list of
  float attributes, interleaved in one buffer, using the direct-state-access calls of
  section 10.3 of the OpenGL 4.5 Core Profile specification (`VertexArrayAttribFormat`,
  `VertexArrayAttribBinding`, `VertexArrayVertexBuffer`).
 */
module VertexArrays {
  import opened Gl
  import opened Enums
  import opened Buffers

  datatype VertexArray = VertexArray(handle: GLuint, nextAttrib: nat, nextBinding: nat)

  /** Bytes per attribute component: attributes are always `f32`. */
  const FLOAT_SIZE: nat := SizeOf(F32)

  /** Sum of a list of component counts. */
  function Sum(s: seq<nat>): nat {
    if |s| == 0 then 0 else s[0] + Sum(s[1..])
  }

  lemma {:induction false} SumSnoc(s: seq<nat>, x: nat)
    ensures Sum(s + [x]) == Sum(s) + x
  {
    if |s| == 0 {
      assert s + [x] == [x];
    } else {
      assert (s + [x])[1..] == s[1..] + [x];
      SumSnoc(s[1..], x);
    }
  }

  /** Byte stride of one vertex made of attributes with these component counts. */
  function Stride(attribs: seq<nat>): nat {
    FLOAT_SIZE * Sum(attribs)
  }

  /** `VertexArray::new()`: a fresh object whose counters start at zero.  `handle` is the
      name the driver returns from `CreateVertexArrays`. */
  function New(handle: GLuint): (r: Emit<VertexArray>)
    ensures r.value.handle == handle
    ensures r.value.nextAttrib == 0 && r.value.nextBinding == 0
    ensures r.cmds == [CreateVertexArrays(handle)]
  {
    Emit(VertexArray(handle, 0, 0), [CreateVertexArrays(handle)])
  }

  /** `Bindable::bind` for a vertex array. */
  function BindVertexArrayCmd(va: VertexArray): (c: GlCmd)
    ensures c.BindVertexArray? && c.vaobj == va.handle
  {
    BindVertexArray(va.handle)
  }

  /** The attribute commands for `attribs`, written as the recursion the loop unrolls to:
      the first attribute gets index `first` and relative offset `offset`, the rest follow
      with the next index and the offset advanced by the first attribute's byte size. */
  function AttribCmds(vao: GLuint, first: nat, binding: nat, attribs: seq<nat>, offset: nat): seq<GlCmd>
    decreases |attribs|
  {
    if |attribs| == 0 then []
    else
      [ VertexArrayAttribFormat(vao, CastU32(first), CastI32(attribs[0]), FLOAT, false, CastU32(offset)),
        VertexArrayAttribBinding(vao, CastU32(first), CastU32(binding)) ]
      + AttribCmds(vao, first + 1, binding, attribs[1..], offset + FLOAT_SIZE * attribs[0])
  }

  /** The format command the k-th attribute of a `vertex_buffer` call must receive. */
  function FormatOf(vao: GLuint, first: nat, attribs: seq<nat>, offset: nat, k: nat): GlCmd
    requires k < |attribs|
  {
    VertexArrayAttribFormat(vao, CastU32(first + k), CastI32(attribs[k]), FLOAT, false,
                            CastU32(offset + FLOAT_SIZE * Sum(attribs[..k])))
  }

  /** The binding command the k-th attribute of a `vertex_buffer` call must receive. */
  function BindingOf(vao: GLuint, first: nat, binding: nat, k: nat): GlCmd {
    VertexArrayAttribBinding(vao, CastU32(first + k), CastU32(binding))
  }

  /** The recursion emits, for the k-th attribute, a format command with index `first + k`
      and relative offset `offset` plus the byte size of the attributes before it, followed
      by a binding command to `binding`. */
  lemma {:induction false} AttribCmdsShape(vao: GLuint, first: nat, binding: nat, attribs: seq<nat>, offset: nat)
    ensures |AttribCmds(vao, first, binding, attribs, offset)| == 2 * |attribs|
    ensures forall k :: 0 <= k < |attribs| ==>
      && AttribCmds(vao, first, binding, attribs, offset)[2 * k] == FormatOf(vao, first, attribs, offset, k)
      && AttribCmds(vao, first, binding, attribs, offset)[2 * k + 1] == BindingOf(vao, first, binding, k)
    decreases |attribs|
  {
    if |attribs| > 0 {
      var rest := attribs[1..];
      var offset' := offset + FLOAT_SIZE * attribs[0];
      AttribCmdsShape(vao, first + 1, binding, rest, offset');
      var cmds := AttribCmds(vao, first, binding, attribs, offset);
      forall k | 0 <= k < |attribs|
        ensures cmds[2 * k] == FormatOf(vao, first, attribs, offset, k)
        ensures cmds[2 * k + 1] == BindingOf(vao, first, binding, k)
      {
        if k > 0 {
          assert attribs[..k] == [attribs[0]] + rest[..k - 1];
          assert attribs[..k][1..] == rest[..k - 1];
          assert Sum(attribs[..k]) == attribs[0] + Sum(rest[..k - 1]);
          assert cmds[2 * k] == AttribCmds(vao, first + 1, binding, rest, offset')[2 * (k - 1)];
          assert cmds[2 * k + 1] == AttribCmds(vao, first + 1, binding, rest, offset')[2 * (k - 1) + 1];
        }
      }
    }
  }

  /** Appending one attribute to the list appends its format and binding commands, with
      the next index and the offset of everything before it. */
  lemma {:induction false} AttribCmdsSnoc(vao: GLuint, first: nat, binding: nat, s: seq<nat>, a: nat, offset: nat)
    ensures AttribCmds(vao, first, binding, s + [a], offset)
         == AttribCmds(vao, first, binding, s, offset)
          + [ VertexArrayAttribFormat(vao, CastU32(first + |s|), CastI32(a), FLOAT, false,
                                      CastU32(offset + FLOAT_SIZE * Sum(s))),
              VertexArrayAttribBinding(vao, CastU32(first + |s|), CastU32(binding)) ]
    decreases |s|
  {
    if |s| > 0 {
      assert (s + [a])[1..] == s[1..] + [a];
      AttribCmdsSnoc(vao, first + 1, binding, s[1..], a, offset + FLOAT_SIZE * s[0]);
    } else {
      assert s + [a] == [a];
    }
  }

  /** The reference result of `vertex_buffer(buf, attribs)`: counters advanced by the
      number of attributes and by one binding, and the commands bind, attribute layout,
      buffer attachment. */
  function VertexBufferSpec(va: VertexArray, buf: Buffer, attribs: seq<nat>): Emit<VertexArray> {
    Emit(va.(nextAttrib := va.nextAttrib + |attribs|, nextBinding := va.nextBinding + 1),
         [BindBufferCmd(buf)]
         + AttribCmds(va.handle, va.nextAttrib, va.nextBinding, attribs, 0)
         + [VertexArrayVertexBuffer(va.handle, CastU32(va.nextBinding), buf.handle, 0, CastI32(Stride(attribs)))])
  }

  /** The reference commands of `vertex_buffer`, command by command. */
  lemma VertexBufferSpecShape(va: VertexArray, buf: Buffer, attribs: seq<nat>)
    ensures var cmds := VertexBufferSpec(va, buf, attribs).cmds;
      && |cmds| == 2 * |attribs| + 2
      && cmds[0] == BindBufferCmd(buf)
      && (forall k :: 0 <= k < |attribs| ==>
            && cmds[2 * k + 1] == FormatOf(va.handle, va.nextAttrib, attribs, 0, k)
            && cmds[2 * k + 2] == BindingOf(va.handle, va.nextAttrib, va.nextBinding, k))
      && cmds[|cmds| - 1] ==
           VertexArrayVertexBuffer(va.handle, CastU32(va.nextBinding), buf.handle, 0, CastI32(Stride(attribs)))
  {
    var mid := AttribCmds(va.handle, va.nextAttrib, va.nextBinding, attribs, 0);
    AttribCmdsShape(va.handle, va.nextAttrib, va.nextBinding, attribs, 0);
    var cmds := VertexBufferSpec(va, buf, attribs).cmds;
    forall k | 0 <= k < |attribs|
      ensures cmds[2 * k + 1] == FormatOf(va.handle, va.nextAttrib, attribs, 0, k)
      ensures cmds[2 * k + 2] == BindingOf(va.handle, va.nextAttrib, va.nextBinding, k)
    {
      assert cmds[2 * k + 1] == mid[2 * k];
      assert cmds[2 * k + 2] == mid[2 * k + 1];
    }
  }

  /** `vertex_buffer(buf, attribs)`: binds `buf`, gives the k-th attribute the fresh index
      `nextAttrib + k`, relative offset 4 * (attribs[0] + ... + attribs[k-1]) and binding
      `nextBinding`, then attaches `buf` to that binding at offset 0 with stride
      4 * sum(attribs).  The counters grow by |attribs| and by 1, even for an empty list. */
  method VertexBuffer(va: VertexArray, buf: Buffer, attribs: seq<nat>) returns (r: Emit<VertexArray>)
    requires buf.elem == F32  // Buffer<f32>
    ensures r.value.handle == va.handle
    ensures r.value.nextAttrib == va.nextAttrib + |attribs|
    ensures r.value.nextBinding == va.nextBinding + 1
    ensures |r.cmds| == 2 * |attribs| + 2
    ensures r.cmds[0] == BindBufferCmd(buf)
    ensures forall k :: 0 <= k < |attribs| ==>
      && r.cmds[2 * k + 1] == FormatOf(va.handle, va.nextAttrib, attribs, 0, k)
      && r.cmds[2 * k + 2] == BindingOf(va.handle, va.nextAttrib, va.nextBinding, k)
    ensures r.cmds[|r.cmds| - 1] ==
      VertexArrayVertexBuffer(va.handle, CastU32(va.nextBinding), buf.handle, 0, CastI32(Stride(attribs)))
    ensures r == VertexBufferSpec(va, buf, attribs)
  {
    var stride: nat := 0;
    var nextAttrib := va.nextAttrib;
    var cmds := [BindBufferCmd(buf)];
    var i := 0;
    while i < |attribs|
      invariant 0 <= i <= |attribs|
      invariant nextAttrib == va.nextAttrib + i
      invariant stride == FLOAT_SIZE * Sum(attribs[..i])
      invariant cmds == [BindBufferCmd(buf)] + AttribCmds(va.handle, va.nextAttrib, va.nextBinding, attribs[..i], 0)
    {
      var a := attribs[i];
      assert attribs[..i + 1] == attribs[..i] + [a];
      AttribCmdsSnoc(va.handle, va.nextAttrib, va.nextBinding, attribs[..i], a, 0);
      SumSnoc(attribs[..i], a);
      cmds := cmds + [ VertexArrayAttribFormat(va.handle, CastU32(nextAttrib), CastI32(a), FLOAT, false, CastU32(stride)),
                       VertexArrayAttribBinding(va.handle, CastU32(nextAttrib), CastU32(va.nextBinding)) ];
      stride := stride + a * FLOAT_SIZE;
      nextAttrib := nextAttrib + 1;
      i := i + 1;
    }
    assert attribs[..i] == attribs;
    cmds := cmds + [VertexArrayVertexBuffer(va.handle, CastU32(va.nextBinding), buf.handle, 0, CastI32(stride))];
    r := Emit(va.(nextAttrib := nextAttrib, nextBinding := va.nextBinding + 1), cmds);
    VertexBufferSpecShape(va, buf, attribs);
  }

  /** `element_buffer(buf)`: binds `buf` and makes it the index buffer of this vertex
      array; the layout counters do not move. */
  function ElementBuffer(va: VertexArray, buf: Buffer): (r: Emit<VertexArray>)
    requires buf.elem == U32  // Buffer<u32>
    ensures r.value == va
    ensures |r.cmds| == 2
    ensures r.cmds[0].BindBuffer? && r.cmds[0].buffer == buf.handle
    ensures BufferTargetOf(r.cmds[0].target) == Some(buf.target)
    ensures r.cmds[1] == VertexArrayElementBuffer(va.handle, buf.handle)
  {
    Emit(va, [BindBufferCmd(buf), VertexArrayElementBuffer(va.handle, buf.handle)])
  }

  /** `draw_arrays(mode, count, start)`: binds this vertex array, then draws; note that the
      GL call takes `start` as its first-vertex argument and `count` second, both cast to
      GLint.  The layout counters do not move. */
  function DrawArraysOp(va: VertexArray, mode: DrawMode, count: nat, start: nat): (r: Emit<VertexArray>)
    requires count < TWO_64 && start < TWO_64  // usize
    ensures r.value == va
    ensures |r.cmds| == 2
    ensures r.cmds[0] == BindVertexArray(va.handle)
    ensures r.cmds[1].DrawArrays? && DrawModeOf(r.cmds[1].mode) == Some(mode)
    ensures start < TWO_31 ==> r.cmds[1].first == start
    ensures count < TWO_31 ==> r.cmds[1].count == count
    ensures (start - r.cmds[1].first) % TWO_32 == 0 && (count - r.cmds[1].count) % TWO_32 == 0
  {
    Emit(va, [BindVertexArrayCmd(va), DrawArrays(TranslateDrawMode(mode), CastI32(start), CastI32(count))])
  }
}
