/**
  A vertex array's whole life: `VertexArray::new()` followed by any sequence of
  `vertex_buffer`, `element_buffer` and `draw_arrays` calls.  The lemmas here relate
  calls to each other: the counters add up across calls, and the attribute and binding
  indices written to the GL log are consecutive and never reused.
 */
module Sessions {
  import opened Gl
  import opened Enums
  import opened Buffers
  import opened VertexArrays

  datatype Op =
    | AddVertexBuffer(buf: Buffer, attribs: seq<nat>)
    | SetElementBuffer(buf: Buffer)
    | Draw(mode: DrawMode, count: nat, start: nat)

  /** The argument types the source's signatures impose: `Buffer<f32>`, `Buffer<u32>`, `usize`. */
  predicate WellTyped(op: Op) {
    match op
    case AddVertexBuffer(buf, _) => buf.elem == F32
    case SetElementBuffer(buf) => buf.elem == U32
    case Draw(_, count, start) => count < TWO_64 && start < TWO_64
  }

  predicate AllWellTyped(ops: seq<Op>) {
    forall i :: 0 <= i < |ops| ==> WellTyped(ops[i])
  }

  function Step(va: VertexArray, op: Op): Emit<VertexArray>
    requires WellTyped(op)
  {
    match op
    case AddVertexBuffer(buf, attribs) => VertexBufferSpec(va, buf, attribs)
    case SetElementBuffer(buf) => ElementBuffer(va, buf)
    case Draw(mode, count, start) => DrawArraysOp(va, mode, count, start)
  }

  /** Applies `ops` in order; the log is the concatenation of each call's commands. */
  function Run(va: VertexArray, ops: seq<Op>): Emit<VertexArray>
    requires AllWellTyped(ops)
    decreases |ops|
  {
    if |ops| == 0 then Emit(va, [])
    else
      var first := Step(va, ops[0]);
      var rest := Run(first.value, ops[1..]);
      Emit(rest.value, first.cmds + rest.cmds)
  }

  /** Number of attributes declared by the `vertex_buffer` calls among `ops`. */
  function AttribCount(ops: seq<Op>): nat {
    if |ops| == 0 then 0
    else (if ops[0].AddVertexBuffer? then |ops[0].attribs| else 0) + AttribCount(ops[1..])
  }

  /** Number of `vertex_buffer` calls among `ops`. */
  function VertexBufferCount(ops: seq<Op>): nat {
    if |ops| == 0 then 0
    else (if ops[0].AddVertexBuffer? then 1 else 0) + VertexBufferCount(ops[1..])
  }

  /** The attribute indices of the `VertexArrayAttribFormat` commands in a log, in order. */
  function FormatIndices(cmds: seq<GlCmd>): seq<GLuint> {
    if |cmds| == 0 then []
    else (if cmds[0].VertexArrayAttribFormat? then [cmds[0].attribIndex] else []) + FormatIndices(cmds[1..])
  }

  /** The binding indices of the `VertexArrayVertexBuffer` commands in a log, in order. */
  function BufferBindings(cmds: seq<GlCmd>): seq<GLuint> {
    if |cmds| == 0 then []
    else (if cmds[0].VertexArrayVertexBuffer? then [cmds[0].bindingIndex] else []) + BufferBindings(cmds[1..])
  }

  /** `n` consecutive indices starting at `base`, as they reach GL after the `as GLuint` cast. */
  function Consecutive(base: nat, n: nat): seq<int> {
    seq(n, i requires 0 <= i < n => CastU32(base + i))
  }

  lemma ConsecutiveSplit(base: nat, m: nat, n: nat)
    ensures Consecutive(base, m) + Consecutive(base + m, n) == Consecutive(base, m + n)
  {
  }

  lemma {:induction false} FormatIndicesAppend(a: seq<GlCmd>, b: seq<GlCmd>)
    ensures FormatIndices(a + b) == FormatIndices(a) + FormatIndices(b)
    decreases |a|
  {
    if |a| > 0 {
      assert (a + b)[1..] == a[1..] + b;
      FormatIndicesAppend(a[1..], b);
    } else {
      assert a + b == b;
    }
  }

  lemma {:induction false} BufferBindingsAppend(a: seq<GlCmd>, b: seq<GlCmd>)
    ensures BufferBindings(a + b) == BufferBindings(a) + BufferBindings(b)
    decreases |a|
  {
    if |a| > 0 {
      assert (a + b)[1..] == a[1..] + b;
      BufferBindingsAppend(a[1..], b);
    } else {
      assert a + b == b;
    }
  }

  /** The attribute commands of one call name the indices `first`, `first + 1`, ... in order,
      and attach no buffer. */
  lemma {:induction false} AttribCmdsIndices(vao: GLuint, first: nat, binding: nat, attribs: seq<nat>, offset: nat)
    ensures FormatIndices(AttribCmds(vao, first, binding, attribs, offset)) == Consecutive(first, |attribs|)
    ensures BufferBindings(AttribCmds(vao, first, binding, attribs, offset)) == []
    decreases |attribs|
  {
    if |attribs| > 0 {
      var head := [ VertexArrayAttribFormat(vao, CastU32(first), CastI32(attribs[0]), FLOAT, false, CastU32(offset)),
                    VertexArrayAttribBinding(vao, CastU32(first), CastU32(binding)) ];
      var tail := AttribCmds(vao, first + 1, binding, attribs[1..], offset + FLOAT_SIZE * attribs[0]);
      assert AttribCmds(vao, first, binding, attribs, offset) == head + tail;
      AttribCmdsIndices(vao, first + 1, binding, attribs[1..], offset + FLOAT_SIZE * attribs[0]);
      FormatIndicesAppend(head, tail);
      BufferBindingsAppend(head, tail);
      assert FormatIndices(head) == [CastU32(first)] by {
        assert head[1..][1..] == [];
      }
      assert BufferBindings(head) == [] by {
        assert head[1..][1..] == [];
      }
      ConsecutiveSplit(first, 1, |attribs| - 1);
    }
  }

  /** A `vertex_buffer` call writes the attribute indices `va.nextAttrib, ...`, one per
      attribute, and attaches its buffer to binding `va.nextBinding` only. */
  lemma VertexBufferIndices(va: VertexArray, buf: Buffer, attribs: seq<nat>)
    ensures FormatIndices(VertexBufferSpec(va, buf, attribs).cmds) == Consecutive(va.nextAttrib, |attribs|)
    ensures BufferBindings(VertexBufferSpec(va, buf, attribs).cmds) == Consecutive(va.nextBinding, 1)
  {
    var bind := [BindBufferCmd(buf)];
    var mid := AttribCmds(va.handle, va.nextAttrib, va.nextBinding, attribs, 0);
    var last := [VertexArrayVertexBuffer(va.handle, CastU32(va.nextBinding), buf.handle, 0, CastI32(Stride(attribs)))];
    assert VertexBufferSpec(va, buf, attribs).cmds == bind + mid + last;
    AttribCmdsIndices(va.handle, va.nextAttrib, va.nextBinding, attribs, 0);
    FormatIndicesAppend(bind, mid);
    FormatIndicesAppend(bind + mid, last);
    BufferBindingsAppend(bind, mid);
    BufferBindingsAppend(bind + mid, last);
  }

  /** A log of two commands, neither of them a format or buffer attachment, names no index. */
  lemma NoLayoutIndices(cmds: seq<GlCmd>)
    requires |cmds| == 2
    requires !cmds[0].VertexArrayAttribFormat? && !cmds[0].VertexArrayVertexBuffer?
    requires !cmds[1].VertexArrayAttribFormat? && !cmds[1].VertexArrayVertexBuffer?
    ensures FormatIndices(cmds) == [] && BufferBindings(cmds) == []
  {
    assert cmds[1..][1..] == [];
    assert FormatIndices(cmds) == FormatIndices(cmds[1..]) == FormatIndices(cmds[1..][1..]);
    assert BufferBindings(cmds) == BufferBindings(cmds[1..]) == BufferBindings(cmds[1..][1..]);
  }

  /** One call writes the attribute indices `va.nextAttrib, ...` (one per declared
      attribute) and, if it is a `vertex_buffer` call, attaches its buffer to binding
      `va.nextBinding`. */
  lemma StepIndices(va: VertexArray, op: Op)
    requires WellTyped(op)
    ensures FormatIndices(Step(va, op).cmds) == Consecutive(va.nextAttrib, AttribCount([op]))
    ensures BufferBindings(Step(va, op).cmds) == Consecutive(va.nextBinding, VertexBufferCount([op]))
  {
    assert [op][1..] == [];
    match op
    case AddVertexBuffer(buf, attribs) =>
      VertexBufferIndices(va, buf, attribs);
    case SetElementBuffer(buf) =>
      NoLayoutIndices(Step(va, op).cmds);
    case Draw(mode, count, start) =>
      NoLayoutIndices(Step(va, op).cmds);
  }

  /** Across any sequence of calls the counters advance by the number of declared
      attributes and by the number of `vertex_buffer` calls; the handle never changes. */
  lemma {:induction false} RunCounters(va: VertexArray, ops: seq<Op>)
    requires AllWellTyped(ops)
    ensures Run(va, ops).value.handle == va.handle
    ensures Run(va, ops).value.nextAttrib == va.nextAttrib + AttribCount(ops)
    ensures Run(va, ops).value.nextBinding == va.nextBinding + VertexBufferCount(ops)
    decreases |ops|
  {
    if |ops| > 0 {
      assert WellTyped(ops[0]);
      var first := Step(va, ops[0]);
      assert AllWellTyped(ops[1..]) by {
        forall i | 0 <= i < |ops[1..]| ensures WellTyped(ops[1..][i]) {
          assert ops[1..][i] == ops[i + 1];
        }
      }
      RunCounters(first.value, ops[1..]);
    }
  }

  /** Across any sequence of calls the attribute indices written to GL are exactly the
      consecutive run starting at the initial counter, one per declared attribute, and the
      binding indices that receive buffers are the consecutive run starting at the initial
      binding counter, one per `vertex_buffer` call. */
  lemma {:induction false} RunIndices(va: VertexArray, ops: seq<Op>)
    requires AllWellTyped(ops)
    ensures FormatIndices(Run(va, ops).cmds) == Consecutive(va.nextAttrib, AttribCount(ops))
    ensures BufferBindings(Run(va, ops).cmds) == Consecutive(va.nextBinding, VertexBufferCount(ops))
    decreases |ops|
  {
    if |ops| > 0 {
      assert WellTyped(ops[0]);
      var first := Step(va, ops[0]);
      assert AllWellTyped(ops[1..]) by {
        forall i | 0 <= i < |ops[1..]| ensures WellTyped(ops[1..][i]) {
          assert ops[1..][i] == ops[i + 1];
        }
      }
      var rest := Run(first.value, ops[1..]);
      StepIndices(va, ops[0]);
      RunIndices(first.value, ops[1..]);
      RunCounters(va, [ops[0]]);
      assert Run(va, [ops[0]]).value == first.value by {
        assert [ops[0]][1..] == [];
      }
      FormatIndicesAppend(first.cmds, rest.cmds);
      BufferBindingsAppend(first.cmds, rest.cmds);
      ConsecutiveSplit(va.nextAttrib, AttribCount([ops[0]]), AttribCount(ops[1..]));
      ConsecutiveSplit(va.nextBinding, VertexBufferCount([ops[0]]), VertexBufferCount(ops[1..]));
    }
  }

  /** Consecutive indices that stay below 2^32 are pairwise distinct. */
  lemma ConsecutiveDistinct(base: nat, n: nat)
    requires base + n <= TWO_32
    ensures forall i, j :: 0 <= i < j < n ==> Consecutive(base, n)[i] != Consecutive(base, n)[j]
  {
    forall i | 0 <= i < n
      ensures Consecutive(base, n)[i] == base + i
    {
      assert CastU32(base + i) == base + i;
    }
  }

  /** Starting from `VertexArray::new()`, no attribute index and no binding index is ever
      written twice, as long as the counters stay within GLuint. */
  lemma NoIndexReused(handle: GLuint, ops: seq<Op>)
    requires AllWellTyped(ops)
    requires AttribCount(ops) <= TWO_32 && VertexBufferCount(ops) <= TWO_32
    ensures var idx := FormatIndices(Run(New(handle).value, ops).cmds);
      forall i, j :: 0 <= i < j < |idx| ==> idx[i] != idx[j]
    ensures var bs := BufferBindings(Run(New(handle).value, ops).cmds);
      forall i, j :: 0 <= i < j < |bs| ==> bs[i] != bs[j]
  {
    RunIndices(New(handle).value, ops);
    ConsecutiveDistinct(0, AttribCount(ops));
    ConsecutiveDistinct(0, VertexBufferCount(ops));
  }

  /** The demo application's `vertex_buffer(b, [2, 2])` (testapp/src/main.rs:36) on a new
      vertex array, followed by a second call with `[3]`: three attributes, two bindings,
      strides 16 and 12, and the third attribute starts at offset 0 of binding 1. */
  lemma TwoVertexBuffers(handle: GLuint, b: Buffer)
    requires b.elem == F32
    ensures var r := Run(New(handle).value, [AddVertexBuffer(b, [2, 2]), AddVertexBuffer(b, [3])]);
      && r.value.nextAttrib == 3
      && r.value.nextBinding == 2
      && |r.cmds| == 10
      && r.cmds[5] == VertexArrayVertexBuffer(handle, 0, b.handle, 0, 16)
      && r.cmds[7] == VertexArrayAttribFormat(handle, 2, 3, FLOAT, false, 0)
      && r.cmds[8] == VertexArrayAttribBinding(handle, 2, 1)
      && r.cmds[9] == VertexArrayVertexBuffer(handle, 1, b.handle, 0, 12)
  {
    var ops := [AddVertexBuffer(b, [2, 2]), AddVertexBuffer(b, [3])];
    var va0 := New(handle).value;
    var s1 := VertexBufferSpec(va0, b, [2, 2]);
    var s2 := VertexBufferSpec(s1.value, b, [3]);
    assert ops[1..] == [AddVertexBuffer(b, [3])];
    assert ops[1..][1..] == [];
    assert Step(va0, ops[0]) == s1;
    assert Step(s1.value, ops[1..][0]) == s2;
    assert Run(s2.value, ops[1..][1..]) == Emit(s2.value, []);
    assert Run(s1.value, ops[1..]) == Emit(s2.value, s2.cmds + []);
    assert Run(va0, ops) == Emit(s2.value, s1.cmds + (s2.cmds + []));
    AttribCmdsShape(handle, 0, 0, [2, 2], 0);
    AttribCmdsShape(handle, 2, 1, [3], 0);
    assert [2, 2][..1] == [2];
    assert Sum([2, 2]) == 4 by { assert [2, 2][1..] == [2]; }
    assert Sum([3]) == 3;
  }
}
