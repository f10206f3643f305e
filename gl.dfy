/** The bookkeeping of the GL wrapper: a program's typed uniform slots, the
    calls `render_vertices` issues for them, and the context's registries of
    GL objects that `maintain` deletes once nothing else refers to them. GL
    calls are not performed; the methods return the calls they would issue. */
module Gl {
  import opened Ints
  import opened Options
  import opened Vecs

  /** A GL object name (shader, program, texture, buffer, vertex array) or a
      uniform or attribute location. */
  type Handle = nat

  /** `glow::TEXTURE0`: texture unit `k` is `TEXTURE0 + k`. */
  const TEXTURE0: int := 0x84C0

  datatype UniformType =
    | Texture | Int | Int2 | Int3 | Int4 | Float | Float2 | Float3 | Float4 | Mat2 | Mat3 | Mat4

  /** A matrix as its rows. */
  type Matrix = seq<seq<real>>

  /** A value handed to `set_uniform`; a texture is given by its GL name. */
  datatype Uniform =
    | Texture(texture: Handle)
    | Int(i: i32)
    | Int2(i: i32, j: i32)
    | Int3(i: i32, j: i32, k: i32)
    | Int4(i: i32, j: i32, k: i32, l: i32)
    | Float(x: real)
    | Float2(x: real, y: real)
    | Float3(x: real, y: real, z: real)
    | Float4(x: real, y: real, z: real, w: real)
    | Mat2(m: Matrix)
    | Mat3(m: Matrix)
    | Mat4(m: Matrix)

  /** A value held in a program's uniform slot. */
  datatype SetUniformValue =
    | Texture(texture: Handle)
    | Int(i: i32)
    | Int2(i: i32, j: i32)
    | Int3(i: i32, j: i32, k: i32)
    | Int4(i: i32, j: i32, k: i32, l: i32)
    | Float(x: real)
    | Float2(x: real, y: real)
    | Float3(x: real, y: real, z: real)
    | Float4(x: real, y: real, z: real, w: real)
    | Mat2(m: Matrix)
    | Mat3(m: Matrix)
    | Mat4(m: Matrix)

  /** `Uniform::uniform_type`: every variant has the type of the same name. */
  function UniformTypeOf(u: Uniform): (t: UniformType)
    ensures u.Texture? <==> t.Texture?
    ensures u.Int? <==> t.Int?
    ensures u.Int2? <==> t.Int2?
    ensures u.Int3? <==> t.Int3?
    ensures u.Int4? <==> t.Int4?
    ensures u.Float? <==> t.Float?
    ensures u.Float2? <==> t.Float2?
    ensures u.Float3? <==> t.Float3?
    ensures u.Float4? <==> t.Float4?
    ensures u.Mat2? <==> t.Mat2?
    ensures u.Mat3? <==> t.Mat3?
    ensures u.Mat4? <==> t.Mat4?
  {
    match u
    case Texture(_) => UniformType.Texture
    case Int(_) => UniformType.Int
    case Int2(_, _) => UniformType.Int2
    case Int3(_, _, _) => UniformType.Int3
    case Int4(_, _, _, _) => UniformType.Int4
    case Float(_) => UniformType.Float
    case Float2(_, _) => UniformType.Float2
    case Float3(_, _, _) => UniformType.Float3
    case Float4(_, _, _, _) => UniformType.Float4
    case Mat2(_) => UniformType.Mat2
    case Mat3(_) => UniformType.Mat3
    case Mat4(_) => UniformType.Mat4
  }

  /** The type of a stored value. */
  function ValueType(v: SetUniformValue): UniformType {
    match v
    case Texture(_) => UniformType.Texture
    case Int(_) => UniformType.Int
    case Int2(_, _) => UniformType.Int2
    case Int3(_, _, _) => UniformType.Int3
    case Int4(_, _, _, _) => UniformType.Int4
    case Float(_) => UniformType.Float
    case Float2(_, _) => UniformType.Float2
    case Float3(_, _, _) => UniformType.Float3
    case Float4(_, _, _, _) => UniformType.Float4
    case Mat2(_) => UniformType.Mat2
    case Mat3(_) => UniformType.Mat3
    case Mat4(_) => UniformType.Mat4
  }

  /** The `match value` of `set_uniform`: what a slot holds after `value` is
      set into it. The payload is carried over unchanged and the type kept. */
  function Stored(u: Uniform): (v: SetUniformValue)
    ensures ValueType(v) == UniformTypeOf(u)
  {
    match u
    case Texture(t) => SetUniformValue.Texture(t)
    case Int(x) => SetUniformValue.Int(x)
    case Int2(x, y) => SetUniformValue.Int2(x, y)
    case Int3(x, y, z) => SetUniformValue.Int3(x, y, z)
    case Int4(x, y, z, w) => SetUniformValue.Int4(x, y, z, w)
    case Float(x) => SetUniformValue.Float(x)
    case Float2(x, y) => SetUniformValue.Float2(x, y)
    case Float3(x, y, z) => SetUniformValue.Float3(x, y, z)
    case Float4(x, y, z, w) => SetUniformValue.Float4(x, y, z, w)
    case Mat2(m) => SetUniformValue.Mat2(m)
    case Mat3(m) => SetUniformValue.Mat3(m)
    case Mat4(m) => SetUniformValue.Mat4(m)
  }

  /** The value a slot holds can be read back as the uniform that was set:
      storing loses nothing, and two different uniforms are stored differently. */
  function Loaded(v: SetUniformValue): (u: Uniform)
    ensures Stored(u) == v
  {
    match v
    case Texture(t) => Uniform.Texture(t)
    case Int(x) => Uniform.Int(x)
    case Int2(x, y) => Uniform.Int2(x, y)
    case Int3(x, y, z) => Uniform.Int3(x, y, z)
    case Int4(x, y, z, w) => Uniform.Int4(x, y, z, w)
    case Float(x) => Uniform.Float(x)
    case Float2(x, y) => Uniform.Float2(x, y)
    case Float3(x, y, z) => Uniform.Float3(x, y, z)
    case Float4(x, y, z, w) => Uniform.Float4(x, y, z, w)
    case Mat2(m) => Uniform.Mat2(m)
    case Mat3(m) => Uniform.Mat3(m)
    case Mat4(m) => Uniform.Mat4(m)
  }

  lemma StoredRoundTrip(u: Uniform)
    ensures Loaded(Stored(u)) == u
  {
  }

  datatype VertexAttributeType = IntAttribute | UintAttribute | FloatAttribute

  /** A resolved attribute: its location, component type, size and offset. */
  datatype Attribute = Attribute(location: Handle, ty: VertexAttributeType, size: int, offset: int)

  /** `glow::FLOAT`, `glow::BYTE` and `glow::UNSIGNED_BYTE`. */
  function AttributeGlType(t: VertexAttributeType): int {
    match t
    case FloatAttribute => 0x1406
    case IntAttribute => 0x1400
    case UintAttribute => 0x1401
  }

  /** The kinds of GL object the context keeps a registry of. */
  datatype ObjectKind = ProgramObject | ShaderObject | VertexArrayObject | BufferObject | TextureObject

  /** The GL calls the model keeps track of. */
  datatype GlCall =
    | BlendFunc
    | EnableBlend
    | BindVertexArray(vertexArray: Handle)
    | BindArrayBuffer(buffer: Handle)
    | UseProgram(program: Handle)
    | ActiveTexture(unit: int)
    | BindTexture(texture: Handle)
    | UniformInts(location: Handle, ints: seq<i32>)
    | UniformFloats(location: Handle, floats: seq<real>)
    | UniformMatrix(location: Handle, dimension: nat, entries: seq<real>)
    | EnableVertexAttribArray(location: Handle)
    | VertexAttribPointer(location: Handle, size: int, glType: int, stride: int, offset: int)
    | DrawTriangles(count: int)
    | Delete(kind: ObjectKind, object: Handle)

  /** A uniform slot: its location and the value set into it, if any. */
  datatype Slot = Slot(location: Handle, value: Option<SetUniformValue>)

  predicate AllSet(slots: seq<Slot>) {
    forall i :: 0 <= i < |slots| ==> slots[i].value.Some?
  }

  /** The rows of a matrix one after the other. */
  function Flatten(m: Matrix): (r: seq<real>)
    ensures |m| > 0 ==> r == m[0] + Flatten(m[1..])
  {
    if m == [] then [] else m[0] + Flatten(m[1..])
  }

  /** The number of texture slots in `slots`: the next free texture unit. */
  function TextureCount(slots: seq<Slot>): (n: nat)
    requires AllSet(slots)
    ensures n <= |slots|
    decreases |slots|
  {
    if slots == [] then 0
    else TextureCount(slots[..|slots| - 1]) + if slots[|slots| - 1].value.value.Texture? then 1 else 0
  }

  /** The calls that upload one slot's value; a texture binds texture unit `unit`. */
  function SlotCalls(location: Handle, v: SetUniformValue, unit: nat): seq<GlCall>
    requires unit < 0x8000_0000
  {
    match v
    case Texture(t) => [ActiveTexture(TEXTURE0 + unit), BindTexture(t), UniformInts(location, [unit as i32])]
    case Int(x) => [UniformInts(location, [x])]
    case Int2(x, y) => [UniformInts(location, [x, y])]
    case Int3(x, y, z) => [UniformInts(location, [x, y, z])]
    case Int4(x, y, z, w) => [UniformInts(location, [x, y, z, w])]
    case Float(x) => [UniformFloats(location, [x])]
    case Float2(x, y) => [UniformFloats(location, [x, y])]
    case Float3(x, y, z) => [UniformFloats(location, [x, y, z])]
    case Float4(x, y, z, w) => [UniformFloats(location, [x, y, z, w])]
    case Mat2(m) => [UniformMatrix(location, 2, Flatten(m))]
    case Mat3(m) => [UniformMatrix(location, 3, Flatten(m))]
    case Mat4(m) => [UniformMatrix(location, 4, Flatten(m))]
  }

  /** The calls of the uniform loop over `slots`, in slot order. */
  function UniformCalls(slots: seq<Slot>): seq<GlCall>
    requires AllSet(slots) && |slots| < 0x8000_0000
    decreases |slots|
  {
    if slots == [] then []
    else
      var init := slots[..|slots| - 1];
      var last := slots[|slots| - 1];
      UniformCalls(init) + SlotCalls(last.location, last.value.value, TextureCount(init))
  }

  /** The texture units a run of calls activates, in order. */
  function ActivatedUnits(calls: seq<GlCall>): seq<int>
    decreases |calls|
  {
    if calls == [] then []
    else ActivatedUnits(calls[..|calls| - 1]) + if calls[|calls| - 1].ActiveTexture? then [calls[|calls| - 1].unit] else []
  }

  lemma {:induction false} ActivatedUnitsAppend(a: seq<GlCall>, b: seq<GlCall>)
    ensures ActivatedUnits(a + b) == ActivatedUnits(a) + ActivatedUnits(b)
    decreases |b|
  {
    if b != [] {
      var b' := b[..|b| - 1];
      assert (a + b)[..|a + b| - 1] == a + b';
      assert (a + b)[|a + b| - 1] == b[|b| - 1];
      ActivatedUnitsAppend(a, b');
    } else {
      assert a + b == a;
    }
  }

  /** The units `TEXTURE0 + lo`, ..., `TEXTURE0 + hi - 1`. */
  function Units(lo: nat, hi: nat): (r: seq<int>)
    requires lo <= hi
    ensures |r| == hi - lo
    ensures forall k :: 0 <= k < |r| ==> r[k] == TEXTURE0 + lo + k
    decreases hi - lo
  {
    if lo == hi then [] else Units(lo, hi - 1) + [TEXTURE0 + hi - 1]
  }

  /** A texture slot activates its own unit and no other; the other kinds
      of uniform activate none. */
  lemma SlotUnits(location: Handle, v: SetUniformValue, unit: nat)
    requires unit < 0x8000_0000
    ensures ActivatedUnits(SlotCalls(location, v, unit)) == if v.Texture? then [TEXTURE0 + unit] else []
  {
    var calls := SlotCalls(location, v, unit);
    if v.Texture? {
      assert calls[..2][..1] == calls[..1] && calls[..1][..0] == [];
      assert ActivatedUnits(calls[..1]) == [TEXTURE0 + unit];
      assert ActivatedUnits(calls[..2]) == [TEXTURE0 + unit];
    } else {
      assert |calls| == 1 && calls[..0] == [];
    }
  }

  /** Texture slots get the texture units 0, 1, 2, ... in slot order, one per
      texture, and the other kinds of uniform take none. */
  lemma {:induction false} TextureUnitsInOrder(slots: seq<Slot>)
    requires AllSet(slots) && |slots| < 0x8000_0000
    ensures ActivatedUnits(UniformCalls(slots)) == Units(0, TextureCount(slots))
    decreases |slots|
  {
    if slots != [] {
      var init := slots[..|slots| - 1];
      var last := slots[|slots| - 1];
      TextureUnitsInOrder(init);
      ActivatedUnitsAppend(UniformCalls(init), SlotCalls(last.location, last.value.value, TextureCount(init)));
      SlotUnits(last.location, last.value.value, TextureCount(init));
    }
  }

  /** The calls of the attribute loop. */
  function AttributeCalls(attributes: seq<Attribute>, stride: int): seq<GlCall>
    decreases |attributes|
  {
    if attributes == [] then []
    else
      var init := attributes[..|attributes| - 1];
      var a := attributes[|attributes| - 1];
      AttributeCalls(init, stride)
        + [EnableVertexAttribArray(a.location), VertexAttribPointer(a.location, a.size, AttributeGlType(a.ty), stride, a.offset)]
  }

  /** The error `render_vertices` reports: the first slot with no value. */
  datatype RenderResult = Rendered | UniformNotSet(index: nat)

  /** The outcome of `set_uniform`. `IndexPanic` is `index == len`, which
      passes the `index > len` check and then indexes past the end. */
  datatype SetResult = SetOk | OutOfRange | WrongType(expected: UniformType, got: UniformType) | IndexPanic

  /** A vertex buffer: its vertex array and buffer names and vertex count. */
  datatype VertexBuffer = VertexBuffer(vertexArray: Handle, buffer: Handle, len: int)

  /** A linked program: its GL name, the declared type of each uniform, its
      uniform slots and its resolved vertex format. */
  class Program {
    const programId: Handle
    const uniformEntryTypes: seq<UniformType>
    var setUniforms: seq<Slot>
    const stride: int
    const attributes: seq<Attribute>

    /** Both lists come from the descriptor's uniform entries, and a slot only
        ever holds a value of its declared type. */
    ghost predicate Valid()
      reads this
    {
      && |setUniforms| == |uniformEntryTypes|
      && forall i :: 0 <= i < |setUniforms| && setUniforms[i].value.Some? ==>
           ValueType(setUniforms[i].value.value) == uniformEntryTypes[i]
    }

    /** The program `create_program` returns once linking and every location
        lookup succeeded: one unset slot per uniform entry. */
    constructor (programId: Handle, entryTypes: seq<UniformType>, locations: seq<Handle>,
                 stride: int, attributes: seq<Attribute>)
      requires |locations| == |entryTypes|
      ensures Valid()
      ensures this.programId == programId && uniformEntryTypes == entryTypes
      ensures this.stride == stride && this.attributes == attributes
      ensures |setUniforms| == |locations|
      ensures forall i :: 0 <= i < |locations| ==> setUniforms[i] == Slot(locations[i], None)
    {
      this.programId := programId;
      uniformEntryTypes := entryTypes;
      this.stride := stride;
      this.attributes := attributes;
      setUniforms := seq(|locations|, i requires 0 <= i < |locations| => Slot(locations[i], None));
    }

    /** `Program::set_uniform`. */
    method SetUniform(index: nat, value: Uniform) returns (res: SetResult)
      requires Valid()
      modifies this
      ensures Valid()
      ensures res == OutOfRange <==> index > |old(setUniforms)|
      ensures res == IndexPanic <==> index == |old(setUniforms)|
      ensures res.WrongType? <==>
                index < |old(setUniforms)| && UniformTypeOf(value) != uniformEntryTypes[index]
      ensures res.WrongType? ==> res == WrongType(uniformEntryTypes[index], UniformTypeOf(value))
      ensures res == SetOk ==>
                setUniforms == old(setUniforms)[index := Slot(old(setUniforms)[index].location, Some(Stored(value)))]
      ensures res != SetOk ==> setUniforms == old(setUniforms)
    {
      if index > |setUniforms| {
        return OutOfRange;
      }
      if index == |setUniforms| {
        // `self.uniform_entry_types[index]` with `index == len`
        return IndexPanic;
      }
      if UniformTypeOf(value) != uniformEntryTypes[index] {
        return WrongType(uniformEntryTypes[index], UniformTypeOf(value));
      }
      setUniforms := setUniforms[index := Slot(setUniforms[index].location, Some(Stored(value)))];
      return SetOk;
    }

    /** `Program::render_vertices`: the calls it issues, in order. Setup calls
        come first; a slot with no value stops the uniform loop with an error,
        so nothing is drawn; otherwise the attributes are enabled and one
        triangle draw covers the buffer. */
    method RenderVertices(vb: VertexBuffer) returns (res: RenderResult, calls: seq<GlCall>)
      requires |setUniforms| < 0x8000_0000
      ensures res.UniformNotSet? <==> !AllSet(setUniforms)
      ensures res.UniformNotSet? ==>
                && res.index < |setUniforms| && setUniforms[res.index].value.None?
                && AllSet(setUniforms[..res.index])
                && calls == Setup(vb, programId) + UniformCalls(setUniforms[..res.index])
      ensures res.Rendered? ==>
                calls == Setup(vb, programId) + UniformCalls(setUniforms)
                         + AttributeCalls(attributes, stride) + [DrawTriangles(vb.len)]
    {
      var setup := Setup(vb, programId);
      var unset, uploads := UploadUniforms(setUniforms);
      if unset.Some? {
        return UniformNotSet(unset.value), setup + uploads;
      }
      var enables := EnableAttributes(attributes, stride);
      calls := setup + uploads + enables + [DrawTriangles(vb.len)];
      return Rendered, calls;
    }
  }

  /** One more set slot extends the uniform calls by that slot's calls. */
  lemma UniformStep(slots: seq<Slot>, i: nat)
    requires i < |slots| < 0x8000_0000 && AllSet(slots[..i]) && slots[i].value.Some?
    ensures AllSet(slots[..i + 1])
    ensures TextureCount(slots[..i + 1])
              == TextureCount(slots[..i]) + if slots[i].value.value.Texture? then 1 else 0
    ensures UniformCalls(slots[..i + 1])
              == UniformCalls(slots[..i]) + SlotCalls(slots[i].location, slots[i].value.value, TextureCount(slots[..i]))
  {
    assert slots[..i + 1][..i] == slots[..i];
    assert slots[..i + 1][i] == slots[i];
  }

  /** One more attribute extends the attribute calls by its two calls. */
  lemma AttributeStep(attributes: seq<Attribute>, j: nat, stride: int)
    requires j < |attributes|
    ensures AttributeCalls(attributes[..j + 1], stride)
              == AttributeCalls(attributes[..j], stride)
                 + [EnableVertexAttribArray(attributes[j].location),
                    VertexAttribPointer(attributes[j].location, attributes[j].size,
                                        AttributeGlType(attributes[j].ty), stride, attributes[j].offset)]
  {
    assert attributes[..j + 1][..j] == attributes[..j];
  }

  /** The uniform loop of `render_vertices`: the calls for each slot in
      order, stopping at the first slot with no value. */
  method UploadUniforms(slots: seq<Slot>) returns (unset: Option<nat>, calls: seq<GlCall>)
    requires |slots| < 0x8000_0000
    ensures unset.None? <==> AllSet(slots)
    ensures unset.None? ==> calls == UniformCalls(slots)
    ensures unset.Some? ==>
              && unset.value < |slots| && slots[unset.value].value.None?
              && AllSet(slots[..unset.value])
              && calls == UniformCalls(slots[..unset.value])
  {
    calls := [];
    var textureIndex := 0;
    var i := 0;
    while i < |slots|
      invariant 0 <= i <= |slots|
      invariant AllSet(slots[..i])
      invariant textureIndex == TextureCount(slots[..i])
      invariant calls == UniformCalls(slots[..i])
    {
      var slot := slots[i];
      if slot.value.None? {
        return Some(i), calls;
      }
      var value := slot.value.value;
      UniformStep(slots, i);
      calls := calls + SlotCalls(slot.location, value, textureIndex);
      if value.Texture? {
        textureIndex := textureIndex + 1;
      }
      i := i + 1;
    }
    assert slots[..i] == slots;
    return None, calls;
  }

  /** The attribute loop of `render_vertices`: enable each attribute and
      describe its layout within a vertex of `stride` bytes. */
  method EnableAttributes(attributes: seq<Attribute>, stride: int) returns (calls: seq<GlCall>)
    ensures calls == AttributeCalls(attributes, stride)
  {
    calls := [];
    var j := 0;
    while j < |attributes|
      invariant 0 <= j <= |attributes|
      invariant calls == AttributeCalls(attributes[..j], stride)
    {
      var a := attributes[j];
      AttributeStep(attributes, j, stride);
      calls := calls + [EnableVertexAttribArray(a.location),
                        VertexAttribPointer(a.location, a.size, AttributeGlType(a.ty), stride, a.offset)];
      j := j + 1;
    }
    assert attributes[..j] == attributes;
  }

  /** Blending, the vertex array and buffer, and the program. */
  function Setup(vb: VertexBuffer, program: Handle): seq<GlCall> {
    [BlendFunc, EnableBlend, BindVertexArray(vb.vertexArray), BindArrayBuffer(vb.buffer), UseProgram(program)]
  }

  /** A failed render issues no draw at all. */
  lemma NoDrawOnError(slots: seq<Slot>, i: nat, vb: VertexBuffer, program: Handle)
    requires i < |slots| < 0x8000_0000 && AllSet(slots[..i])
    ensures forall k :: 0 <= k < |Setup(vb, program) + UniformCalls(slots[..i])| ==>
              !(Setup(vb, program) + UniformCalls(slots[..i]))[k].DrawTriangles?
  {
    NoDrawInUniforms(slots[..i]);
  }

  lemma {:induction false} NoDrawInUniforms(slots: seq<Slot>)
    requires AllSet(slots) && |slots| < 0x8000_0000
    ensures forall k :: 0 <= k < |UniformCalls(slots)| ==> !UniformCalls(slots)[k].DrawTriangles?
    decreases |slots|
  {
    if slots != [] {
      NoDrawInUniforms(slots[..|slots| - 1]);
    }
  }

  /** The entries `maintain` keeps: those something besides the registry still
      refers to. */
  function Keep(reg: seq<Handle>, strong: Handle -> nat): (r: seq<Handle>)
    decreases |reg|
  {
    if reg == [] then []
    else Keep(reg[..|reg| - 1], strong) + if strong(reg[|reg| - 1]) != 1 then [reg[|reg| - 1]] else []
  }

  /** The entries `maintain` deletes, highest position first. */
  function DroppedDesc(reg: seq<Handle>, strong: Handle -> nat): (r: seq<Handle>)
    decreases |reg|
  {
    if reg == [] then []
    else (if strong(reg[|reg| - 1]) == 1 then [reg[|reg| - 1]] else []) + DroppedDesc(reg[..|reg| - 1], strong)
  }

  /** An entry is kept iff only something besides the registry holds it, and
      deleted iff the registry holds the last reference. */
  lemma {:induction false} KeepAndDropMembers(reg: seq<Handle>, strong: Handle -> nat, x: Handle)
    ensures x in Keep(reg, strong) <==> x in reg && strong(x) != 1
    ensures x in DroppedDesc(reg, strong) <==> x in reg && strong(x) == 1
    decreases |reg|
  {
    if reg != [] {
      KeepAndDropMembers(reg[..|reg| - 1], strong, x);
      assert reg == reg[..|reg| - 1] + [reg[|reg| - 1]];
    }
  }

  /** Splitting a registry into what is kept and what is dropped loses and
      adds nothing. */
  lemma {:induction false} KeepAndDropPartition(reg: seq<Handle>, strong: Handle -> nat)
    ensures multiset(Keep(reg, strong)) + multiset(DroppedDesc(reg, strong)) == multiset(reg)
    decreases |reg|
  {
    if reg != [] {
      KeepAndDropPartition(reg[..|reg| - 1], strong);
      assert reg == reg[..|reg| - 1] + [reg[|reg| - 1]];
    }
  }

  /** `Keep` and `DroppedDesc` on a suffix of the registry one entry longer. */
  lemma KeepSuffix(reg: seq<Handle>, strong: Handle -> nat, i: nat)
    requires 0 < i <= |reg|
    ensures DroppedDesc(reg[i - 1..], strong)
              == DroppedDesc(reg[i..], strong) + if strong(reg[i - 1]) == 1 then [reg[i - 1]] else []
    ensures multiset(Keep(reg[i - 1..], strong))
              == multiset(Keep(reg[i..], strong)) + if strong(reg[i - 1]) != 1 then multiset{reg[i - 1]} else multiset{}
  {
    assert reg[i - 1..] == [reg[i - 1]] + reg[i..];
    FrontDrop(reg[i - 1], reg[i..], strong);
  }

  /** `Keep` and `DroppedDesc` with one more entry in front. */
  lemma FrontDrop(x: Handle, rest: seq<Handle>, strong: Handle -> nat)
    ensures DroppedDesc([x] + rest, strong) == DroppedDesc(rest, strong) + if strong(x) == 1 then [x] else []
    ensures multiset(Keep([x] + rest, strong))
              == multiset(Keep(rest, strong)) + if strong(x) != 1 then multiset{x} else multiset{}
  {
    FrontDropped(x, rest, strong);
    FrontKept(x, rest, strong);
  }

  lemma {:induction false} FrontDropped(x: Handle, rest: seq<Handle>, strong: Handle -> nat)
    ensures DroppedDesc([x] + rest, strong) == DroppedDesc(rest, strong) + if strong(x) == 1 then [x] else []
    decreases |rest|
  {
    var s := [x] + rest;
    if rest == [] {
      assert s[..0] == [];
    } else {
      var init := rest[..|rest| - 1];
      var last := rest[|rest| - 1];
      var d := if strong(last) == 1 then [last] else [];
      var e := if strong(x) == 1 then [x] else [];
      assert s[..|s| - 1] == [x] + init;
      assert s[|s| - 1] == last;
      FrontDropped(x, init, strong);
      calc {
        DroppedDesc(s, strong);
        d + DroppedDesc([x] + init, strong);
        d + (DroppedDesc(init, strong) + e);
        (d + DroppedDesc(init, strong)) + e;
        DroppedDesc(rest, strong) + e;
      }
    }
  }

  lemma {:induction false} FrontKept(x: Handle, rest: seq<Handle>, strong: Handle -> nat)
    ensures multiset(Keep([x] + rest, strong))
              == multiset(Keep(rest, strong)) + if strong(x) != 1 then multiset{x} else multiset{}
    decreases |rest|
  {
    var s := [x] + rest;
    if rest == [] {
      assert s[..0] == [];
    } else {
      var init := rest[..|rest| - 1];
      var last := rest[|rest| - 1];
      var k := if strong(last) != 1 then [last] else [];
      var e := if strong(x) != 1 then multiset{x} else multiset{};
      assert s[..|s| - 1] == [x] + init;
      assert s[|s| - 1] == last;
      FrontKept(x, init, strong);
      calc {
        multiset(Keep(s, strong));
        multiset(Keep([x] + init, strong) + k);
        multiset(Keep([x] + init, strong)) + multiset(k);
        multiset(Keep(init, strong)) + e + multiset(k);
        multiset(Keep(init, strong)) + multiset(k) + e;
        multiset(Keep(init, strong) + k) + e;
        multiset(Keep(rest, strong)) + e;
      }
    }
  }

  /** After `swap_remove(j)` the positions from `j` on hold the old positions
      after `j`, reordered. */
  lemma SwapRemoveTail(s: seq<Handle>, j: nat)
    requires j < |s|
    ensures multiset(SwapRemove(s, j)[j..]) == multiset(s[j + 1..])
  {
    var r := SwapRemove(s, j);
    assert r == r[..j] + r[j..];
    assert s == s[..j] + [s[j]] + s[j + 1..];
    assert multiset(r) == multiset(r[..j]) + multiset(r[j..]);
    assert multiset(s) == multiset(s[..j]) + multiset{s[j]} + multiset(s[j + 1..]);
    assert r[..j] == s[..j];
    assert multiset(r) + multiset{s[j]} == multiset(s);
    assert multiset(r[j..]) + multiset{s[j]} + multiset(s[..j]) == multiset(s);
    MultisetCancel(multiset(r[j..]) + multiset{s[j]}, multiset(s[j + 1..]) + multiset{s[j]}, multiset(s[..j]));
    MultisetCancel(multiset(r[j..]), multiset(s[j + 1..]), multiset{s[j]});
  }

  /** What `Sweep` knows after handling the positions from `i` on: the
      positions below `i` are untouched, and the rest hold the entries kept
      so far; the entries dropped so far are listed highest position first. */
  predicate SweepInvariant(reg: seq<Handle>, strong: Handle -> nat, i: nat, kept: seq<Handle>, dropped: seq<Handle>) {
    && i <= |reg| && i <= |kept|
    && kept[..i] == reg[..i]
    && multiset(kept[i..]) == multiset(Keep(reg[i..], strong))
    && dropped == DroppedDesc(reg[i..], strong)
  }

  lemma SweepDrops(reg: seq<Handle>, strong: Handle -> nat, i: nat, kept: seq<Handle>, dropped: seq<Handle>)
    requires 0 < i && SweepInvariant(reg, strong, i, kept, dropped) && strong(kept[i - 1]) == 1
    ensures kept[i - 1] == reg[i - 1]
    ensures SweepInvariant(reg, strong, i - 1, SwapRemove(kept, i - 1), dropped + [kept[i - 1]])
  {
    PrefixShrinks(kept, reg, i);
    KeepSuffix(reg, strong, i);
    SwapRemoveTail(kept, i - 1);
  }

  lemma SweepKeeps(reg: seq<Handle>, strong: Handle -> nat, i: nat, kept: seq<Handle>, dropped: seq<Handle>)
    requires 0 < i && SweepInvariant(reg, strong, i, kept, dropped) && strong(kept[i - 1]) != 1
    ensures SweepInvariant(reg, strong, i - 1, kept, dropped)
  {
    PrefixShrinks(kept, reg, i);
    KeepSuffix(reg, strong, i);
    SuffixGrows(kept, i);
  }

  lemma PrefixShrinks(a: seq<Handle>, b: seq<Handle>, i: nat)
    requires 0 < i <= |a| && i <= |b| && a[..i] == b[..i]
    ensures a[i - 1] == b[i - 1] && a[..i - 1] == b[..i - 1]
  {
    assert a[i - 1] == a[..i][i - 1];
    assert a[..i - 1] == a[..i][..i - 1];
    assert b[..i - 1] == b[..i][..i - 1];
  }

  lemma SuffixGrows(a: seq<Handle>, i: nat)
    requires 0 < i <= |a|
    ensures multiset(a[i - 1..]) == multiset{a[i - 1]} + multiset(a[i..])
  {
    assert a[i - 1..] == [a[i - 1]] + a[i..];
  }

  /** One of the five loops of `maintain`: walk the registry from the last
      position down and `swap_remove` every entry whose strong count is 1.
      The entries kept are, as a multiset, those with a count other than 1,
      and the deleted ones are reported from the highest position down. */
  method Sweep(reg: seq<Handle>, strong: Handle -> nat) returns (kept: seq<Handle>, dropped: seq<Handle>)
    ensures multiset(kept) == multiset(Keep(reg, strong))
    ensures dropped == DroppedDesc(reg, strong)
    ensures multiset(kept) + multiset(dropped) == multiset(reg)
  {
    kept := reg;
    dropped := [];
    var i := |reg|;
    assert reg[|reg|..] == [] && kept[..i] == reg[..i];
    while i > 0
      invariant 0 <= i && SweepInvariant(reg, strong, i, kept, dropped)
    {
      if strong(kept[i - 1]) == 1 {
        SweepDrops(reg, strong, i, kept, dropped);
        var entry := kept[i - 1];
        kept := SwapRemove(kept, i - 1);
        dropped := dropped + [entry];
      } else {
        SweepKeeps(reg, strong, i, kept, dropped);
      }
      i := i - 1;
    }
    assert reg[0..] == reg && kept[0..] == kept;
    KeepAndDropPartition(reg, strong);
  }

  /** The context's registries of the GL objects it created. */
  class Context {
    var shaders: seq<Handle>
    var programs: seq<Handle>
    var vertexArrays: seq<Handle>
    var buffers: seq<Handle>
    var textures: seq<Handle>

    /** `Context::from_glow_context`: nothing created yet. */
    constructor ()
      ensures shaders == [] && programs == [] && vertexArrays == [] && buffers == [] && textures == []
    {
      shaders, programs, vertexArrays, buffers, textures := [], [], [], [], [];
    }

    /** `Context::maintain`: delete every object only the registry still refers
        to (`strong` is `Rc::strong_count`), programs first, then shaders,
        vertex arrays, buffers and textures. */
    method Maintain(strong: Handle -> nat) returns (calls: seq<GlCall>)
      modifies this
      ensures multiset(programs) == multiset(Keep(old(programs), strong))
      ensures multiset(shaders) == multiset(Keep(old(shaders), strong))
      ensures multiset(vertexArrays) == multiset(Keep(old(vertexArrays), strong))
      ensures multiset(buffers) == multiset(Keep(old(buffers), strong))
      ensures multiset(textures) == multiset(Keep(old(textures), strong))
      ensures calls == MaintainDeletes(old(programs), old(shaders), old(vertexArrays),
                                       old(buffers), old(textures), strong)
    {
      var dp, ds, dv, db, dt;
      programs, dp := Sweep(programs, strong);
      shaders, ds := Sweep(shaders, strong);
      vertexArrays, dv := Sweep(vertexArrays, strong);
      buffers, db := Sweep(buffers, strong);
      textures, dt := Sweep(textures, strong);
      calls := Deletes(dp, ProgramObject) + Deletes(ds, ShaderObject) + Deletes(dv, VertexArrayObject)
               + Deletes(db, BufferObject) + Deletes(dt, TextureObject);
    }
  }

  /** One delete call per object, in order. */
  function Deletes(objects: seq<Handle>, kind: ObjectKind): (r: seq<GlCall>)
    ensures |r| == |objects|
    ensures forall k :: 0 <= k < |r| ==> r[k] == Delete(kind, objects[k])
  {
    seq(|objects|, k requires 0 <= k < |objects| => Delete(kind, objects[k]))
  }

  /** The calls `maintain` makes, registry by registry: programs, shaders,
      vertex arrays, buffers, textures. */
  function MaintainDeletes(programs: seq<Handle>, shaders: seq<Handle>, vertexArrays: seq<Handle>,
                           buffers: seq<Handle>, textures: seq<Handle>, strong: Handle -> nat): seq<GlCall>
  {
    Deletes(DroppedDesc(programs, strong), ProgramObject)
    + Deletes(DroppedDesc(shaders, strong), ShaderObject)
    + Deletes(DroppedDesc(vertexArrays, strong), VertexArrayObject)
    + Deletes(DroppedDesc(buffers, strong), BufferObject)
    + Deletes(DroppedDesc(textures, strong), TextureObject)
  }

  /** The registry that holds objects of one kind. */
  function RegistryOf(kind: ObjectKind, programs: seq<Handle>, shaders: seq<Handle>,
                      vertexArrays: seq<Handle>, buffers: seq<Handle>, textures: seq<Handle>): seq<Handle>
  {
    match kind
    case ProgramObject => programs
    case ShaderObject => shaders
    case VertexArrayObject => vertexArrays
    case BufferObject => buffers
    case TextureObject => textures
  }

  /** A delete call names one of the listed objects, with the given kind. */
  lemma DeletesMember(objects: seq<Handle>, kind: ObjectKind, other: ObjectKind, x: Handle)
    ensures Delete(other, x) in Deletes(objects, kind) <==> other == kind && x in objects
  {
    var r := Deletes(objects, kind);
    if x in objects && other == kind {
      var k :| 0 <= k < |objects| && objects[k] == x;
      assert r[k] == Delete(kind, x);
    }
  }

  /** Each entry the registry alone still holds is deleted as often as it is
      registered, and no other entry is deleted. */
  lemma DroppedCount(reg: seq<Handle>, strong: Handle -> nat, x: Handle)
    ensures multiset(DroppedDesc(reg, strong))[x] == if strong(x) == 1 then multiset(reg)[x] else 0
  {
    KeepAndDropMembers(reg, strong, x);
    KeepAndDropPartition(reg, strong);
  }

  /** `maintain` deletes object `x` as kind `kind` iff `x` is in that kind's
      registry and the registry holds its last reference; such an entry is
      deleted once per time it is registered. */
  lemma MaintainDeletesExactlyUnshared(programs: seq<Handle>, shaders: seq<Handle>, vertexArrays: seq<Handle>,
                                       buffers: seq<Handle>, textures: seq<Handle>, strong: Handle -> nat,
                                       kind: ObjectKind, x: Handle)
    ensures var reg := RegistryOf(kind, programs, shaders, vertexArrays, buffers, textures);
      && ((Delete(kind, x) in MaintainDeletes(programs, shaders, vertexArrays, buffers, textures, strong))
          <==> x in reg && strong(x) == 1)
      && multiset(DroppedDesc(reg, strong))[x] == if strong(x) == 1 then multiset(reg)[x] else 0
  {
    var reg := RegistryOf(kind, programs, shaders, vertexArrays, buffers, textures);
    DeletesMember(DroppedDesc(programs, strong), ProgramObject, kind, x);
    DeletesMember(DroppedDesc(shaders, strong), ShaderObject, kind, x);
    DeletesMember(DroppedDesc(vertexArrays, strong), VertexArrayObject, kind, x);
    DeletesMember(DroppedDesc(buffers, strong), BufferObject, kind, x);
    DeletesMember(DroppedDesc(textures, strong), TextureObject, kind, x);
    KeepAndDropMembers(reg, strong, x);
    DroppedCount(reg, strong, x);
  }
}
