/** The wire forms shared by the data codecs.

    A codec's byte layout is modelled as a sequence of typed fields, each one
    of the fixed-width integers the source reads and writes in turn. This keeps
    the order and width of every field; the byte order inside a field belongs
    to the serialisation library and is not part of this model. */
module Wire {
  import opened Wrappers

  /** Why a read or write failed: too little input, a value the codec
      refuses, or input that does not parse (`DekuError::Incomplete`,
      `DekuError::InvalidParam`, `DekuError::Parse`). */
  datatype DekuError = Incomplete | InvalidParam | Parse

  datatype Field =
    | U8(u8: byte)
    | I8(i8: i8)
    | U16(u16: u16)
    | I16(i16: i16)
    | U32(u32: bv32)
    | I32(i32: i32)

  datatype Kind = KU8 | KI8 | KU16 | KI16 | KU32 | KI32

  function KindOf(f: Field): Kind {
    match f
    case U8(_) => KU8
    case I8(_) => KI8
    case U16(_) => KU16
    case I16(_) => KI16
    case U32(_) => KU32
    case I32(_) => KI32
  }

  /** The kinds of a field sequence, in order. */
  function Kinds(fs: seq<Field>): (ks: seq<Kind>)
    ensures |ks| == |fs|
    ensures forall i :: 0 <= i < |fs| ==> ks[i] == KindOf(fs[i])
  {
    if fs == [] then [] else [KindOf(fs[0])] + Kinds(fs[1..])
  }

  /** The layout of a concatenation is the concatenation of the layouts. */
  lemma {:induction false} KindsAppend(a: seq<Field>, b: seq<Field>)
    ensures Kinds(a + b) == Kinds(a) + Kinds(b)
  {
    if a != [] {
      assert (a + b)[1..] == a[1..] + b;
      KindsAppend(a[1..], b);
    }
  }

  /** `n` copies of the same layout. */
  function RepeatKinds(ks: seq<Kind>, n: nat): (r: seq<Kind>)
    ensures |r| == n * |ks|
  {
    if n == 0 then [] else ks + RepeatKinds(ks, n - 1)
  }

  /** Words written one after another as `u32` fields. */
  function U32s(ws: seq<bv32>): (fs: seq<Field>)
    ensures |fs| == |ws|
    ensures forall i :: 0 <= i < |ws| ==> fs[i] == U32(ws[i])
    ensures Kinds(fs) == Repeat(KU32, |ws|)
  {
    seq(|ws|, i requires 0 <= i < |ws| => U32(ws[i]))
  }

  /** Signed bytes written one after another as `i8` fields. */
  function I8s(xs: seq<i8>): (fs: seq<Field>)
    ensures |fs| == |xs|
    ensures forall i :: 0 <= i < |xs| ==> fs[i] == I8(xs[i])
    ensures Kinds(fs) == Repeat(KI8, |xs|)
  {
    seq(|xs|, i requires 0 <= i < |xs| => I8(xs[i]))
  }

  /** A record whose codec the serialisation library derives: its fields are
      read in declaration order and kept exactly as read. */
  function ReadFixed(layout: seq<Kind>, fs: seq<Field>): (r: Result<seq<Field>, DekuError>)
    ensures r.Ok? <==> |fs| >= |layout| && Kinds(fs[..|layout|]) == layout
    ensures r.Err? ==> r.error == Incomplete
  {
    if |fs| >= |layout| && Kinds(fs[..|layout|]) == layout then Ok(fs[..|layout|]) else Err(Incomplete)
  }

  /** Writing such a record emits its fields unchanged, so reading what was
      written, followed by anything, gives the same fields back. */
  lemma ReadFixedWritten(layout: seq<Kind>, fields: seq<Field>, rest: seq<Field>)
    requires Kinds(fields) == layout
    ensures ReadFixed(layout, fields + rest) == Ok(fields)
  {
    assert (fields + rest)[..|layout|] == fields;
  }
}
