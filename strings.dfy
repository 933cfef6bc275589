/** Fixed-capacity strings of the protocol (src/packets/helpers.rs).

    An `AString<L>` is `L` bytes of UTF-8, a `WString<L>` is `L` UTF-16 code
    units; both end at the first NUL, if any. The capacity `L` is a
    parameter of every operation. A Rust `&str` is modelled as its UTF-8
    bytes, and its UTF-16 form as the code units `encode_utf16` yields. */
module Strings {
  import opened Wrappers
  import opened Wire

  /** The length of the well-formed UTF-8 sequence at the head of `bs`
      (Table 3-7 of the Unicode Standard), or 0 if there is none. */
  function SequenceLength(bs: seq<byte>): (n: nat)
    ensures n <= 4 && n <= |bs|
    ensures bs != [] && bs[0] < 0x80 ==> n == 1
  {
    if bs == [] then 0
    else if bs[0] < 0x80 then 1
    else if |bs| >= 2 && 0xC2 <= bs[0] <= 0xDF && Continuation(bs[1]) then 2
    else if |bs| >= 3 && Continuation(bs[2]) && (
      (bs[0] == 0xE0 && 0xA0 <= bs[1] <= 0xBF)
      || ((0xE1 <= bs[0] <= 0xEC || 0xEE <= bs[0] <= 0xEF) && Continuation(bs[1]))
      || (bs[0] == 0xED && 0x80 <= bs[1] <= 0x9F)) then 3
    else if |bs| >= 4 && Continuation(bs[2]) && Continuation(bs[3]) && (
      (bs[0] == 0xF0 && 0x90 <= bs[1] <= 0xBF)
      || (0xF1 <= bs[0] <= 0xF3 && Continuation(bs[1]))
      || (bs[0] == 0xF4 && 0x80 <= bs[1] <= 0x8F)) then 4
    else 0
  }

  predicate Continuation(b: byte) {
    0x80 <= b <= 0xBF
  }

  /** `bs` is a sequence of well-formed UTF-8 characters. */
  predicate ValidUtf8(bs: seq<byte>)
    decreases |bs|
  {
    bs == [] || (SequenceLength(bs) > 0 && ValidUtf8(bs[SequenceLength(bs)..]))
  }

  /** The units before the first NUL, or all of them if there is none (the
      first piece of `split(|b| *b == 0)`). */
  function BeforeNul<T(==)>(xs: seq<T>, nul: T): (p: seq<T>)
    ensures |p| <= |xs| && p == xs[..|p|]
    ensures nul !in p
    ensures |p| < |xs| ==> xs[|p|] == nul
  {
    if xs == [] || xs[0] == nul then [] else [xs[0]] + BeforeNul(xs[1..], nul)
  }

  /** An `AString<L>`: its `L` stored bytes. */
  datatype AString = AString(bytes: seq<byte>)

  /** `AString::to_string`: the bytes before the first NUL. The source
      unwraps the UTF-8 conversion, so the caller must hold a valid prefix,
      as every string made by `from_str` or by `read` does. */
  function AToString(a: AString): (s: seq<byte>)
    requires ValidUtf8(BeforeNul(a.bytes, 0))
    ensures |s| <= |a.bytes| && 0 !in s && s == a.bytes[..|s|]
  {
    BeforeNul(a.bytes, 0)
  }

  /** `AString::from_str`: fails when the string takes `L` bytes or more,
      and otherwise pads it with NULs to `L` bytes. */
  function AFromStr(L: nat, s: seq<byte>): (r: Result<AString, ()>)
    ensures r.Ok? <==> |s| < L
    ensures r.Ok? ==> |r.value.bytes| == L && r.value.bytes[..|s|] == s
    ensures r.Ok? ==> forall i :: |s| <= i < L ==> r.value.bytes[i] == 0
  {
    if |s| >= L then Err(()) else Ok(AString(s + Repeat(0, L - |s|)))
  }

  /** Every string `from_str` makes holds a NUL. */
  lemma AFromStrHasNul(L: nat, s: seq<byte>)
    requires AFromStr(L, s).Ok?
    ensures 0 in AFromStr(L, s).value.bytes
  {
    assert AFromStr(L, s).value.bytes[|s|] == 0;
  }

  /** A string without NUL bytes and shorter than `L` comes back from
      `to_string` unchanged. */
  lemma AToStringFromStr(L: nat, s: seq<byte>)
    requires ValidUtf8(s) && 0 !in s && |s| < L
    ensures ValidUtf8(BeforeNul(AFromStr(L, s).value.bytes, 0))
    ensures AToString(AFromStr(L, s).value) == s
  {
    var bs := AFromStr(L, s).value.bytes;
    BeforeNulAt(bs, 0, |s|);
  }

  /** When the first NUL sits at `k`, the prefix is the first `k` units. */
  lemma {:induction false} BeforeNulAt<T>(xs: seq<T>, nul: T, k: nat)
    requires k <= |xs| && nul !in xs[..k] && (k < |xs| ==> xs[k] == nul)
    ensures BeforeNul(xs, nul) == xs[..k]
  {
    if xs != [] && k > 0 {
      assert xs[0] in xs[..k];
      assert xs[1..][..k - 1] == xs[..k][1..];
      BeforeNulAt(xs[1..], nul, k - 1);
    }
  }

  /** The wire form of `L` bytes. */
  function U8s(bs: seq<byte>): (fs: seq<Field>)
    ensures |fs| == |bs|
    ensures forall i :: 0 <= i < |bs| ==> fs[i] == U8(bs[i])
    ensures Kinds(fs) == Repeat(KU8, |bs|)
  {
    seq(|bs|, i requires 0 <= i < |bs| => U8(bs[i]))
  }

  /** `AString::write`: the `L` stored bytes, unchanged. */
  function WriteAString(a: AString): (fs: seq<Field>)
    ensures Kinds(fs) == Repeat(KU8, |a.bytes|)
  {
    U8s(a.bytes)
  }

  /** `AString::read`: `L` bytes, refused when the part before the first NUL
      is not valid UTF-8; all `L` bytes are kept, those after the NUL too. */
  function ReadAString(L: nat, fs: seq<Field>): (r: Result<AString, DekuError>)
    ensures r.Ok? <==> |fs| >= L && (forall i :: 0 <= i < L ==> fs[i].U8?)
                       && ValidUtf8(BeforeNul(ByteValues(fs[..L]), 0))
    ensures r.Ok? ==> |r.value.bytes| == L && forall i :: 0 <= i < L ==> r.value.bytes[i] == fs[i].u8
    ensures r.Err? && |fs| >= L && (forall i :: 0 <= i < L ==> fs[i].U8?) ==> r.error == Parse
  {
    if |fs| < L || exists i :: 0 <= i < L && !fs[i].U8? then Err(Incomplete)
    else
      var bs := ByteValues(fs[..L]);
      if ValidUtf8(BeforeNul(bs, 0)) then Ok(AString(bs)) else Err(Parse)
  }

  /** The byte values of a run of `u8` fields. */
  function ByteValues(fs: seq<Field>): (bs: seq<byte>)
    requires forall i :: 0 <= i < |fs| ==> fs[i].U8?
    ensures |bs| == |fs| && forall i :: 0 <= i < |fs| ==> bs[i] == fs[i].u8
  {
    seq(|fs|, i requires 0 <= i < |fs| => fs[i].u8)
  }

  /** A string whose text is valid UTF-8 survives a write and a read,
      whatever follows it. */
  lemma ReadWriteAString(a: AString, rest: seq<Field>)
    requires ValidUtf8(BeforeNul(a.bytes, 0))
    ensures ReadAString(|a.bytes|, WriteAString(a) + rest) == Ok(a)
  {
    var fs := WriteAString(a) + rest;
    assert fs[..|a.bytes|] == U8s(a.bytes);
    assert ByteValues(fs[..|a.bytes|]) == a.bytes;
  }

  /** A `WString<L>`: its `L` stored UTF-16 code units. */
  datatype WString = WString(units: seq<u16>)

  /** `WString::default`: `L` zero units. */
  function WDefault(L: nat): (w: WString)
    ensures |w.units| == L
  {
    WString(Repeat(0, L))
  }

  /** UTF-16 surrogates: a high one (0xD800..0xDBFF) opens a pair and a low
      one (0xDC00..0xDFFF) closes it. */
  predicate HighSurrogate(u: u16) { 0xD800 <= u <= 0xDBFF }
  predicate LowSurrogate(u: u16) { 0xDC00 <= u <= 0xDFFF }
  predicate Surrogate(u: u16) { HighSurrogate(u) || LowSurrogate(u) }

  /** Unit `i` of `us` is half of a surrogate pair: a high surrogate followed
      by a low one, or a low surrogate preceded by a high one. */
  predicate Paired(us: seq<u16>, i: nat)
    requires i < |us|
  {
    (HighSurrogate(us[i]) && i + 1 < |us| && LowSurrogate(us[i + 1]))
    || (LowSurrogate(us[i]) && 0 < i && HighSurrogate(us[i - 1]))
  }

  /** Well-formed UTF-16: every surrogate is half of a pair. */
  predicate WellFormedUtf16(us: seq<u16>) {
    forall i :: 0 <= i < |us| && Surrogate(us[i]) ==> Paired(us, i)
  }

  /** The replacement character U+FFFD. */
  const Replacement: u16 := 0xFFFD

  /** `String::from_utf16_lossy`, with the result in its UTF-16 form: each
      unpaired surrogate becomes U+FFFD, every other unit stays. */
  function Utf16Lossy(us: seq<u16>): (r: seq<u16>)
    ensures |r| == |us|
  {
    seq(|us|, i requires 0 <= i < |us| => if Surrogate(us[i]) && !Paired(us, i) then Replacement else us[i])
  }

  /** The lossy decoding always gives well-formed UTF-16, and changes only
      unpaired surrogates. */
  lemma Utf16LossyWellFormed(us: seq<u16>)
    ensures WellFormedUtf16(Utf16Lossy(us))
    ensures forall i :: 0 <= i < |us| ==> Utf16Lossy(us)[i] == us[i] || (Surrogate(us[i]) && Utf16Lossy(us)[i] == Replacement)
  {
    var r := Utf16Lossy(us);
    forall i | 0 <= i < |r| && Surrogate(r[i]) ensures Paired(r, i) {
      assert r[i] == us[i] && Paired(us, i);
      if HighSurrogate(us[i]) && i + 1 < |us| && LowSurrogate(us[i + 1]) {
        assert Paired(us, i + 1);
      } else {
        assert Paired(us, i - 1);
      }
    }
  }

  /** The lossy decoding keeps the units exactly when they are well formed. */
  lemma Utf16LossyIdentity(us: seq<u16>)
    ensures Utf16Lossy(us) == us <==> WellFormedUtf16(us)
  {
    if Utf16Lossy(us) == us {
      Utf16LossyWellFormed(us);
    }
  }

  /** `WString::to_string`: the units before the first NUL, decoded lossily:
      the text is as long as that prefix, has no NUL, is well formed, and is
      the prefix itself exactly when the prefix is well formed. */
  function WToString(w: WString): (s: seq<u16>)
    ensures |s| <= |w.units| && 0 !in s && WellFormedUtf16(s)
    ensures 0 !in w.units[..|s|] && (|s| < |w.units| ==> w.units[|s|] == 0)
    ensures s == w.units[..|s|] <==> WellFormedUtf16(w.units[..|s|])
  {
    var p := BeforeNul(w.units, 0);
    Utf16LossyWellFormed(p);
    Utf16LossyIdentity(p);
    Utf16Lossy(p)
  }

  lemma WDefaultIsEmpty(L: nat)
    ensures WToString(WDefault(L)) == []
    ensures forall i :: 0 <= i < L ==> WDefault(L).units[i] == 0
  {
    BeforeNulAt(WDefault(L).units, 0, 0);
  }

  /** The units followed by zeros up to `L`. */
  function WPadded(L: nat, units: seq<u16>): (w: WString)
    requires |units| <= L
    ensures |w.units| == L && w.units[..|units|] == units
    ensures forall i :: |units| <= i < L ==> w.units[i] == 0
  {
    WString(units + Repeat(0, L - |units|))
  }

  /** `WString::from_str`: copies the code units one by one into `L` zero
      units, failing on the first unit that has no room. */
  method WFromStr(L: nat, units: seq<u16>) returns (r: Result<WString, ()>)
    ensures r.Ok? <==> |units| <= L
    ensures r.Ok? ==> r.value == WPadded(L, units)
  {
    var result := new u16[L](_ => 0);
    var i := 0;
    while i < |units|
      invariant 0 <= i <= |units| && i <= L
      invariant result[..i] == units[..i]
      invariant forall j :: i <= j < L ==> result[j] == 0
    {
      if i >= L {
        return Err(());
      }
      result[i] := units[i];
      i := i + 1;
    }
    r := Ok(WString(result[..]));
    assert result[..] == units + Repeat(0, L - |units|) by {
      assert result[..|units|] == units[..|units|];
    }
  }

  /** Well-formed text without NUL units that fits, up to exactly `L` units
      with no NUL left to end them, comes back from `to_string`. */
  lemma WToStringFromStr(L: nat, units: seq<u16>)
    requires 0 !in units && |units| <= L && WellFormedUtf16(units)
    ensures WToString(WPadded(L, units)) == units
  {
    var us := WPadded(L, units).units;
    assert us[..|units|] == units;
    BeforeNulAt(us, 0, |units|);
    Utf16LossyIdentity(units);
  }

  /** The wire form of code units. */
  function U16s(us: seq<u16>): (fs: seq<Field>)
    ensures |fs| == |us|
    ensures forall i :: 0 <= i < |us| ==> fs[i] == U16(us[i])
  {
    seq(|us|, i requires 0 <= i < |us| => U16(us[i]))
  }

  /** `WString::write`: the `L` stored units, unchanged. */
  function WriteWString(w: WString): (fs: seq<Field>)
    ensures |fs| == |w.units|
  {
    U16s(w.units)
  }

  /** `WString::read`: `L` units, kept as they are. */
  function ReadWString(L: nat, fs: seq<Field>): (r: Result<WString, DekuError>)
    ensures r.Ok? <==> |fs| >= L && forall i :: 0 <= i < L ==> fs[i].U16?
    ensures r.Ok? ==> |r.value.units| == L && forall i :: 0 <= i < L ==> r.value.units[i] == fs[i].u16
  {
    if |fs| < L || exists i :: 0 <= i < L && !fs[i].U16? then Err(Incomplete)
    else Ok(WString(seq(L, i requires 0 <= i < L => fs[i].u16)))
  }

  lemma ReadWriteWString(w: WString, rest: seq<Field>)
    ensures ReadWString(|w.units|, WriteWString(w) + rest) == Ok(w)
  {
    var fs := WriteWString(w) + rest;
    assert forall i :: 0 <= i < |w.units| ==> fs[i] == U16(w.units[i]);
    assert ReadWString(|w.units|, fs).value.units == w.units;
  }
}
