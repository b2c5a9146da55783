/** CBOR items as in sections 3 and 3.1 of RFC 8949, as far as the protocol uses them, and how they are read piecemeal. */
module Cbor {
  type Byte = b: int | 0 <= b < 256

  // ----- numbers, most significant byte first

  function Pow256(n: nat): (p: nat)
    ensures p >= 1
  {
    if n == 0 then 1 else 256 * Pow256(n - 1)
  }

  function BigEndian(v: nat, n: nat): (s: seq<Byte>)
    ensures |s| == n
  {
    if n == 0 then [] else BigEndian(v / 256, n - 1) + [v % 256]
  }

  function Number(s: seq<Byte>): (v: nat) {
    if s == [] then 0 else Number(s[..|s| - 1]) * 256 + s[|s| - 1]
  }

  lemma {:induction false} NumberOfBigEndian(v: nat, n: nat)
    requires v < Pow256(n)
    ensures Number(BigEndian(v, n)) == v
  {
    if n > 0 {
      NumberOfBigEndian(v / 256, n - 1);
      assert BigEndian(v, n)[..n - 1] == BigEndian(v / 256, n - 1);
    }
  }

  lemma Pow256Values()
    ensures Pow256(1) == 0x100 && Pow256(2) == 0x1_0000 && Pow256(4) == 0x1_0000_0000
    ensures Pow256(8) == 0x1_0000_0000_0000_0000
  {
    assert Pow256(4) == 256 * Pow256(3) && Pow256(3) == 256 * Pow256(2) && Pow256(2) == 256 * Pow256(1);
    assert Pow256(8) == 256 * Pow256(7) && Pow256(7) == 256 * Pow256(6);
    assert Pow256(6) == 256 * Pow256(5) && Pow256(5) == 256 * Pow256(4);
  }

  // ----- heads

  /** The width with which an unsigned integer is reported. */
  datatype Width = W8 | W16 | W32 | W64

  /** The shortest width of a number. */
  function WidthOf(v: nat): (w: Width) {
    if v < 0x100 then W8 else if v < 0x1_0000 then W16 else if v < 0x1_0000_0000 then W32 else W64
  }

  function WidthBytes(w: Width): (n: nat) {
    match w
    case W8 => 1
    case W16 => 2
    case W32 => 4
    case W64 => 8
  }

  function WidthCode(w: Width): (ai: nat) {
    match w
    case W8 => 24
    case W16 => 25
    case W32 => 26
    case W64 => 27
  }

  /** The head of an item with the argument in a given width. */
  function HeadIn(major: nat, v: nat, w: Width): (s: seq<Byte>)
    requires major < 8
  {
    [major * 32 + WidthCode(w)] + BigEndian(v, WidthBytes(w))
  }

  /** The shortest head, as a preferred serialization has it (section 4.1). */
  function Head(major: nat, v: nat): (s: seq<Byte>)
    requires major < 8
  {
    if v < 24 then [major * 32 + v] else HeadIn(major, v, WidthOf(v))
  }

  const MAJOR_UINT := 0
  const MAJOR_TEXT := 3
  const MAJOR_ARRAY := 4
  const MAJOR_MAP := 5
  const FALSE_ITEM := 0xf4
  const TRUE_ITEM := 0xf5

  function EncodeText(s: seq<Byte>): (b: seq<Byte>) {
    Head(MAJOR_TEXT, |s|) + s
  }

  function EncodeBool(v: bool): (b: seq<Byte>) {
    [if v then TRUE_ITEM else FALSE_ITEM]
  }

  // ----- decoding one item from a buffer

  /** What the decoder reports for an item. */
  datatype Token = UInt(width: Width, value: nat) | Text(text: seq<Byte>) | MapStart(size: nat) | ArrayStart(size: nat)
                 | Bool(on: bool) | Other

  /** The outcome for a buffer: an item and its length, a larger number of bytes that is needed, or an error. */
  datatype Decoded = Finished(length: nat, token: Token) | Need(total: nat) | Malformed

  /** The number of argument bytes after the initial byte. */
  function ArgBytes(ai: nat): (n: nat) {
    if ai == 24 then 1 else if ai == 25 then 2 else if ai == 26 then 4 else if ai == 27 then 8 else 0
  }

  function ArgWidth(ai: nat): (w: Width) {
    if ai == 25 then W16 else if ai == 26 then W32 else if ai == 27 then W64 else W8
  }

  function Argument(b: seq<Byte>, ai: nat): (v: nat)
    requires |b| >= 1 + ArgBytes(ai)
  {
    if ai < 24 then ai else Number(b[1..1 + ArgBytes(ai)])
  }

  /** Items of the major types 0 to 6 with a definite argument. */
  function DecodeArg(b: seq<Byte>, major: nat, ai: nat): (d: Decoded)
    requires |b| > 0
  {
    var h := 1 + ArgBytes(ai);
    if |b| < h then Need(h)
    else
      var v := Argument(b, ai);
      if major == MAJOR_UINT then Finished(h, UInt(ArgWidth(ai), v))
      else if major == MAJOR_MAP then Finished(h, MapStart(v))
      else if major == MAJOR_ARRAY then Finished(h, ArrayStart(v))
      else if major == MAJOR_TEXT || major == 2 then
        (if |b| < h + v then Need(h + v)
         else Finished(h + v, if major == MAJOR_TEXT then Text(b[h..h + v]) else Other))
      else Finished(h, Other)
  }

  function DecodeItem(b: seq<Byte>): (d: Decoded)
    ensures d.Finished? ==> 0 < d.length <= |b|
    ensures d.Need? ==> d.total > |b|
  {
    if |b| == 0 then Need(1)
    else
      var major, ai := b[0] / 32, b[0] % 32;
      if major == 7 then
        if ai == 20 || ai == 21 then Finished(1, Bool(ai == 21))
        else if ai == 22 || ai == 23 || ai == 31 then Finished(1, Other)
        else if 25 <= ai <= 27 then (if |b| < 1 + ArgBytes(ai) then Need(1 + ArgBytes(ai)) else Finished(1 + ArgBytes(ai), Other))
        else Malformed
      else if ai < 28 then DecodeArg(b, major, ai)
      else if ai == 31 && 2 <= major <= 5 then Finished(1, Other)
      else Malformed
  }

  lemma SliceOfPrefix(b: seq<Byte>, k: nat, i: nat, j: nat)
    requires i <= j <= k <= |b|
    ensures b[..k][i..j] == b[i..j]
  {
  }

  lemma ArgumentOfPrefix(b: seq<Byte>, k: nat, ai: nat)
    requires 1 + ArgBytes(ai) <= k <= |b|
    ensures Argument(b[..k], ai) == Argument(b, ai)
  {
    hide Number;
    SliceOfPrefix(b, k, 1, 1 + ArgBytes(ai));
  }

  lemma ArgPrefixStable(b: seq<Byte>, k: nat, major: nat, ai: nat)
    requires 0 < k <= |b| && DecodeArg(b, major, ai).Finished?
    ensures var d, c := DecodeArg(b, major, ai), DecodeArg(b[..k], major, ai);
            if k >= d.length then c == d else c.Need? && k < c.total <= d.length
  {
    hide Argument, ArgBytes;
    var h := 1 + ArgBytes(ai);
    if k >= h {
      ArgumentOfPrefix(b, k, ai);
      var v := Argument(b, ai);
      if k >= h + v {
        SliceOfPrefix(b, k, h, h + v);
      }
    }
  }

  /** A finished item does not depend on what follows, and each shorter piece of it asks for more, but not too much. */
  lemma PrefixStable(b: seq<Byte>, k: nat)
    requires DecodeItem(b).Finished? && 0 < k <= |b|
    ensures 0 < DecodeItem(b).length <= |b|
    ensures k >= DecodeItem(b).length ==> DecodeItem(b[..k]) == DecodeItem(b)
    ensures k < DecodeItem(b).length ==> DecodeItem(b[..k]).Need? && k < DecodeItem(b[..k]).total <= DecodeItem(b).length
  {
    hide DecodeArg;
    assert b[..k][0] == b[0];
    var major, ai := b[0] / 32, b[0] % 32;
    if major != 7 && ai < 28 {
      ArgPrefixStable(b, k, major, ai);
    }
  }

  lemma InitialByte(major: nat, ai: nat)
    requires major < 8 && ai < 32
    ensures (major * 32 + ai) / 32 == major && (major * 32 + ai) % 32 == ai
  {
  }

  /** An argument in any width that holds it is read back. */
  lemma ArgumentInWidth(major: nat, v: nat, w: Width, rest: seq<Byte>)
    requires major < 8 && v < Pow256(WidthBytes(w))
    ensures var b := HeadIn(major, v, w) + rest;
      && |b| >= 1 + WidthBytes(w) && b[0] / 32 == major && b[0] % 32 == WidthCode(w)
      && ArgBytes(WidthCode(w)) == WidthBytes(w) && ArgWidth(WidthCode(w)) == w
      && Argument(b, WidthCode(w)) == v
  {
    var b, n := HeadIn(major, v, w) + rest, WidthBytes(w);
    InitialByte(major, WidthCode(w));
    assert b[1..1 + n] == BigEndian(v, n);
    NumberOfBigEndian(v, n);
  }

  lemma WidthFits(v: nat)
    requires v < 0x1_0000_0000_0000_0000
    ensures v < Pow256(WidthBytes(WidthOf(v)))
  {
    Pow256Values();
  }

  /** The shortest head is read back, with the shortest width. */
  lemma HeadRead(major: nat, v: nat, rest: seq<Byte>)
    requires major < 7 && v < 0x1_0000_0000_0000_0000
    ensures var b := Head(major, v) + rest;
      && |b| > 0 && b[0] / 32 == major && b[0] % 32 < 28
      && 1 + ArgBytes(b[0] % 32) == |Head(major, v)| && Argument(b, b[0] % 32) == v && ArgWidth(b[0] % 32) == WidthOf(v)
  {
    if v < 24 {
      InitialByte(major, v);
    } else {
      WidthFits(v);
      ArgumentInWidth(major, v, WidthOf(v), rest);
    }
  }

  lemma UIntRead(v: nat, rest: seq<Byte>)
    requires v < 0x1_0000_0000_0000_0000
    ensures DecodeItem(Head(MAJOR_UINT, v) + rest) == Finished(|Head(MAJOR_UINT, v)|, UInt(WidthOf(v), v))
  {
    HeadRead(MAJOR_UINT, v, rest);
  }

  lemma UIntInWidthRead(v: nat, w: Width, rest: seq<Byte>)
    requires v < Pow256(WidthBytes(w))
    ensures DecodeItem(HeadIn(MAJOR_UINT, v, w) + rest) == Finished(|HeadIn(MAJOR_UINT, v, w)|, UInt(w, v))
  {
    ArgumentInWidth(MAJOR_UINT, v, w, rest);
  }

  lemma MapRead(n: nat, rest: seq<Byte>)
    requires n < 0x1_0000_0000_0000_0000
    ensures DecodeItem(Head(MAJOR_MAP, n) + rest) == Finished(|Head(MAJOR_MAP, n)|, MapStart(n))
  {
    HeadRead(MAJOR_MAP, n, rest);
  }

  lemma ArrayRead(n: nat, rest: seq<Byte>)
    requires n < 0x1_0000_0000_0000_0000
    ensures DecodeItem(Head(MAJOR_ARRAY, n) + rest) == Finished(|Head(MAJOR_ARRAY, n)|, ArrayStart(n))
  {
    HeadRead(MAJOR_ARRAY, n, rest);
  }

  lemma TextRead(s: seq<Byte>, rest: seq<Byte>)
    requires |s| < 0x1_0000_0000_0000_0000
    ensures DecodeItem(EncodeText(s) + rest) == Finished(|EncodeText(s)|, Text(s))
  {
    var h, b := Head(MAJOR_TEXT, |s|), EncodeText(s) + rest;
    assert b == h + (s + rest);
    HeadRead(MAJOR_TEXT, |s|, s + rest);
    assert b[|h|..|h| + |s|] == s;
  }

  lemma BoolRead(v: bool, rest: seq<Byte>)
    ensures DecodeItem(EncodeBool(v) + rest) == Finished(1, Bool(v))
  {
  }
}
