/** The bounded formatter behind error messages and log lines (udirt.c). */
module Formatter {
  import opened Words
  import opened Sequences

  /** An `int` holds -2^31 up to 2^31 - 1. */
  const INT_LIMIT: int := 0x8000_0000

  predicate IsInt(v: int) {
    -INT_LIMIT <= v < INT_LIMIT
  }

  /** One entry of the argument list; an error number stands for its message. */
  datatype Arg = Int(value: int) | Word(word: nat) | Text(text: string)

  datatype Reading<T> = Read(value: T) | Unreadable

  // ----- the text of a number

  /** Negation of an `int`: the least value is its own negative. */
  function Negated(v: int): (r: int) {
    if v == -INT_LIMIT then v else -v
  }

  /** The remainder with the sign of the dividend. */
  function Remainder10(v: int): (r: int)
    ensures -10 < r < 10
  {
    if v < 0 then -(-v % 10) else v % 10
  }

  /** The quotient, rounded towards zero. */
  function Quotient10(v: int): (r: int) {
    if v < 0 then -(-v / 10) else v / 10
  }

  /** `(value % 10) + '0'`. */
  function DigitChar(v: int): (c: char) {
    (Remainder10(v) + 48) as char
  }

  function Decimal(n: nat): (s: string)
    ensures |s| > 0
  {
    if n < 10 then [DigitChar(n)] else Decimal(n / 10) + [DigitChar(n)]
  }

  /** What `%d` writes. The least value has no positive counterpart, and its only digit is not one. */
  function IntText(v: int): (s: string) {
    if v == -INT_LIMIT then "-("
    else if v < 0 then "-" + Decimal(-v)
    else Decimal(v)
  }

  function Nibble(d: nat): (c: char)
    requires d < 16
  {
    if d < 10 then (d + 48) as char else (d - 10 + 97) as char
  }

  /** What `%b` writes. */
  function ByteText(byte: nat): (s: string)
    requires byte < 256
  {
    [Nibble(byte / 16), Nibble(byte % 16)]
  }

  /** The last `n` hexadecimal digits. */
  function HexDigits(v: nat, n: nat): (s: string)
    ensures |s| == n
  {
    if n == 0 then "" else HexDigits(v / 16, n - 1) + [Nibble(v % 16)]
  }

  /** The cast of a `size_t` to `int`. */
  function ToInt(v: nat): (i: int)
    ensures IsInt(i)
  {
    var w := v % 0x1_0000_0000;
    if w < INT_LIMIT then w else w - 0x1_0000_0000
  }

  // ----- the text of a format

  predicate Directive(c: char) {
    c in "aesdblx"
  }

  /** The argument has the type that the directive takes. */
  predicate Suits(c: char, arg: Arg) {
    if c == 'a' || c == 'x' || c == 'l' then arg.Word? && arg.word < WORD_RANGE
    else if c == 'd' || c == 'b' then arg.Int? && IsInt(arg.value)
    else arg.Text?
  }

  function ArgText(c: char, arg: Arg): (s: string)
    requires Suits(c, arg)
  {
    if c == 'a' then "0x" + HexDigits(arg.word, 16)
    else if c == 'x' then HexDigits(arg.word, 16)
    else if c == 'l' then IntText(ToInt(arg.word))
    else if c == 'd' then IntText(arg.value)
    else if c == 'b' then ByteText(arg.value % 256)
    else arg.text
  }

  /** The format does not end in a lone percent sign, and every directive finds a suitable argument. */
  predicate Matches(format: string, args: seq<Arg>) {
    if format == "" then true
    else if format[0] != '%' then Matches(format[1..], args)
    else if |format| == 1 then false
    else if !Directive(format[1]) then Matches(format[2..], args)
    else args != [] && Suits(format[1], args[0]) && Matches(format[2..], args[1..])
  }

  /** The whole text of a format, without a bound. */
  function Full(format: string, args: seq<Arg>): (s: string)
    requires Matches(format, args)
  {
    if format == "" then ""
    else if format[0] != '%' then [format[0]] + Full(format[1..], args)
    else if !Directive(format[1]) then [format[1]] + Full(format[2..], args)
    else ArgText(format[1], args[0]) + Full(format[2..], args[1..])
  }

  // ----- the digits of a number are read back

  predicate IsDigit(c: char) {
    '0' <= c <= '9'
  }

  predicate AllDigits(s: string) {
    forall i :: 0 <= i < |s| ==> IsDigit(s[i])
  }

  /** The number that decimal digits write. */
  function DecimalValue(s: string): (n: nat)
    requires AllDigits(s)
  {
    if s == "" then 0 else 10 * DecimalValue(s[..|s| - 1]) + (s[|s| - 1] as int - 48)
  }

  function ReadInt(s: string): (r: Reading<int>) {
    if s != "" && s[0] == '-' then
      if |s| > 1 && AllDigits(s[1..]) then Read(0 - DecimalValue(s[1..])) else Unreadable
    else if s != "" && AllDigits(s) then Read(DecimalValue(s))
    else Unreadable
  }

  lemma {:induction false} DecimalRead(n: nat)
    ensures AllDigits(Decimal(n)) && DecimalValue(Decimal(n)) == n
  {
    if n < 10 {
      assert Decimal(n)[..0] == "";
    } else {
      var front := Decimal(n / 10);
      DecimalRead(n / 10);
      assert Decimal(n)[..|front|] == front;
    }
  }

  lemma IntTextRead(v: int)
    requires IsInt(v)
    ensures ReadInt(IntText(v)) == if v == -INT_LIMIT then Unreadable else Read(v)
  {
    if v == -INT_LIMIT {
      assert !IsDigit("-("[1..][0]);
    } else if v < 0 {
      DecimalRead(-v);
      assert IntText(v)[1..] == Decimal(-v);
    } else {
      DecimalRead(v);
      assert IsDigit(Decimal(v)[0]);
    }
  }

  /** What `%d` writes can be read back for every `int` but the least. */
  lemma IntReadBack(v: int)
    requires IsInt(v)
    ensures Matches("%d", [Int(v)])
    ensures ReadInt(Full("%d", [Int(v)])) == if v == -INT_LIMIT then Unreadable else Read(v)
  {
    hide IntText, ReadInt;
    DirectiveText('d', Int(v));
    IntTextRead(v);
  }

  /** What `%l` writes of a size goes through an `int`: it can be read back exactly below 2^31. */
  lemma SizeReadBack(size: nat)
    requires size < WORD_RANGE
    ensures Matches("%l", [Word(size)])
    ensures ReadInt(Full("%l", [Word(size)])) == Read(size) <==> size < INT_LIMIT
  {
    hide IntText, ReadInt;
    DirectiveText('l', Word(size));
    IntTextRead(ToInt(size));
  }

  function NibbleValue(c: char): (d: nat) {
    if c <= '9' then if c < '0' then 0 else c as int - 48
    else if c < 'a' then 0 else c as int - 97 + 10
  }

  /** The number that hexadecimal digits write. */
  function HexValue(s: string): (n: nat) {
    if s == "" then 0 else 16 * HexValue(s[..|s| - 1]) + NibbleValue(s[|s| - 1])
  }

  lemma Pow16Step(n: nat)
    requires n > 0
    ensures Pow2(4 * n) == 16 * Pow2(4 * (n - 1))
  {
    assert Pow2(4) == 16;
    Pow2Add(4, 4 * (n - 1));
  }

  lemma {:induction false} HexRead(v: nat, n: nat)
    requires v < Pow2(4 * n)
    ensures HexValue(HexDigits(v, n)) == v
  {
    hide Pow2;
    if n == 0 {
      Pow2Half(0);
    } else {
      var front := HexDigits(v / 16, n - 1);
      Pow16Step(n);
      HexRead(v / 16, n - 1);
      assert HexDigits(v, n)[..n - 1] == front;
    }
  }

  lemma WordRead(v: nat)
    requires v < WORD_RANGE
    ensures HexValue(HexDigits(v, 16)) == v
  {
    Pow2Values();
    HexRead(v, 16);
  }

  /** `%x` writes sixteen digits that give back the word, and `%a` the same digits after a prefix. */
  lemma WordReadBack(v: nat)
    requires v < WORD_RANGE
    ensures Matches("%x", [Word(v)]) && Matches("%a", [Word(v)])
    ensures var digits := Full("%x", [Word(v)]);
            |digits| == 16 && HexValue(digits) == v && Full("%a", [Word(v)]) == "0x" + digits
  {
    hide HexDigits, HexValue;
    DirectiveText('x', Word(v));
    DirectiveText('a', Word(v));
    WordRead(v);
  }

  /** `%b` writes two digits that give back the low byte of its argument. */
  lemma ByteReadBack(v: int)
    requires IsInt(v)
    ensures Matches("%b", [Int(v)])
    ensures var digits := Full("%b", [Int(v)]); |digits| == 2 && HexValue(digits) == v % 256
  {
    hide HexValue;
    DirectiveText('b', Int(v));
    ByteDigits(v % 256);
    Pow2Values();
    HexRead(v % 256, 2);
  }

  lemma ByteDigits(byte: nat)
    requires byte < 256
    ensures ByteText(byte) == HexDigits(byte, 2) && Pow2(8) == 256
  {
    hide Nibble;
    assert HexDigits(byte, 2) == HexDigits(byte / 16, 1) + [Nibble(byte % 16)];
    assert HexDigits(byte / 16, 1) == HexDigits(byte / 16 / 16, 0) + [Nibble(byte / 16 % 16)];
    assert Pow2(4) == 16;
    Pow2Add(4, 4);
  }

  /** `%s` and `%e` write their text as it is. */
  lemma TextWritten(t: string)
    ensures Matches("%s", [Text(t)]) && Matches("%e", [Text(t)])
    ensures Full("%s", [Text(t)]) == t && Full("%e", [Text(t)]) == t
  {
    DirectiveText('s', Text(t));
    DirectiveText('e', Text(t));
  }

  /** A format of one directive writes the text of its argument. */
  lemma DirectiveText(c: char, arg: Arg)
    requires Directive(c) && Suits(c, arg)
    ensures Matches(['%', c], [arg]) && Full(['%', c], [arg]) == ArgText(c, arg)
  {
    hide ArgText, Suits, Directive;
    var format, args := ['%', c], [arg];
    assert format[2..] == "" && args[1..] == [];
    assert ArgText(c, arg) + "" == ArgText(c, arg);
  }

  // ----- formats are written piece by piece

  /** The number of arguments that a format takes. */
  function Takes(format: string): (n: nat) {
    if |format| < 2 then 0
    else if format[0] != '%' then Takes(format[1..])
    else if Directive(format[1]) then 1 + Takes(format[2..])
    else Takes(format[2..])
  }

  /** Text without a percent sign is written as it is. */
  lemma {:induction false} PlainText(format: string)
    requires '%' !in format
    ensures Matches(format, []) && Full(format, []) == format && Takes(format) == 0
  {
    if format != "" {
      PlainText(format[1..]);
      assert format == [format[0]] + format[1..];
    }
  }

  lemma DropAppend<T>(a: seq<T>, b: seq<T>, k: nat)
    requires k <= |a|
    ensures (a + b)[k..] == a[k..] + b
  {
  }

  /**
   * A format in two parts writes the text of the first and then the text of the second, each with its own arguments: what
   * a directive writes is the same wherever it stands.
   */
  lemma {:induction false} FullAppend(f: string, g: string, fargs: seq<Arg>, gargs: seq<Arg>)
    requires Matches(f, fargs) && |fargs| == Takes(f) && Matches(g, gargs)
    ensures Matches(f + g, fargs + gargs) && Full(f + g, fargs + gargs) == Full(f, fargs) + Full(g, gargs)
    decreases |f|
  {
    hide ArgText, Suits, Directive;
    var h, args := f + g, fargs + gargs;
    if f == "" {
      assert h == g && args == gargs;
    } else if f[0] != '%' {
      DropAppend(f, g, 1);
      FullAppend(f[1..], g, fargs, gargs);
    } else if !Directive(f[1]) {
      DropAppend(f, g, 2);
      FullAppend(f[2..], g, fargs, gargs);
    } else {
      DropAppend(f, g, 2);
      DropAppend(fargs, gargs, 1);
      FullAppend(f[2..], g, fargs[1..], gargs);
      assert Full(f, fargs) + Full(g, gargs)
             == ArgText(f[1], fargs[0]) + (Full(f[2..], fargs[1..]) + Full(g, gargs));
    }
  }

  // ----- lemmas for the loops

  function Pow10(n: nat): (r: nat)
    ensures r > 0
  {
    if n == 0 then 1 else 10 * Pow10(n - 1)
  }

  lemma Pow10Step(v: nat, k: nat)
    requires v > 0 && v < Pow10(k)
    ensures k > 0 && v / 10 < Pow10(k - 1)
  {
  }

  /** No digits are left, and no number but zero is that short. */
  lemma LeadingNone()
    ensures Leading(0) == "" && Pow10(0) == 1
  {
  }

  lemma LeastDigit()
    ensures DigitChar(-INT_LIMIT) == '('
  {
  }

  lemma TenDigits()
    ensures Pow10(9) == 1_000_000_000
  {
    assert Pow10(3) == 1000;
    assert Pow10(6) == 1_000_000;
  }

  lemma ReversedStep(s: string, j: nat)
    requires j < |s|
    ensures Reversed(s[..j + 1]) == [s[j]] + Reversed(s[..j])
  {
    assert s[..j + 1] == s[..j] + [s[j]];
    ReversedSnoc(s[..j], s[j]);
  }

  /** The digits of `n` in front of the digits already found; none for zero. */
  function Leading(n: nat): (s: string) {
    if n == 0 then "" else Decimal(n)
  }

  lemma LeadingStep(n: nat)
    ensures Decimal(n) == Leading(n / 10) + [DigitChar(n)] && (n > 0 ==> Leading(n) == Decimal(n))
  {
  }

  /** The digits found so far, the last one first, and the `v` that is left, of at most `k` more digits. */
  ghost predicate DigitsDone(n: int, v: int, k: nat, done: string) {
    if n < 0 then v < 0 && done == "(" else 0 <= v < Pow10(k) && Decimal(n) == Leading(v) + Reversed(done)
  }

  lemma FirstDigit(n: int)
    requires 0 <= n < INT_LIMIT || n == -INT_LIMIT
    ensures DigitsDone(n, Quotient10(n), 9, [DigitChar(n)])
  {
    hide Pow10, Decimal, Leading, Reversed;
    TenDigits();
    LeastDigit();
    ReversedNone<char>();
    ReversedSnoc("", DigitChar(n));
    assert "" + [DigitChar(n)] == [DigitChar(n)] && [DigitChar(n)] + "" == [DigitChar(n)];
    if n >= 0 {
      LeadingStep(n);
    }
  }

  lemma NextDigit(n: int, v: int, k: nat, done: string)
    requires DigitsDone(n, v, k, done) && v > 0
    ensures k > 0 && DigitsDone(n, Quotient10(v), k - 1, done + [DigitChar(v)])
  {
    hide Pow10, Decimal, Leading, Reversed, DigitChar;
    Pow10Step(v, k);
    LeadingStep(v);
    ReversedSnoc(done, DigitChar(v));
    assert Leading(v / 10) + [DigitChar(v)] + Reversed(done) == Leading(v / 10) + ([DigitChar(v)] + Reversed(done));
  }

  lemma LastDigit(value: int, n: int, v: int, k: nat, done: string)
    requires IsInt(value) && n == (if value < 0 then Negated(value) else value) && DigitsDone(n, v, k, done) && (v <= 0 || k == 0)
    ensures IntText(value) == (if value < 0 then "-" else "") + Reversed(done)
  {
    hide Decimal, Reversed;
    LeadingNone();
    ReversedNone<char>();
    ReversedSnoc("", '(');
    assert "" + "(" == "(" && "(" + "" == "(";
  }

  /** Two more digits are one more byte. */
  lemma TwoDigits(q: nat, n: nat)
    ensures HexDigits(q, n + 2) == HexDigits(q / 256, n) + [Nibble(q % 256 / 16), Nibble(q % 16)]
    ensures q % 256 % 16 == q % 16
  {
    hide Nibble;
    assert q / 16 % 16 == q % 256 / 16 && q / 16 / 16 == q / 256;
    assert HexDigits(q, n + 2) == HexDigits(q / 16, n + 1) + [Nibble(q % 16)];
    assert HexDigits(q / 16, n + 1) == HexDigits(q / 256, n) + [Nibble(q / 16 % 16)];
  }

  /** `address >> shift`. */
  function High(address: nat, shift: nat): (r: nat) {
    if shift == 0 then address else High(address, shift - 1) / 2
  }

  lemma HighStep(address: nat, shift: nat)
    ensures High(address, shift) / 256 == High(address, shift + 8)
  {
    assert High(address, shift + 4) == High(address, shift) / 16 by {
      assert High(address, shift + 2) == High(address, shift) / 4;
    }
    assert High(address, shift + 6) == High(address, shift + 4) / 4;
  }

  lemma Regrouped(a: string, b: string, c: string)
    ensures a + b + c == a + (b + c)
  {
  }

  lemma NoDigits(v: nat)
    ensures HexDigits(v, 0) == ""
  {
  }

  lemma HighNone(address: nat)
    ensures High(address, 0) == address
  {
  }

  /** One more byte of a word is two more digits. */
  lemma ByteStep(address: nat, shift: nat, n: nat)
    ensures HexDigits(High(address, shift), n + 2)
            == HexDigits(High(address, shift + 8), n) + ByteText(High(address, shift) % 256)
  {
    hide High, HexDigits, Nibble;
    HighStep(address, shift);
    TwoDigits(High(address, shift), n);
  }

  /** What `Full` adds for one step of the format. */
  lemma FullStep(format: string, args: seq<Arg>, i: nat, k: nat)
    requires i < |format| && k <= |args| && Matches(format[i..], args[k..])
    ensures format[i] != '%' ==>
              Matches(format[i + 1..], args[k..]) && Full(format[i..], args[k..]) == [format[i]] + Full(format[i + 1..], args[k..])
    ensures format[i] == '%' ==> i + 1 < |format|
    ensures format[i] == '%' && !Directive(format[i + 1]) ==>
              Matches(format[i + 2..], args[k..]) && Full(format[i..], args[k..]) == [format[i + 1]] + Full(format[i + 2..], args[k..])
    ensures format[i] == '%' && Directive(format[i + 1]) ==>
              && k < |args| && Suits(format[i + 1], args[k]) && Matches(format[i + 2..], args[k + 1..])
              && Full(format[i..], args[k..]) == ArgText(format[i + 1], args[k]) + Full(format[i + 2..], args[k + 1..])
  {
    var rest := format[i..];
    assert rest[1..] == format[i + 1..];
    if format[i] == '%' {
      assert rest[2..] == format[i + 2..];
      if Directive(format[i + 1]) {
        assert args[k..][1..] == args[k + 1..];
      }
    }
  }

  lemma FullNone(format: string, args: seq<Arg>)
    requires format == ""
    ensures Matches(format, args) && Full(format, args) == ""
  {
  }

  // ----- the bounded writer

  /** A buffer that takes the first `size` characters of the text offered to it, `out`. */
  class StrCtx {
    const str: array<char>
    const size: nat
    var idx: nat
    ghost var out: string

    ghost predicate Valid()
      reads this, str
    {
      && size < str.Length
      && idx == (if |out| < size then |out| else size)
      && str[..idx] == out[..idx]
    }

    constructor (str: array<char>, size: nat)
      requires size < str.Length
      ensures Valid() && this.str == str && this.size == size && out == ""
    {
      this.str := str;
      this.size := size;
      idx := 0;
      out := "";
    }

    /** `write_string`: copies what still fits. */
    method Write(data: string)
      requires Valid()
      modifies this, str
      ensures Valid() && out == old(out) + data
      ensures idx >= old(idx) && forall k :: idx <= k < str.Length ==> str[k] == old(str[k])
    {
      var len := if idx + |data| > size then size - idx else |data|;
      ghost var before := str[..];
      forall k | idx <= k < idx + len {
        str[k] := data[k - idx];
      }
      assert str[..idx + len] == before[..idx] + data[..len];
      assert (out + data)[..idx + len] == out[..idx] + data[..len];
      out := out + data;
      idx := idx + len;
    }

    /** `udi_log_integer`: collects the digits from the last to the first, and writes them from the first to the last. */
    method LogInteger(value: int)
      requires Valid() && IsInt(value)
      modifies this, str
      ensures Valid() && out == old(out) + IntText(value)
      ensures idx >= old(idx) && forall k :: idx <= k < str.Length ==> str[k] == old(str[k])
    {
      hide IntText, Reversed;
      var buf, i := Digits(value);
      if value < 0 {
        Write("-");
      }
      ghost var start := out;
      ghost var digits := buf[..i];
      assert digits[..i] == digits;
      var j := i;
      while j > 0
        invariant 0 <= j <= i && Valid() && buf[..i] == digits
        invariant start + Reversed(digits) == out + Reversed(digits[..j])
        invariant idx >= old(idx) && forall k :: idx <= k < str.Length ==> str[k] == old(str[k])
      {
        j := j - 1;
        ReversedStep(digits, j);
        Write([buf[j]]);
        assert buf[j] == digits[j];
      }
      ReversedNone<char>();
      assert digits[..j] == "" && out == start + Reversed(digits);
    }

    /** The first loop of `udi_log_integer`: at most ten digits, the last one first. */
    static method Digits(value: int) returns (buf: array<char>, i: nat)
      requires IsInt(value)
      ensures fresh(buf) && i <= buf.Length == 10
      ensures IntText(value) == (if value < 0 then "-" else "") + Reversed(buf[..i])
    {
      hide DigitsDone, DigitChar, Quotient10, Reversed, IntText;
      buf := new char[10];
      var v := if value < 0 then Negated(value) else value;
      ghost var n := v;
      FirstDigit(n);
      buf[0] := DigitChar(v);
      i, v := 1, Quotient10(v);
      assert buf[..1] == [DigitChar(n)];
      while i < 10 && v > 0
        invariant 1 <= i <= 10 && DigitsDone(n, v, 10 - i, buf[..i])
        decreases 10 - i
      {
        ghost var done := buf[..i];
        NextDigit(n, v, 10 - i, done);
        buf[i] := DigitChar(v);
        assert buf[..i + 1] == done + [DigitChar(v)];
        v := Quotient10(v);
        i := i + 1;
      }
      LastDigit(value, n, v, 10 - i, buf[..i]);
    }

    /** `udi_log_nibble`. */
    method LogNibble(nibble: nat)
      requires Valid() && nibble < 16
      modifies this, str
      ensures Valid() && out == old(out) + [Nibble(nibble)]
      ensures idx >= old(idx) && forall k :: idx <= k < str.Length ==> str[k] == old(str[k])
    {
      Write([Nibble(nibble)]);
    }

    /** `udi_log_byte`. */
    method LogByte(byte: nat)
      requires Valid() && byte < 256
      modifies this, str
      ensures Valid() && out == old(out) + ByteText(byte)
      ensures idx >= old(idx) && forall k :: idx <= k < str.Length ==> str[k] == old(str[k])
    {
      LogNibble(byte / 16);
      LogNibble(byte % 16);
    }

    /** `udi_log_64bit`: the bytes of a word, the highest first. */
    method LogWord(address: nat)
      requires Valid() && address < WORD_RANGE
      modifies this, str
      ensures Valid() && out == old(out) + HexDigits(address, 16)
      ensures idx >= old(idx) && forall k :: idx <= k < str.Length ==> str[k] == old(str[k])
    {
      hide High, HexDigits, ByteText;
      NoDigits(High(address, 64));
      HighNone(address);
      var shift := 56;
      ghost var k := 0;
      while shift > 0
        invariant 0 <= k <= 7 && shift == 56 - 8 * k && Valid()
        invariant out == old(out) + HexDigits(High(address, shift + 8), 2 * k)
        invariant idx >= old(idx) && forall k :: idx <= k < str.Length ==> str[k] == old(str[k])
      {
        ByteStep(address, shift, 2 * k);
        ghost var digits := HexDigits(High(address, shift + 8), 2 * k);
        LogByte(High(address, shift) % 256);
        Regrouped(old(out), digits, ByteText(High(address, shift) % 256));
        shift, k := shift - 8, k + 1;
      }
      ByteStep(address, 0, 14);
      LogByte(High(address, 0) % 256);
      Regrouped(old(out), HexDigits(High(address, 8), 14), ByteText(High(address, 0) % 256));
    }

    /** One directive of `udi_log_varargs`. */
    method LogArg(c: char, arg: Arg)
      requires Valid() && Directive(c) && Suits(c, arg)
      modifies this, str
      ensures Valid() && out == old(out) + ArgText(c, arg)
      ensures idx >= old(idx) && forall k :: idx <= k < str.Length ==> str[k] == old(str[k])
    {
      hide HexDigits, IntText, ByteText;
      match c
      case 'a' =>
        Write("0x");
        LogWord(arg.word);
      case 'e' => Write(arg.text);
      case 's' => Write(arg.text);
      case 'd' => LogInteger(arg.value);
      case 'b' =>
        LogByte(arg.value % 256);
      case 'l' => LogInteger(ToInt(arg.word));
      case _ => LogWord(arg.word);
    }

    /** `udi_log_varargs`. */
    method LogFormat(format: string, args: seq<Arg>)
      requires Valid() && Matches(format, args)
      modifies this, str
      ensures Valid() && out == old(out) + Full(format, args)
      ensures idx >= old(idx) && forall k :: idx <= k < str.Length ==> str[k] == old(str[k])
    {
      hide Matches, Full, ArgText, Suits, Directive;
      var i, k := 0, 0;
      assert format[0..] == format && args[0..] == args;
      while i < |format|
        invariant i <= |format| && k <= |args| && Valid() && Matches(format[i..], args[k..])
        invariant out + Full(format[i..], args[k..]) == old(out) + Full(format, args)
        invariant idx >= old(idx) && forall k :: idx <= k < str.Length ==> str[k] == old(str[k])
      {
        FullStep(format, args, i, k);
        ghost var rest, before := Full(format[i..], args[k..]), out;
        if format[i] != '%' {
          Write([format[i]]);
          i := i + 1;
        } else if !Directive(format[i + 1]) {
          Write([format[i + 1]]);
          i := i + 2;
        } else {
          LogArg(format[i + 1], args[k]);
          i, k := i + 2, k + 1;
        }
        assert out + Full(format[i..], args[k..]) == before + rest;
      }
      FullNone(format[i..], args[k..]);
    }
  }

  /** How much of a text fits with its terminator. */
  function Room(size: nat, full: string): (n: nat)
    requires size > 0
    ensures n < size && n <= |full|
  {
    if |full| < size - 1 then |full| else size - 1
  }

  /** `udi_formatted_str`: as much of the whole text as fits, then a terminator; nothing else is written. */
  method FormattedStr(str: array<char>, size: nat, format: string, args: seq<Arg>)
    requires 1 <= size <= str.Length && Matches(format, args)
    modifies str
    ensures var full := Full(format, args);
            var n := Room(size, full);
            str[..] == full[..n] + ['\0'] + old(str[..])[n + 1..]
  {
    hide Matches, Full;
    var ctx := new StrCtx(str, size - 1);
    ghost var before := str[..];
    ctx.LogFormat(format, args);
    var n := ctx.idx;
    assert ctx.out == Full(format, args) && n == Room(size, ctx.out);
    ghost var written := str[..];
    assert written[..n] == ctx.out[..n] && written[n..] == before[n..];
    str[n] := '\0';
    Terminated(written, ctx.out[..n], before, n, str[..]);
  }

  lemma Terminated(written: string, text: string, before: string, n: nat, after: string)
    requires n < |written| == |before| && written[..n] == text && written[n..] == before[n..]
    requires after == written[n := '\0']
    ensures after == text + ['\0'] + before[n + 1..]
  {
    assert written[n..][1..] == written[n + 1..] && before[n..][1..] == before[n + 1..];
    assert after == written[..n] + ['\0'] + written[n + 1..];
  }
}
