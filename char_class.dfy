/**
 * The character predicates and the UTF-8 width that the scanner takes from
 * Rust's `char`: `is_whitespace`, `is_digit(10)`, `is_ascii_alphabetic`,
 * `is_ascii_alphanumeric` and `len_utf8`, and the UTF-8 encoding and
 * decoding behind Rust's `&str`, on which the scanner's byte cursor moves.
 */
module CharClass {

  import opened Wrappers

  /**
   * `char::is_whitespace`: the code points with the Unicode White_Space
   * property. Among the ASCII chars these are space, tab, line feed,
   * vertical tab, form feed and carriage return.
   */
  predicate IsWhitespace(c: char)
    ensures (c as int) < 0x80 ==>
      (IsWhitespace(c) <==> c == ' ' || c == '\t' || c == '\n' || c == '\r' || c as int == 0x0B || c as int == 0x0C)
  {
    var n := c as int;
    n == 0x20 || 0x09 <= n <= 0x0D || n == 0x85 || n == 0xA0 || n == 0x1680
    || 0x2000 <= n <= 0x200A || n == 0x2028 || n == 0x2029 || n == 0x202F
    || n == 0x205F || n == 0x3000
  }

  /** `char::is_digit(10)`: only the ten ASCII digits, none of them whitespace. */
  predicate IsDigit(c: char)
    ensures IsDigit(c) ==> (c as int) < 0x80 && !IsWhitespace(c)
  {
    '0' <= c <= '9'
  }

  /** `char::is_ascii_alphabetic`: the 52 letters of the ASCII alphabet, neither digits nor whitespace. */
  predicate IsAsciiAlphabetic(c: char)
    ensures IsAsciiAlphabetic(c) ==> (c as int) < 0x80 && !IsDigit(c) && !IsWhitespace(c)
  {
    'A' <= c <= 'Z' || 'a' <= c <= 'z'
  }

  /** `char::is_ascii_alphanumeric`: ASCII letters and digits, never whitespace. */
  predicate IsAsciiAlphanumeric(c: char)
    ensures IsAsciiAlphanumeric(c) ==> (c as int) < 0x80 && !IsWhitespace(c)
  {
    IsAsciiAlphabetic(c) || IsDigit(c)
  }

  /** `char::len_utf8`: the number of bytes of the UTF-8 encoding of `c`. */
  function Utf8Width(c: char): (w: nat)
    ensures 1 <= w <= 4
  {
    var n := c as int;
    if n < 0x80 then 1
    else if n < 0x800 then 2
    else if n < 0x1_0000 then 3
    else 4
  }

  type Byte = b: int | 0 <= b < 0x100

  /** The UTF-8 encoding of one code point (section 3 of RFC 3629). */
  function Utf8Encode(c: char): (bytes: seq<Byte>)
    ensures |bytes| == Utf8Width(c)
  {
    var n := c as int;
    var n6, n12, n18 := n / 0x40, n / 0x40 / 0x40, n / 0x40 / 0x40 / 0x40;
    if n < 0x80 then [n]
    else if n < 0x800 then [0xC0 + n6, 0x80 + n % 0x40]
    else if n < 0x1_0000 then [0xE0 + n12, 0x80 + n6 % 0x40, 0x80 + n % 0x40]
    else [0xF0 + n18, 0x80 + n12 % 0x40, 0x80 + n6 % 0x40, 0x80 + n % 0x40]
  }

  /** The byte offset of char `k` of `s`: the byte length of `s[..k]`, as Rust's `str::len`. */
  function Utf8Offset(s: seq<char>, k: nat): (n: nat)
    requires k <= |s|
    ensures n >= k
  {
    if k == 0 then 0 else Utf8Offset(s, k - 1) + Utf8Width(s[k - 1])
  }

  /** The code point `n` as a `char`, when it is a Unicode scalar value. */
  function ScalarValue(n: int): Option<char>
  {
    if 0 <= n < 0xD800 || 0xE000 <= n < 0x11_0000 then Some(n as char) else None
  }

  predicate IsContinuation(b: Byte) {
    0x80 <= b < 0xC0
  }

  /**
   * The first code point of a UTF-8 byte string, as `str::chars().next()`
   * reads it: the leading byte gives the width, the continuation bytes the
   * remaining bits.
   */
  function Utf8DecodeFirst(bytes: seq<Byte>): (r: Option<char>)
    ensures r.Some? ==> Utf8Width(r.value) <= |bytes|
  {
    if |bytes| == 0 then None
    else
      var b0 := bytes[0] as int;
      if b0 < 0x80 then ScalarValue(b0)
      else if 0xC0 <= b0 < 0xE0 && |bytes| >= 2 && IsContinuation(bytes[1]) then
        ScalarValue((b0 - 0xC0) * 0x40 + (bytes[1] as int - 0x80))
      else if 0xE0 <= b0 < 0xF0 && |bytes| >= 3 && IsContinuation(bytes[1]) && IsContinuation(bytes[2]) then
        ScalarValue((b0 - 0xE0) * 0x1000 + (bytes[1] as int - 0x80) * 0x40 + (bytes[2] as int - 0x80))
      else if 0xF0 <= b0 < 0xF8 && |bytes| >= 4
        && IsContinuation(bytes[1]) && IsContinuation(bytes[2]) && IsContinuation(bytes[3]) then
        ScalarValue((b0 - 0xF0) * 0x4_0000 + (bytes[1] as int - 0x80) * 0x1000
                    + (bytes[2] as int - 0x80) * 0x40 + (bytes[3] as int - 0x80))
      else None
  }

  /** The UTF-8 encoding of the first `k` chars of `s`. */
  function Utf8EncodePrefix(s: seq<char>, k: nat): (bytes: seq<Byte>)
    requires k <= |s|
    ensures |bytes| == Utf8Offset(s, k)
  {
    if k == 0 then [] else Utf8EncodePrefix(s, k - 1) + Utf8Encode(s[k - 1])
  }

  /** The UTF-8 encoding of a whole text: the bytes behind Rust's `&str`. */
  function Utf8EncodeText(s: seq<char>): (bytes: seq<Byte>)
    ensures |bytes| == Utf8Offset(s, |s|)
  {
    Utf8EncodePrefix(s, |s|)
  }

  /** Decoding the encoding of one code point, followed by anything, gives that code point back. */
  lemma Utf8DecodeEncode(c: char, rest: seq<Byte>)
    ensures Utf8DecodeFirst(Utf8Encode(c) + rest) == Some(c)
  {
    var n := c as int;
    var n6, n12, n18 := n / 0x40, n / 0x40 / 0x40, n / 0x40 / 0x40 / 0x40;
    var e := Utf8Encode(c) + rest;
    assert n == n6 * 0x40 + n % 0x40;
    assert n6 == n12 * 0x40 + n6 % 0x40;
    assert n12 == n18 * 0x40 + n12 % 0x40;
    if n < 0x80 {
      assert e[0] as int == n;
    } else if n < 0x800 {
      assert e[0] as int == 0xC0 + n6 && e[1] as int == 0x80 + n % 0x40;
    } else if n < 0x1_0000 {
      assert e[0] as int == 0xE0 + n12 && e[1] as int == 0x80 + n6 % 0x40 && e[2] as int == 0x80 + n % 0x40;
    } else {
      assert e[0] as int == 0xF0 + n18 && e[1] as int == 0x80 + n12 % 0x40;
      assert e[2] as int == 0x80 + n6 % 0x40 && e[3] as int == 0x80 + n % 0x40;
    }
  }


  /**
   * Byte offsets grow strictly with the char index, and the encoding of a
   * shorter prefix is a prefix of the encoding of a longer one.
   */
  lemma {:induction false} Utf8EncodePrefixGrows(s: seq<char>, i: nat, j: nat)
    requires i <= j <= |s|
    ensures Utf8Offset(s, i) + (j - i) <= Utf8Offset(s, j)
    ensures Utf8EncodePrefix(s, j)[..Utf8Offset(s, i)] == Utf8EncodePrefix(s, i)
    decreases j - i
  {
    if i < j {
      Utf8EncodePrefixGrows(s, i, j - 1);
      TakeOfAppend(Utf8EncodePrefix(s, j - 1), Utf8Encode(s[j - 1]), Utf8Offset(s, i));
    }
  }

  /**
   * What `peek_char` reads at the byte offset of char `i` of the encoded
   * text is that char: a cursor that advances by `len_utf8` stays on char
   * boundaries.
   */
  lemma Utf8DecodeAtOffset(s: seq<char>, i: nat)
    requires i < |s|
    ensures Utf8Offset(s, i) < Utf8Offset(s, |s|)
    ensures Utf8DecodeFirst(Utf8EncodeText(s)[Utf8Offset(s, i)..]) == Some(s[i])
  {
    Utf8EncodePrefixGrows(s, i + 1, |s|);
    var text := Utf8EncodeText(s);
    var before, code := Utf8EncodePrefix(s, i), Utf8Encode(s[i]);
    assert Utf8EncodePrefix(s, i + 1) == before + code;
    DropPrefix(text, before, code);
    var after := text[|before| + |code|..];
    Utf8DecodeEncode(s[i], after);
  }

  /** The first `n` items of `a + b`, where `a` has at least `n`, are those of `a`. */
  lemma TakeOfAppend<T>(a: seq<T>, b: seq<T>, n: nat)
    requires n <= |a|
    ensures (a + b)[..n] == a[..n]
  {
  }

  /** Dropping a prefix `a` of a sequence that starts with `a + b` leaves `b` in front. */
  lemma DropPrefix<T>(text: seq<T>, a: seq<T>, b: seq<T>)
    requires |a| + |b| <= |text| && text[..|a| + |b|] == a + b
    ensures text[|a|..] == b + text[|a| + |b|..]
  {
    assert text == text[..|a| + |b|] + text[|a| + |b|..];
  }
}
