/** Percent-encoding as the writer applies it: every byte outside the
    unreserved set of section 2.3 of RFC 3986 (letters, digits, `-`, `_`,
    `.`, `~`) becomes `%` followed by two uppercase hexadecimal digits
    (section 2.1 of RFC 3986). */
module Escape {
  import opened Common

  /** The unreserved bytes of section 2.3 of RFC 3986. */
  predicate Unreserved(b: byte) {
    || (65 <= b <= 90)    // 'A'..'Z'
    || (97 <= b <= 122)   // 'a'..'z'
    || (48 <= b <= 57)    // '0'..'9'
    || b == 45            // '-'
    || b == 95            // '_'
    || b == 46            // '.'
    || b == 126           // '~'
  }

  /** `shouldEscape(b)`. */
  predicate ShouldEscape(b: byte) {
    !Unreserved(b)
  }

  /** Uppercase hexadecimal digit of a nibble. */
  function HexDigit(n: int): (d: byte)
    requires 0 <= n < 16
    ensures n < 10 ==> d == 48 + n
    ensures n >= 10 ==> d == 65 + (n - 10)
  {
    if n < 10 then 48 + n else 55 + n
  }

  /** The value of a hexadecimal digit, either case; `None` for other bytes. */
  function HexValue(d: byte): Option<int>
  {
    if 48 <= d <= 57 then Some(d - 48)
    else if 65 <= d <= 70 then Some(d - 55)
    else if 97 <= d <= 102 then Some(d - 87)
    else None
  }

  /** `escape(b)`: the three-byte sequence `%XX`. */
  function EscapeByte(b: byte): (r: Bytes)
    ensures |r| == 3 && r[0] == Percent
    ensures HexValue(r[1]) == Some(b / 16) && HexValue(r[2]) == Some(b % 16)
  {
    [Percent, HexDigit(b / 16), HexDigit(b % 16)]
  }

  /** What `writeEscaped(s)` appends: each byte itself if unreserved,
      otherwise its `%XX` escape, in order. */
  function Escaped(s: Bytes): Bytes
    decreases |s|
  {
    if |s| == 0 then []
    else (if ShouldEscape(s[0]) then EscapeByte(s[0]) else [s[0]]) + Escaped(s[1..])
  }

  /** Percent-decoding: `%` followed by two hex digits stands for one byte,
      every other byte for itself; `None` for a malformed escape. */
  function Unescape(s: Bytes): Option<Bytes>
    decreases |s|
  {
    if |s| == 0 then Some([])
    else if s[0] != Percent then
      match Unescape(s[1..])
      case Some(rest) => Some([s[0]] + rest)
      case None => None
    else if |s| < 3 then None
    else match (HexValue(s[1]), HexValue(s[2]), Unescape(s[3..]))
      case (Some(hi), Some(lo), Some(rest)) => Some([hi * 16 + lo] + rest)
      case _ => None
  }

  /** Escaping distributes over concatenation. */
  lemma {:induction false} EscapedAppend(a: Bytes, b: Bytes)
    ensures Escaped(a + b) == Escaped(a) + Escaped(b)
    decreases |a|
  {
    if |a| > 0 {
      assert (a + b)[1..] == a[1..] + b;
      EscapedAppend(a[1..], b);
    } else {
      assert a + b == b;
    }
  }

  /** A run of unreserved bytes is written unchanged. */
  lemma {:induction false} EscapedUnreserved(s: Bytes)
    requires forall i :: 0 <= i < |s| ==> Unreserved(s[i])
    ensures Escaped(s) == s
    decreases |s|
  {
    if |s| > 0 {
      EscapedUnreserved(s[1..]);
    }
  }

  /** The escaped form consists of unreserved bytes and `%` only. */
  lemma {:induction false} EscapedAlphabet(s: Bytes)
    ensures forall i :: 0 <= i < |Escaped(s)| ==> Unreserved(Escaped(s)[i]) || Escaped(s)[i] == Percent
    decreases |s|
  {
    if |s| > 0 {
      EscapedAlphabet(s[1..]);
      var head := if ShouldEscape(s[0]) then EscapeByte(s[0]) else [s[0]];
      assert Escaped(s) == head + Escaped(s[1..]);
      forall i | 0 <= i < |Escaped(s)|
        ensures Unreserved(Escaped(s)[i]) || Escaped(s)[i] == Percent
      {
        if i >= |head| {
          assert Escaped(s)[i] == Escaped(s[1..])[i - |head|];
        } else if ShouldEscape(s[0]) && i > 0 {
          assert HexValue(head[i]).Some?;
        }
      }
    }
  }

  /** Round trip: percent-decoding the escaped form gives back the input. */
  lemma {:induction false} UnescapeEscaped(s: Bytes)
    ensures Unescape(Escaped(s)) == Some(s)
    decreases |s|
  {
    if |s| > 0 {
      UnescapeEscaped(s[1..]);
      var e := Escaped(s);
      if ShouldEscape(s[0]) {
        assert e == EscapeByte(s[0]) + Escaped(s[1..]);
        assert e[3..] == Escaped(s[1..]);
        assert s[0] == (s[0] / 16) * 16 + s[0] % 16;
        assert s == [s[0]] + s[1..];
      } else {
        assert e == [s[0]] + Escaped(s[1..]);
        assert e[1..] == Escaped(s[1..]);
        assert s[0] != Percent;
        assert s == [s[0]] + s[1..];
      }
    }
  }

  /** The escaped form of "Test!" is "Test%21". */
  lemma EscapedExample(s: Bytes)
    requires s == Ascii("Test!")
    ensures Escaped(s) == Ascii("Test%21")
  {
    var test: Bytes := [84, 101, 115, 116];
    assert s == test + [33];
    assert Ascii("Test%21") == test + [37, 50, 49];
    EscapedAppend(test, [33]);
    EscapedUnreserved(test);
    assert Escaped([33]) == EscapeByte(33) + Escaped([]);
    assert EscapeByte(33) == [37, 50, 49];
  }

  /** The byte values the library's own tests pin down. */
  lemma EscapeExamples()
    ensures EscapeByte(32) == Ascii("%20")     // space
    ensures EscapeByte(10) == Ascii("%0A")     // newline
    ensures EscapeByte(0) == Ascii("%00")
    ensures EscapeByte(127) == Ascii("%7F")
    ensures !ShouldEscape('a' as int) && !ShouldEscape('z' as int)
    ensures !ShouldEscape('A' as int) && !ShouldEscape('Z' as int)
    ensures !ShouldEscape('0' as int) && !ShouldEscape('9' as int)
    ensures !ShouldEscape('-' as int) && !ShouldEscape('_' as int)
    ensures !ShouldEscape('.' as int) && !ShouldEscape('~' as int)
    ensures ShouldEscape('@' as int)
  {
  }
}
