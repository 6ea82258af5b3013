/** `url_encode` of `cloud_utils.cpp`: percent-encoding (sections 2.1 and 2.3 of RFC 3986). */
module UrlEncoding {
  import opened Bytes

  /** ALPHA, DIGIT, '-', '.', '_' and '~'. */
  predicate Unreserved(c: char) {
    'A' <= c <= 'Z' || 'a' <= c <= 'z' || '0' <= c <= '9' || c == '-' || c == '_' || c == '.' || c == '~'
  }

  /** The characters that section 2.3 of RFC 3986 lists. */
  lemma UnreservedIff(c: char)
    ensures Unreserved(c) <==>
            c in "ABCDEFGHIJKLMNOPQRSTUVWXYZ" || c in "abcdefghijklmnopqrstuvwxyz" || c in "0123456789-._~"
  {
  }

  function HexDigit(n: nat): (c: char)
    requires n < 16
    ensures c != '%'
  {
    if n < 10 then ('0' as int + n) as char else ('A' as int + (n - 10)) as char
  }

  function HexValue(c: char): (v: int)
    ensures -1 <= v < 16
  {
    if '0' <= c <= '9' then c as int - '0' as int
    else if 'A' <= c <= 'F' then c as int - 'A' as int + 10
    else if 'a' <= c <= 'f' then c as int - 'a' as int + 10
    else -1
  }

  function CharOf(b: Byte): char { b as int as char }

  /** The text for one byte. */
  function Escape(b: Byte, encodeSlash: bool): (s: string) {
    if Unreserved(CharOf(b)) then [CharOf(b)]
    else if CharOf(b) == '/' && !encodeSlash then [CharOf(b)]
    else ['%', HexDigit(b as nat / 16), HexDigit(b as nat % 16)]
  }

  function Escaped(value: seq<Byte>, encodeSlash: bool): string {
    if value == [] then "" else Escape(value[0], encodeSlash) + Escaped(value[1..], encodeSlash)
  }

  lemma EscapeByCase(b: Byte, encodeSlash: bool)
    ensures Escape(b, encodeSlash) ==
            if Unreserved(CharOf(b)) || (CharOf(b) == '/' && !encodeSlash) then [CharOf(b)]
            else ['%', HexDigit(b as nat / 16), HexDigit(b as nat % 16)]
  {
    hide HexDigit, Unreserved, CharOf;
  }

  lemma EscapedFrom(value: seq<Byte>, i: nat, encodeSlash: bool)
    requires i <= |value|
    ensures Escaped(value[i..], encodeSlash) ==
            if i == |value| then "" else Escape(value[i], encodeSlash) + Escaped(value[i + 1..], encodeSlash)
  {
    hide Escape;
    if i < |value| {
      assert value[i..][1..] == value[i + 1..];
    }
  }

  /** `url_encode` */
  method UrlEncode(value: seq<Byte>, encodeSlash: bool) returns (escaped: string)
    ensures escaped == Escaped(value, encodeSlash)
  {
    hide Escape, Escaped, HexDigit, Unreserved, CharOf;
    escaped := "";
    assert value[0..] == value;
    for i := 0 to |value|
      invariant escaped + Escaped(value[i..], encodeSlash) == Escaped(value, encodeSlash)
    {
      var b := value[i];
      var c := CharOf(b);
      ghost var before, rest := escaped, Escaped(value[i + 1..], encodeSlash);
      EscapedFrom(value, i, encodeSlash);
      EscapeByCase(b, encodeSlash);
      if Unreserved(c) {
        escaped := escaped + [c];
      } else if c == '/' && !encodeSlash {
        escaped := escaped + [c];
      } else {
        escaped := escaped + ['%', HexDigit(b as nat / 16), HexDigit(b as nat % 16)];
      }
      assert before + (Escape(b, encodeSlash) + rest) == (before + Escape(b, encodeSlash)) + rest;
    }
    EscapedFrom(value, |value|, encodeSlash);
  }

  /** Percent-decoding: a '%' followed by two hexadecimal digits is one byte, any other character is its own. */
  function Unescaped(s: string): seq<Byte> {
    if s == [] then []
    else if s[0] == '%' && |s| >= 3 && HexValue(s[1]) >= 0 && HexValue(s[2]) >= 0 then
      [(16 * HexValue(s[1]) + HexValue(s[2])) as Byte] + Unescaped(s[3..])
    else [(s[0] as int % 256) as Byte] + Unescaped(s[1..])
  }

  lemma UnescapeOne(b: Byte, encodeSlash: bool, rest: string)
    ensures Unescaped(Escape(b, encodeSlash) + rest) == [b] + Unescaped(rest)
  {
    var e := Escape(b, encodeSlash);
    var s := e + rest;
    if |e| == 1 {
      assert s[1..] == rest && s[0] != '%';
    } else {
      assert s[3..] == rest;
      assert HexValue(s[1]) == b as nat / 16 && HexValue(s[2]) == b as nat % 16;
    }
  }

  /** Percent-decoding undoes the encoder on every byte string, in both slash modes. */
  lemma {:induction false} RoundTrip(value: seq<Byte>, encodeSlash: bool)
    ensures Unescaped(Escaped(value, encodeSlash)) == value
  {
    hide Escape, Unescaped;
    if value == [] {
      UnescapedEmpty();
    } else {
      UnescapeOne(value[0], encodeSlash, Escaped(value[1..], encodeSlash));
      RoundTrip(value[1..], encodeSlash);
    }
  }

  lemma UnescapedEmpty()
    ensures Unescaped("") == []
  {
  }

  lemma EscapedInjective(a: seq<Byte>, b: seq<Byte>, encodeSlash: bool)
    requires Escaped(a, encodeSlash) == Escaped(b, encodeSlash)
    ensures a == b
  {
    hide *;
    RoundTrip(a, encodeSlash);
    RoundTrip(b, encodeSlash);
  }

  /** Only unreserved characters, upper-case %HH triplets and, if it is let through, the slash. */
  ghost predicate Clean(s: string, encodeSlash: bool) {
    s == [] ||
    ((Unreserved(s[0]) || (s[0] == '/' && !encodeSlash)) && Clean(s[1..], encodeSlash)) ||
    (|s| >= 3 && s[0] == '%' && UpperHex(s[1]) && UpperHex(s[2]) && Clean(s[3..], encodeSlash))
  }

  predicate UpperHex(c: char) { '0' <= c <= '9' || 'A' <= c <= 'F' }

  lemma CleanPrefix(b: Byte, encodeSlash: bool, rest: string)
    requires Clean(rest, encodeSlash)
    ensures Clean(Escape(b, encodeSlash) + rest, encodeSlash)
  {
  }

  lemma {:induction false} EscapedIsClean(value: seq<Byte>, encodeSlash: bool)
    ensures Clean(Escaped(value, encodeSlash), encodeSlash)
  {
    hide Escape;
    if value != [] {
      EscapedIsClean(value[1..], encodeSlash);
      CleanPrefix(value[0], encodeSlash, Escaped(value[1..], encodeSlash));
    }
  }
}
