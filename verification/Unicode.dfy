/** The characters with the property White_Space (section 4.6 of the Unicode Standard),
    and how UTF-8 writes them (section 3 of RFC 3629). */
module Unicode {
  import opened Bytes

  predicate IsWhiteSpace(c: nat) {
    || 9 <= c <= 13 || c == 0x20 || c == 0x85 || c == 0xA0 || c == 0x1680 || 0x2000 <= c <= 0x200A
    || c == 0x2028 || c == 0x2029 || c == 0x202F || c == 0x205F || c == 0x3000
  }

  /** For the characters of the Basic Multilingual Plane. */
  function Utf8(c: nat): seq<byte>
    requires c < 0x1_0000
  {
    if c < 0x80 then [c]
    else if c < 0x800 then [0xC0 + c / 64, 0x80 + c % 64]
    else [0xE0 + c / 4096, 0x80 + c / 64 % 64, 0x80 + c % 64]
  }

  /** Up to 7 bits take one byte, up to 11 two, and up to 16 three. */
  lemma FewerBytes(hi: nat, lo: nat)
    requires hi < 32 && lo < 64
    ensures Utf8(hi * 64 + lo) == if hi < 2 then [hi * 64 + lo] else [0xC0 + hi, 0x80 + lo]
  {
    Quotient(hi * 64 + lo, 64, hi, lo);
  }

  lemma ThreeBytes(hi: nat, mid: nat, lo: nat)
    requires hi < 16 && mid < 64 && lo < 64 && hi * 4096 + mid * 64 + lo >= 0x800
    ensures Utf8(hi * 4096 + mid * 64 + lo) == [0xE0 + hi, 0x80 + mid, 0x80 + lo]
  {
    var c := hi * 4096 + mid * 64 + lo;
    Quotient(c, 64, hi * 64 + mid, lo);
    Quotient(hi * 64 + mid, 64, hi, mid);
    Quotient(c, 4096, hi, mid * 64 + lo);
  }

  lemma Quotient(n: nat, d: nat, q: nat, r: nat)
    requires (d == 64 || d == 4096) && n == d * q + r && r < d
    ensures n / d == q && n % d == r
  {
  }
}
