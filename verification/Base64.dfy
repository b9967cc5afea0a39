/**
 * Base 64 as the Rust crate's engines do it (RFC 4648): the standard and the URL
 * alphabet, with and without padding. Decoding is strict: no foreign character,
 * no odd length, no stray bits in the last character, padding exactly as encoded.
 */
module Base64 {
  import opened Common

  type Sextet = s: int | 0 <= s < 64

  datatype Alphabet = Standard | UrlSafe

  // ---- Bytes and groups of six bits ----

  function ToSextets(b: Bytes): seq<Sextet> {
    if |b| == 0 then []
    else if |b| == 1 then [Sextet0(b[0]), Sextet1(b[0], 0)]
    else if |b| == 2 then [Sextet0(b[0]), Sextet1(b[0], b[1]), Sextet2(b[1], 0)]
    else [Sextet0(b[0]), Sextet1(b[0], b[1]), Sextet2(b[1], b[2]), Sextet3(b[2])] + ToSextets(b[3..])
  }

  function Sextet0(x: Byte): Sextet {
    x / 4
  }

  function Sextet1(x: Byte, y: Byte): Sextet {
    x % 4 * 16 + y / 16
  }

  function Sextet2(y: Byte, z: Byte): Sextet {
    y % 16 * 4 + z / 64
  }

  function Sextet3(z: Byte): Sextet {
    z % 64
  }

  function Byte0(x: int, y: int): Byte
    requires 0 <= x < 64 && 0 <= y < 64
  {
    x * 4 + y / 16
  }

  function Byte1(y: int, z: int): Byte
    requires 0 <= y < 64 && 0 <= z < 64
  {
    y % 16 * 16 + z / 4
  }

  function Byte2(z: int, w: int): Byte
    requires 0 <= z < 64 && 0 <= w < 64
  {
    z % 4 * 64 + w
  }

  function FromSextets(s: seq<Sextet>): Option<Bytes> {
    if |s| == 0 then Some([])
    else if |s| == 1 then None
    else if |s| == 2 then
      if s[1] % 16 == 0 then Some([Byte0(s[0], s[1])]) else None
    else if |s| == 3 then
      if s[2] % 4 == 0 then Some([Byte0(s[0], s[1]), Byte1(s[1], s[2])]) else None
    else
      var rest := FromSextets(s[4..]);
      if rest.None? then None
      else Some([Byte0(s[0], s[1]), Byte1(s[1], s[2]), Byte2(s[2], s[3])] + rest.value)
  }

  lemma GroupRoundTrip(x: Byte, y: Byte, z: Byte)
    ensures Byte0(Sextet0(x), Sextet1(x, y)) == x
    ensures Byte1(Sextet1(x, y), Sextet2(y, z)) == y
    ensures Byte2(Sextet2(y, z), Sextet3(z)) == z
    ensures Sextet1(x, 0) % 16 == 0 && Sextet2(y, 0) % 4 == 0
  {
  }

  lemma LastSextet(x: Byte, y: Byte)
    requires y == 0
    ensures Sextet1(x, y) % 16 == 0 && Byte0(Sextet0(x), Sextet1(x, y)) == x
  {
  }

  lemma OneByte(x: Byte)
    ensures FromSextets([Sextet0(x), Sextet1(x, 0)]) == Some([x])
  {
    var s: seq<Sextet> := [Sextet0(x), Sextet1(x, 0)];
    LastSextet(x, 0);
    assert FromSextets(s) == Some([Byte0(s[0], s[1])]);
  }

  lemma TwoBytes(x: Byte, y: Byte)
    ensures FromSextets([Sextet0(x), Sextet1(x, y), Sextet2(y, 0)]) == Some([x, y])
  {
    GroupRoundTrip(x, y, 0);
  }

  lemma {:induction false} SextetsRoundTrip(b: Bytes)
    ensures FromSextets(ToSextets(b)) == Some(b)
  {
    if |b| == 1 {
      OneByte(b[0]);
      assert b == [b[0]];
    } else if |b| == 2 {
      TwoBytes(b[0], b[1]);
      assert b == [b[0], b[1]];
    } else if |b| >= 3 {
      SextetsRoundTrip(b[3..]);
      LongRoundTrip(b[0], b[1], b[2], b[3..], ToSextets(b[3..]));
      assert b == [b[0], b[1], b[2]] + b[3..];
    }
  }

  lemma LongRoundTrip(x: Byte, y: Byte, z: Byte, rest: Bytes, s: seq<Sextet>)
    requires FromSextets(s) == Some(rest)
    ensures FromSextets([Sextet0(x), Sextet1(x, y), Sextet2(y, z), Sextet3(z)] + s) == Some([x, y, z] + rest)
  {
    GroupRoundTrip(x, y, z);
    assert ([Sextet0(x), Sextet1(x, y), Sextet2(y, z), Sextet3(z)] + s)[4..] == s;
  }

  lemma {:induction false} SextetCount(b: Bytes)
    ensures |ToSextets(b)| % 4 != 1
  {
    if |b| >= 3 {
      SextetCount(b[3..]);
      assert |ToSextets(b)| == 4 + |ToSextets(b[3..])|;
    }
  }

  lemma GroupCanonical(x: Sextet, y: Sextet, z: Sextet, w: Sextet)
    ensures Sextet0(Byte0(x, y)) == x && Sextet1(Byte0(x, y), Byte1(y, z)) == y
    ensures Sextet2(Byte1(y, z), Byte2(z, w)) == z && Sextet3(Byte2(z, w)) == w
  {
  }

  lemma LastCanonical(x: Sextet, y: Sextet, z: Sextet)
    ensures y % 16 == 0 ==> Sextet1(Byte0(x, y), 0) == y
    ensures z % 4 == 0 ==> Sextet2(Byte1(y, z), 0) == z
  {
  }

  lemma ToSextetsCons(p: Byte, q: Byte, r: Byte, rest: Bytes)
    ensures ToSextets([p, q, r] + rest) == [Sextet0(p), Sextet1(p, q), Sextet2(q, r), Sextet3(r)] + ToSextets(rest)
  {
    assert ([p, q, r] + rest)[3..] == rest;
  }

  lemma LongCanonical(x: Sextet, y: Sextet, z: Sextet, w: Sextet, rest: Bytes)
    ensures ToSextets([Byte0(x, y), Byte1(y, z), Byte2(z, w)] + rest) == [x, y, z, w] + ToSextets(rest)
  {
    GroupCanonical(x, y, z, w);
    ToSextetsCons(Byte0(x, y), Byte1(y, z), Byte2(z, w), rest);
  }

  lemma ShortCanonical(s: seq<Sextet>)
    requires |s| < 4 && FromSextets(s).Some?
    ensures ToSextets(FromSextets(s).value) == s
  {
    if |s| == 2 {
      GroupCanonical(s[0], s[1], 0, 0);
      LastCanonical(s[0], s[1], 0);
    } else if |s| == 3 {
      GroupCanonical(s[0], s[1], s[2], 0);
      LastCanonical(s[0], s[1], s[2]);
    }
  }

  lemma {:induction false} SextetsCanonical(s: seq<Sextet>)
    requires FromSextets(s).Some?
    ensures ToSextets(FromSextets(s).value) == s
  {
    if |s| < 4 {
      ShortCanonical(s);
    } else {
      SextetsCanonical(s[4..]);
      LongCanonical(s[0], s[1], s[2], s[3], FromSextets(s[4..]).value);
      assert s == [s[0], s[1], s[2], s[3]] + s[4..];
    }
  }

  /** Three bytes and their four sextets are the same 24 bits, first ones highest; then come those of the rest. */
  lemma GroupBits(b: Bytes)
    requires |b| >= 3
    ensures var s := ToSextets(b);
            && |s| >= 4 && s[4..] == ToSextets(b[3..])
            && s[0] as int * 0x4_0000 + s[1] as int * 0x1000 + s[2] as int * 0x40 + s[3] as int
               == b[0] as int * 0x1_0000 + b[1] as int * 0x100 + b[2] as int
  {
    BitsOf(b[0], b[1], b[2]);
  }

  lemma BitsOf(x: int, y: int, z: int)
    requires 0 <= x < 256 && 0 <= y < 256 && 0 <= z < 256
    ensures (x / 4) * 0x4_0000 + (x % 4 * 16 + y / 16) * 0x1000 + (y % 16 * 4 + z / 64) * 0x40 + z % 64
            == x * 0x1_0000 + y * 0x100 + z
  {
  }

  /** One or two last bytes are filled up with zero bits. */
  lemma LastBits(b: Bytes)
    requires 1 <= |b| <= 2
    ensures var s := ToSextets(b);
            if |b| == 1 then |s| == 2 && s[0] as int * 0x40 + s[1] as int == b[0] as int * 0x10
            else |s| == 3 && s[0] as int * 0x1000 + s[1] as int * 0x40 + s[2] as int == (b[0] as int * 0x100 + b[1] as int) * 4
  {
    BitsOf(b[0], if |b| == 1 then 0 else b[1], 0);
  }

  // ---- Alphabets ----

  function CharOf(a: Alphabet, s: Sextet): char {
    if s < 26 then 'A' + s as char
    else if s < 52 then 'a' + (s - 26) as char
    else if s < 62 then '0' + (s - 52) as char
    else if s == 62 then (if a.Standard? then '+' else '-')
    else (if a.Standard? then '/' else '_')
  }

  /** The alphabets of RFC 4648: A to Z, a to z, 0 to 9, each in order, and two more. */
  lemma AlphabetOrder(a: Alphabet, s: Sextet)
    ensures CharOf(a, 0) == 'A' && CharOf(a, 25) == 'Z' && CharOf(a, 26) == 'a' && CharOf(a, 51) == 'z'
    ensures CharOf(a, 52) == '0' && CharOf(a, 61) == '9'
    ensures s < 61 && s != 25 && s != 51 ==> CharOf(a, s + 1) as int == CharOf(a, s) as int + 1
    ensures CharOf(Standard, 62) == '+' && CharOf(Standard, 63) == '/'
    ensures CharOf(UrlSafe, 62) == '-' && CharOf(UrlSafe, 63) == '_'
  {
  }

  function SextetOf(a: Alphabet, c: char): (r: Option<Sextet>)
    ensures r.Some? ==> CharOf(a, r.value) == c
  {
    if 'A' <= c <= 'Z' then Some((c - 'A') as int)
    else if 'a' <= c <= 'z' then Some((c - 'a') as int + 26)
    else if '0' <= c <= '9' then Some((c - '0') as int + 52)
    else if c == CharOf(a, 62) then Some(62)
    else if c == CharOf(a, 63) then Some(63)
    else None
  }

  lemma CharRoundTrip(a: Alphabet, s: Sextet)
    ensures SextetOf(a, CharOf(a, s)) == Some(s)
    ensures CharOf(a, s) != '=' && CharOf(a, s) != '.'
  {
  }

  function Chars(a: Alphabet, s: seq<Sextet>): (t: string)
    ensures |t| == |s| && forall i :: 0 <= i < |s| ==> t[i] == CharOf(a, s[i])
  {
    seq(|s|, i requires 0 <= i < |s| => CharOf(a, s[i]))
  }

  predicate InAlphabet(a: Alphabet, t: string) {
    forall i :: 0 <= i < |t| ==> SextetOf(a, t[i]).Some?
  }

  function Sextets(a: Alphabet, t: string): (s: seq<Sextet>)
    requires InAlphabet(a, t)
    ensures Chars(a, s) == t
  {
    seq(|t|, i requires 0 <= i < |t| => SextetOf(a, t[i]).value)
  }

  lemma CharsRoundTrip(a: Alphabet, s: seq<Sextet>)
    ensures InAlphabet(a, Chars(a, s)) && Sextets(a, Chars(a, s)) == s
    ensures '=' !in Chars(a, s) && '.' !in Chars(a, s)
  {
    forall i | 0 <= i < |s|
      ensures SextetOf(a, Chars(a, s)[i]) == Some(s[i]) && Chars(a, s)[i] != '=' && Chars(a, s)[i] != '.'
    {
      CharRoundTrip(a, s[i]);
    }
  }

  // ---- The engines ----

  function Encode(a: Alphabet, b: Bytes): string {
    Chars(a, ToSextets(b))
  }

  function Decode(a: Alphabet, t: string): Option<Bytes> {
    if InAlphabet(a, t) then FromSextets(Sextets(a, t)) else None
  }

  function Padding(n: nat): string {
    if n % 4 == 2 then "==" else if n % 4 == 3 then "=" else ""
  }

  function EncodePadded(a: Alphabet, b: Bytes): string {
    var t := Encode(a, b);
    t + Padding(|t|)
  }

  /** The text before its padding, of which at most two characters count. */
  function Unpad(t: string): string {
    var n := |t|;
    if n >= 2 && t[n - 1] == '=' && t[n - 2] == '=' then t[..n - 2]
    else if n >= 1 && t[n - 1] == '=' then t[..n - 1]
    else t
  }

  function DecodePadded(a: Alphabet, t: string): Option<Bytes> {
    if |t| % 4 == 0 then Decode(a, Unpad(t)) else None
  }

  lemma {:induction false} RoundTrip(a: Alphabet, b: Bytes)
    ensures Decode(a, Encode(a, b)) == Some(b)
  {
    SextetsRoundTrip(b);
    CharsRoundTrip(a, ToSextets(b));
  }

  /** An encoding holds no separator and no padding, and its length is one that decodes. */
  lemma {:induction false} EncodedText(a: Alphabet, b: Bytes)
    ensures '.' !in Encode(a, b) && '=' !in Encode(a, b)
    ensures |Encode(a, b)| % 4 != 1
  {
    SextetCount(b);
    CharsRoundTrip(a, ToSextets(b));
  }

  /** Strictness: only the encoding itself decodes to its bytes. */
  lemma {:induction false} Canonical(a: Alphabet, t: string)
    requires Decode(a, t).Some?
    ensures Encode(a, Decode(a, t).value) == t
  {
    SextetsCanonical(Sextets(a, t));
  }

  lemma UnpadUndoesPadding(t: string)
    requires '=' !in t && |t| % 4 != 1
    ensures Unpad(t + Padding(|t|)) == t && |t + Padding(|t|)| % 4 == 0
  {
    assert (t + Padding(|t|))[..|t|] == t;
    assert |t| > 0 ==> t[|t| - 1] in t;
  }

  lemma PaddingUndoesUnpad(t: string)
    requires |t| % 4 == 0
    ensures t == Unpad(t) + Padding(|Unpad(t)|)
  {
  }

  lemma UnpadPadded(a: Alphabet, b: Bytes)
    ensures Unpad(EncodePadded(a, b)) == Encode(a, b) && |EncodePadded(a, b)| % 4 == 0
  {
    EncodedText(a, b);
    UnpadUndoesPadding(Encode(a, b));
  }

  lemma PaddedRoundTrip(a: Alphabet, b: Bytes)
    ensures DecodePadded(a, EncodePadded(a, b)) == Some(b)
  {
    RoundTrip(a, b);
    UnpadPadded(a, b);
  }

  lemma {:induction false} PaddedCanonical(a: Alphabet, t: string)
    requires DecodePadded(a, t).Some?
    ensures EncodePadded(a, DecodePadded(a, t).value) == t
  {
    Canonical(a, Unpad(t));
    PaddingUndoesUnpad(t);
  }
}
