/** The Concat KDF of rust/src/jwe.rs (section 4.6.2 of RFC 7518). */
module ConcatKdf {
  import opened Common

  const HASH_LEN: nat := 32
  const TWO32: nat := 0x1_0000_0000

  /** `u32::to_be_bytes`. */
  function Be32(n: nat): (r: Bytes)
    requires n < TWO32
    ensures |r| == 4
  {
    [n / 256 / 256 / 256, n / 256 / 256 % 256, n / 256 % 256, n % 256]
  }

  lemma Be32Injective(m: nat, n: nat)
    requires m < TWO32 && n < TWO32 && Be32(m) == Be32(n)
    ensures m == n
  {
    assert Be32(m)[0] == Be32(n)[0] && Be32(m)[1] == Be32(n)[1];
    assert m / 256 / 256 == n / 256 / 256;
    assert Be32(m)[2] == Be32(n)[2] && Be32(m)[3] == Be32(n)[3];
    assert m / 256 == n / 256;
  }

  /** A length-prefixed field; the length is cast to 32 bits. */
  function Field(x: Bytes): Bytes {
    Be32(|x| % TWO32) + x
  }

  /** What is hashed for one counter: counter, secret, algorithm, apu, apv, key length. */
  function Block(counter: nat, secret: Bytes, alg: Bytes, apu: Bytes, apv: Bytes, bits: nat): Bytes
    requires counter < TWO32 && bits < TWO32
  {
    Be32(counter) + (secret + (Field(alg) + (Field(apu) + (Field(apv) + Be32(bits)))))
  }

  lemma SameHead(a: Bytes, r: Bytes, b: Bytes, s: Bytes)
    requires |a| == |b| && a + r == b + s
    ensures a == b && r == s
  {
    assert (a + r)[..|a|] == a && (b + s)[..|b|] == b;
    assert (a + r)[|a|..] == r && (b + s)[|b|..] == s;
  }

  lemma Reassociate(x: Bytes, y: Bytes, z: Bytes)
    ensures (x + y) + z == x + (y + z)
  {
  }

  lemma FieldInjective(a: Bytes, r: Bytes, b: Bytes, s: Bytes)
    requires |a| < TWO32 && |b| < TWO32 && Field(a) + r == Field(b) + s
    ensures a == b && r == s
  {
    var m, n := Be32(|a| % TWO32), Be32(|b| % TWO32);
    Reassociate(m, a, r);
    Reassociate(n, b, s);
    SameHead(m, a + r, n, b + s);
    Be32Injective(|a| % TWO32, |b| % TWO32);
    SameHead(a, r, b, s);
  }

  /** The hash input determines everything that went into it. */
  lemma BlockInjective(c: nat, z: Bytes, alg: Bytes, apu: Bytes, apv: Bytes, bits: nat,
                       c': nat, z': Bytes, alg': Bytes, apu': Bytes, apv': Bytes, bits': nat)
    requires c < TWO32 && bits < TWO32 && c' < TWO32 && bits' < TWO32 && |z| == |z'| == 32
    requires |alg| < TWO32 && |apu| < TWO32 && |apv| < TWO32
    requires |alg'| < TWO32 && |apu'| < TWO32 && |apv'| < TWO32
    requires Block(c, z, alg, apu, apv, bits) == Block(c', z', alg', apu', apv', bits')
    ensures c == c' && z == z' && alg == alg' && apu == apu' && apv == apv' && bits == bits'
  {
    var v, v' := Field(apv) + Be32(bits), Field(apv') + Be32(bits');
    var u, u' := Field(apu) + v, Field(apu') + v';
    var a, a' := Field(alg) + u, Field(alg') + u';
    SameHead(Be32(c), z + a, Be32(c'), z' + a');
    Be32Injective(c, c');
    SameHead(z, a, z', a');
    FieldInjective(alg, u, alg', u');
    FieldInjective(apu, v, apu', v');
    FieldInjective(apv, Be32(bits), apv', Be32(bits'));
    Be32Injective(bits, bits');
  }

  /** What four bytes say, the first one counting most. */
  function BigEndian(x: Bytes): nat
    requires |x| == 4
  {
    x[0] as int * 0x100_0000 + x[1] as int * 0x1_0000 + x[2] as int * 0x100 + x[3] as int
  }

  lemma Be32Value(n: nat)
    requires n < TWO32
    ensures BigEndian(Be32(n)) == n
  {
    var p := n / 256;
    var q := p / 256;
    assert n == p * 256 + n % 256 && p == q * 256 + p % 256 && q == q / 256 * 256 + q % 256;
  }

  /** A field at `i` of `b`: four bytes of big-endian length, then its bytes. */
  ghost predicate HasField(b: Bytes, i: nat, x: Bytes) {
    i + 4 + |x| <= |b| && BigEndian(b[i..i + 4]) == |x| % 0x1_0000_0000 && b[i + 4..i + 4 + |x|] == x
  }

  lemma FieldAt(head: Bytes, x: Bytes, tail: Bytes)
    ensures HasField(head + (Field(x) + tail), |head|, x)
    ensures (head + (Field(x) + tail))[|head| + 4 + |x|..] == tail
  {
    var b, n := head + (Field(x) + tail), |x| % TWO32;
    Be32Value(n);
    assert b[|head|..|head| + 4] == Be32(n);
    assert b[|head| + 4..|head| + 4 + |x|] == x;
  }

  /** A field of a tail is a field of the whole. */
  lemma FieldOfTail(b: Bytes, j: nat, tail: Bytes, i: nat, x: Bytes)
    requires j <= |b| && b[j..] == tail && HasField(tail, i, x)
    ensures HasField(b, j + i, x)
    ensures b[j + i + 4 + |x|..] == tail[i + 4 + |x|..]
  {
    assert b[j + i..j + i + 4] == tail[i..i + 4];
    assert b[j + i + 4..j + i + 4 + |x|] == tail[i + 4..i + 4 + |x|];
  }

  lemma NextField(b: Bytes, j: nat, x: Bytes, tail: Bytes)
    requires j <= |b| && b[j..] == Field(x) + tail
    ensures HasField(b, j, x) && b[j + 4 + |x|..] == tail
  {
    FieldAt([], x, tail);
    assert [] + (Field(x) + tail) == Field(x) + tail;
    FieldOfTail(b, j, Field(x) + tail, 0, x);
  }

  /** Three fields in a row, and what comes after them. */
  lemma FieldsInRow(b: Bytes, i: nat, x: Bytes, y: Bytes, w: Bytes, tail: Bytes)
    requires i <= |b| && b[i..] == Field(x) + (Field(y) + (Field(w) + tail))
    ensures var j := i + 4 + |x|;
            var k := j + 4 + |y|;
            HasField(b, i, x) && HasField(b, j, y) && HasField(b, k, w) && b[k + 4 + |w|..] == tail
  {
    NextField(b, i, x, Field(y) + (Field(w) + tail));
    NextField(b, i + 4 + |x|, y, Field(w) + tail);
    NextField(b, i + 4 + |x| + 4 + |y|, w, tail);
  }

  /**
   * The hashed block, byte by byte: big-endian counter, secret, then algorithm, apu and
   * apv, each after its big-endian length, then the big-endian key length, and no more.
   */
  lemma BlockLayout(counter: nat, secret: Bytes, alg: Bytes, apu: Bytes, apv: Bytes, bits: nat)
    requires counter < TWO32 && bits < TWO32
    ensures var b := Block(counter, secret, alg, apu, apv, bits);
            var i := 4 + |secret|;
            var j := i + 4 + |alg|;
            var k := j + 4 + |apu|;
            var l := k + 4 + |apv|;
            && |b| == l + 4
            && BigEndian(b[..4]) == counter && b[4..i] == secret
            && HasField(b, i, alg) && HasField(b, j, apu) && HasField(b, k, apv)
            && BigEndian(b[l..]) == bits
  {
    var fields := Field(alg) + (Field(apu) + (Field(apv) + Be32(bits)));
    BlockHead(counter, secret, fields);
    FieldsInRow(Be32(counter) + (secret + fields), 4 + |secret|, alg, apu, apv, Be32(bits));
    Be32Value(bits);
  }

  lemma BlockHead(counter: nat, secret: Bytes, rest: Bytes)
    requires counter < TWO32
    ensures var b := Be32(counter) + (secret + rest); var i := 4 + |secret|;
            BigEndian(b[..4]) == counter && b[4..i] == secret && b[i..] == rest
  {
    Be32Value(counter);
    assert (Be32(counter) + (secret + rest))[..4] == Be32(counter);
  }

  /** The derived key: as long as asked for, byte j from hash number j / 32 + 1. */
  method Derive(sha256: Bytes -> Bytes, secret: Bytes, alg: Bytes, apu: Bytes, apv: Bytes, bits: nat)
    returns (derived: Bytes)
    requires bits < TWO32
    requires forall x {:trigger sha256(x)} :: |sha256(x)| == HASH_LEN
    ensures |derived| == bits / 8
    ensures forall j :: 0 <= j < |derived| ==>
              derived[j] == sha256(Block(j / HASH_LEN + 1, secret, alg, apu, apv, bits))[j % HASH_LEN]
  {
    var keyLen := bits / 8;
    var reps := (keyLen + HASH_LEN - 1) / HASH_LEN;
    derived := [];
    for i := 0 to reps
      invariant |derived| == i * HASH_LEN
      invariant forall j :: 0 <= j < |derived| ==>
                  derived[j] == sha256(Block(j / HASH_LEN + 1, secret, alg, apu, apv, bits))[j % HASH_LEN]
    {
      var hash := sha256(Block(i + 1, secret, alg, apu, apv, bits));
      derived := derived + hash;
    }
    derived := derived[..keyLen];
  }
}
