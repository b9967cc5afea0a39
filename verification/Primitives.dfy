/**
 * The primitives the codecs call and do not define: AES-GCM, AES key wrap,
 * SHA-256, UTF-8 and JSON, as functions with the laws the codecs rely on.
 */
module Primitives {
  import opened Common

  /** A JWE protected header; `kid` is left out when empty. */
  datatype Header = Header(alg: string, enc: string, kid: Option<string>)

  /** A JSON value, seen only as far as this model needs: a string or something else. */
  datatype Value = Str(s: string) | Other(text: string)

  predicate Ascii(s: string) {
    forall i :: 0 <= i < |s| ==> s[i] < 128 as char
  }

  function Codes(s: string): Bytes
    requires Ascii(s)
  {
    seq(|s|, i requires 0 <= i < |s| => s[i] as int)
  }

  datatype Suite = Suite(
    seal: (Bytes, Bytes, string, Bytes) -> Bytes,              // key, nonce, associated data, message
    unseal: (Bytes, Bytes, string, Bytes) -> Option<Bytes>,
    wrap: (Bytes, Bytes) -> Bytes,                             // wrapping key, key
    unwrap: (Bytes, Bytes) -> Option<Bytes>,
    sha256: Bytes -> Bytes,
    printHeader: Header -> Bytes,
    parseHeader: Bytes -> Option<Header>,
    utf8: string -> Bytes,
    fromUtf8: Bytes -> Option<string>,
    printJson: Value -> Bytes,
    parseJson: Bytes -> Option<Value>
  )

  ghost predicate Laws(p: Suite) {
    && (forall k, n, a, m {:trigger p.seal(k, n, a, m)} ::
          |k| == 32 && |n| == 12 ==> |p.seal(k, n, a, m)| == |m| + 16 && p.unseal(k, n, a, p.seal(k, n, a, m)) == Some(m))
    && (forall k, c {:trigger p.wrap(k, c)} ::
          |k| == 32 && |c| == 32 ==> |p.wrap(k, c)| == |c| + 8 && p.unwrap(k, p.wrap(k, c)) == Some(c))
    && (forall x {:trigger p.sha256(x)} :: |p.sha256(x)| == 32)
    && (forall h {:trigger p.printHeader(h)} :: p.parseHeader(p.printHeader(h)) == Some(h))
    && (forall s {:trigger p.utf8(s)} :: p.fromUtf8(p.utf8(s)) == Some(s))
    && (forall s {:trigger p.utf8(s)} :: Ascii(s) ==> p.utf8(s) == Codes(s))
    && (forall b {:trigger p.fromUtf8(b)} :: p.fromUtf8(b).Some? ==> |p.fromUtf8(b).value| <= |b|)
    && (forall v {:trigger p.printJson(v)} :: p.parseJson(p.printJson(v)) == Some(v))
  }
}
