/** JWE compact serialisation and the symmetric algorithms of rust/src/jwe.rs. */
module Jwe {
  import opened Common
  import opened Base64
  import opened Text
  import opened Primitives

  datatype JweError =
    | WrongParts
    | BadBase64
    | BadHeader
    | UnsupportedAlgorithm
    | UnwrapFailed
    | BadKeyLength
    | OpenFailed

  /** A Rust call: a value, an error, or a panic (an out-of-range length). */
  datatype Run<+T> = Done(value: T) | Failed(error: JweError) | Panicked

  datatype Parts = Parts(header: Bytes, encryptedKey: Bytes, iv: Bytes, ciphertext: Bytes, tag: Bytes)

  function Url(b: Bytes): string {
    Encode(UrlSafe, b)
  }

  function UnUrl(t: string): Option<Bytes> {
    Decode(UrlSafe, t)
  }

  /** header.encrypted_key.iv.ciphertext.tag */
  function Print(p: Parts): string {
    Join([Url(p.header), Url(p.encryptedKey), Url(p.iv), Url(p.ciphertext), Url(p.tag)], '.')
  }

  function Parse(token: string): Run<Parts> {
    var ps := Split(token, '.');
    if |ps| != 5 then Failed(WrongParts)
    else
      var (h, k, i, c, t) := (UnUrl(ps[0]), UnUrl(ps[1]), UnUrl(ps[2]), UnUrl(ps[3]), UnUrl(ps[4]));
      if h.None? || k.None? || i.None? || c.None? || t.None? then Failed(BadBase64)
      else Done(Parts(h.value, k.value, i.value, c.value, t.value))
  }

  lemma {:induction false} ParsePrint(p: Parts)
    ensures Parse(Print(p)) == Done(p)
    ensures Count(Print(p), '.') == 4
  {
    SplitPrint(p);
    UrlRoundTrip(p.header);
    UrlRoundTrip(p.encryptedKey);
    UrlRoundTrip(p.iv);
    UrlRoundTrip(p.ciphertext);
    UrlRoundTrip(p.tag);
    PartsAndDots(Print(p), '.');
  }

  lemma {:induction false} SplitPrint(p: Parts)
    ensures Split(Print(p), '.') == [Url(p.header), Url(p.encryptedKey), Url(p.iv), Url(p.ciphertext), Url(p.tag)]
  {
    var ps := [Url(p.header), Url(p.encryptedKey), Url(p.iv), Url(p.ciphertext), Url(p.tag)];
    UrlRoundTrip(p.header);
    UrlRoundTrip(p.encryptedKey);
    UrlRoundTrip(p.iv);
    UrlRoundTrip(p.ciphertext);
    UrlRoundTrip(p.tag);
    SplitJoin(ps, '.');
  }

  lemma {:induction false} UrlRoundTrip(b: Bytes)
    ensures UnUrl(Url(b)) == Some(b) && '.' !in Url(b)
  {
    RoundTrip(UrlSafe, b);
    EncodedText(UrlSafe, b);
  }

  /** A token that parses is split into the encodings of its parts. */
  ghost predicate SplitInto(ps: seq<string>, p: Parts) {
    && |ps| == 5 && Url(p.header) == ps[0] && Url(p.encryptedKey) == ps[1]
    && Url(p.iv) == ps[2] && Url(p.ciphertext) == ps[3] && Url(p.tag) == ps[4]
  }

  lemma {:induction false} ParsedPieces(token: string)
    requires Parse(token).Done?
    ensures SplitInto(Split(token, '.'), Parse(token).value)
  {
    var ps, p := Split(token, '.'), Parse(token).value;
    UrlCanonical(ps[0], p.header);
    UrlCanonical(ps[1], p.encryptedKey);
    UrlCanonical(ps[2], p.iv);
    UrlCanonical(ps[3], p.ciphertext);
    UrlCanonical(ps[4], p.tag);
  }

  lemma {:induction false} PiecesPrint(ps: seq<string>, p: Parts)
    requires SplitInto(ps, p)
    ensures Print(p) == Join(ps, '.')
  {
    assert [Url(p.header), Url(p.encryptedKey), Url(p.iv), Url(p.ciphertext), Url(p.tag)] == ps;
  }

  /** Parsing loses nothing: a token that parses is the print of its parts. */
  lemma {:induction false} PrintParse(token: string)
    requires Parse(token).Done?
    ensures Print(Parse(token).value) == token
  {
    ParsedPieces(token);
    PiecesPrint(Split(token, '.'), Parse(token).value);
    JoinSplit(token, '.');
  }

  lemma {:induction false} UrlCanonical(t: string, b: Bytes)
    requires UnUrl(t) == Some(b)
    ensures Url(b) == t
  {
    Canonical(UrlSafe, t);
  }

  // ---- Decryption ----

  /** `decrypt_a256gcm`; a nonce that is not 12 bytes long panics. */
  function DecryptGcm(p: Suite, cek: Bytes, iv: Bytes, ciphertext: Bytes, tag: Bytes, aad: string): Run<Bytes> {
    if |cek| != 32 then Failed(BadKeyLength)
    else if |iv| != 12 then Panicked
    else
      var m := p.unseal(cek, iv, aad, ciphertext + tag);
      if m.None? then Failed(OpenFailed) else Done(m.value)
  }

  /** The algorithm dispatch; `encrypted_key.len() - 8` panics below 8. */
  function DecryptParts(p: Suite, parts: Parts, aad: string, key: Bytes): Run<Bytes> {
    var h := p.parseHeader(parts.header);
    if h.None? then Failed(BadHeader)
    else if h.value.alg == "dir" then DecryptGcm(p, key, parts.iv, parts.ciphertext, parts.tag, aad)
    else if h.value.alg == "A256KW" then
      if |parts.encryptedKey| < 8 then Panicked
      else
        var cek := p.unwrap(key, parts.encryptedKey);
        if cek.None? then Failed(UnwrapFailed)
        else DecryptGcm(p, cek.value, parts.iv, parts.ciphertext, parts.tag, aad)
    else Failed(UnsupportedAlgorithm)
  }

  /** `decrypt_message_jwe`; the associated data is the header as it stands in the token. */
  function DecryptMessage(p: Suite, token: string, key: Bytes): Run<Bytes> {
    var r := Parse(token);
    if r.Failed? then Failed(r.error)
    else if r.Panicked? then Panicked
    else DecryptParts(p, r.value, Split(token, '.')[0], key)
  }

  /** `unwrap_kms_response` with a symmetric key: a JWE, or the payload of a JWS. */
  function UnwrapResponse(p: Suite, token: string, key: Bytes): Run<Bytes> {
    var dots := Count(token, '.');
    if dots == 4 then DecryptMessage(p, token, key)
    else if dots == 2 then
      PartsAndDots(token, '.');
      var payload := UnUrl(Split(token, '.')[1]);
      if payload.None? then Failed(BadBase64) else Done(payload.value)
    else Failed(WrongParts)
  }

  // ---- Encryption; the random IV and content key are parameters ----

  /** Seal under `cek` and lay out the token; the last 16 bytes of the sealed text are the tag. */
  function Compact(p: Suite, header: Bytes, encryptedKey: Bytes, plaintext: Bytes, cek: Bytes, iv: Bytes): Parts
    requires Laws(p) && |cek| == 32 && |iv| == 12
  {
    var sealed := p.seal(cek, iv, Url(header), plaintext);
    Parts(header, encryptedKey, iv, sealed[..|sealed| - 16], sealed[|sealed| - 16..])
  }

  function EncryptDir(p: Suite, plaintext: Bytes, cek: Bytes, kid: string, iv: Bytes): string
    requires Laws(p) && |cek| == 32 && |iv| == 12
  {
    var header := p.printHeader(Header("dir", "A256GCM", if kid == "" then None else Some(kid)));
    Print(Compact(p, header, [], plaintext, cek, iv))
  }

  function EncryptKw(p: Suite, plaintext: Bytes, wrappingKey: Bytes, cek: Bytes, iv: Bytes): string
    requires Laws(p) && |wrappingKey| == 32 && |cek| == 32 && |iv| == 12
  {
    var header := p.printHeader(Header("A256KW", "A256GCM", None));
    Print(Compact(p, header, p.wrap(wrappingKey, cek), plaintext, cek, iv))
  }

  /** Decrypting a printed token is decrypting its parts. */
  lemma {:induction false} DecryptPrinted(p: Suite, parts: Parts, key: Bytes)
    ensures DecryptMessage(p, Print(parts), key) == DecryptParts(p, parts, Url(parts.header), key)
    ensures UnwrapResponse(p, Print(parts), key) == DecryptMessage(p, Print(parts), key)
  {
    ParsePrint(parts);
    SplitPrint(parts);
  }

  lemma SealLaw(p: Suite, k: Bytes, n: Bytes, a: string, m: Bytes)
    requires Laws(p) && |k| == 32 && |n| == 12
    ensures |p.seal(k, n, a, m)| == |m| + 16 && p.unseal(k, n, a, p.seal(k, n, a, m)) == Some(m)
  {
  }

  /** Splitting off the tag and joining it again is the identity, so sealing is undone. */
  lemma CompactOpens(p: Suite, header: Bytes, encryptedKey: Bytes, plaintext: Bytes, cek: Bytes, iv: Bytes)
    requires Laws(p) && |cek| == 32 && |iv| == 12
    ensures var c := Compact(p, header, encryptedKey, plaintext, cek, iv);
            && DecryptGcm(p, cek, iv, c.ciphertext, c.tag, Url(header)) == Done(plaintext)
            && |c.tag| == 16 && |c.ciphertext| == |plaintext|
  {
    SealLaw(p, cek, iv, Url(header), plaintext);
    var c := Compact(p, header, encryptedKey, plaintext, cek, iv);
    assert c.ciphertext + c.tag == p.seal(cek, iv, Url(header), plaintext);
  }

  lemma DirParts(p: Suite, h: Header, plaintext: Bytes, cek: Bytes, iv: Bytes)
    requires Laws(p) && |cek| == 32 && |iv| == 12 && h.alg == "dir"
    ensures var c := Compact(p, p.printHeader(h), [], plaintext, cek, iv);
            DecryptParts(p, c, Url(c.header), cek) == Done(plaintext)
  {
    CompactOpens(p, p.printHeader(h), [], plaintext, cek, iv);
    assert p.parseHeader(p.printHeader(h)) == Some(h);
  }

  lemma KwParts(p: Suite, h: Header, plaintext: Bytes, wrappingKey: Bytes, cek: Bytes, iv: Bytes)
    requires Laws(p) && |wrappingKey| == 32 && |cek| == 32 && |iv| == 12 && h.alg == "A256KW"
    ensures var c := Compact(p, p.printHeader(h), p.wrap(wrappingKey, cek), plaintext, cek, iv);
            DecryptParts(p, c, Url(c.header), wrappingKey) == Done(plaintext)
  {
    var wrapped := p.wrap(wrappingKey, cek);
    CompactOpens(p, p.printHeader(h), wrapped, plaintext, cek, iv);
    assert p.parseHeader(p.printHeader(h)) == Some(h);
    assert |wrapped| == 40 && p.unwrap(wrappingKey, wrapped) == Some(cek);
  }

  /** What a direct token says of itself: its header, no encrypted key, the IV and a 16-byte tag. */
  lemma DirToken(p: Suite, plaintext: Bytes, cek: Bytes, kid: string, iv: Bytes)
    requires Laws(p) && |cek| == 32 && |iv| == 12
    ensures exists parts ::
              && EncryptDir(p, plaintext, cek, kid, iv) == Print(parts)
              && p.parseHeader(parts.header) == Some(Header("dir", "A256GCM", if kid == "" then None else Some(kid)))
              && parts.encryptedKey == [] && parts.iv == iv && |parts.tag| == 16
              && parts.ciphertext + parts.tag == p.seal(cek, iv, Encode(UrlSafe, parts.header), plaintext)
  {
    var h := Header("dir", "A256GCM", if kid == "" then None else Some(kid));
    assert p.parseHeader(p.printHeader(h)) == Some(h);
    CompactOpens(p, p.printHeader(h), [], plaintext, cek, iv);
    var c := Compact(p, p.printHeader(h), [], plaintext, cek, iv);
    assert EncryptDir(p, plaintext, cek, kid, iv) == Print(c);
  }

  /** And a key-wrapped one: its encrypted key is the content key wrapped. */
  lemma KwToken(p: Suite, plaintext: Bytes, wrappingKey: Bytes, cek: Bytes, iv: Bytes)
    requires Laws(p) && |wrappingKey| == 32 && |cek| == 32 && |iv| == 12
    ensures exists parts ::
              && EncryptKw(p, plaintext, wrappingKey, cek, iv) == Print(parts)
              && p.parseHeader(parts.header) == Some(Header("A256KW", "A256GCM", None))
              && parts.encryptedKey == p.wrap(wrappingKey, cek) && parts.iv == iv && |parts.tag| == 16
              && parts.ciphertext + parts.tag == p.seal(cek, iv, Encode(UrlSafe, parts.header), plaintext)
  {
    var h := Header("A256KW", "A256GCM", None);
    assert p.parseHeader(p.printHeader(h)) == Some(h);
    CompactOpens(p, p.printHeader(h), p.wrap(wrappingKey, cek), plaintext, cek, iv);
    var c := Compact(p, p.printHeader(h), p.wrap(wrappingKey, cek), plaintext, cek, iv);
    assert EncryptKw(p, plaintext, wrappingKey, cek, iv) == Print(c);
  }

  /** Direct encryption round-trips, for every plaintext, key, kid and IV. */
  lemma {:induction false} DirRoundTrip(p: Suite, plaintext: Bytes, cek: Bytes, kid: string, iv: Bytes)
    requires Laws(p) && |cek| == 32 && |iv| == 12
    ensures DecryptMessage(p, EncryptDir(p, plaintext, cek, kid, iv), cek) == Done(plaintext)
    ensures UnwrapResponse(p, EncryptDir(p, plaintext, cek, kid, iv), cek) == Done(plaintext)
  {
    var h := Header("dir", "A256GCM", if kid == "" then None else Some(kid));
    var c := Compact(p, p.printHeader(h), [], plaintext, cek, iv);
    DirParts(p, h, plaintext, cek, iv);
    DecryptPrinted(p, c, cek);
  }

  /** Key-wrapped encryption round-trips, for every plaintext, wrapping key, content key and IV. */
  lemma {:induction false} KwRoundTrip(p: Suite, plaintext: Bytes, wrappingKey: Bytes, cek: Bytes, iv: Bytes)
    requires Laws(p) && |wrappingKey| == 32 && |cek| == 32 && |iv| == 12
    ensures DecryptMessage(p, EncryptKw(p, plaintext, wrappingKey, cek, iv), wrappingKey) == Done(plaintext)
    ensures UnwrapResponse(p, EncryptKw(p, plaintext, wrappingKey, cek, iv), wrappingKey) == Done(plaintext)
  {
    var h := Header("A256KW", "A256GCM", None);
    var c := Compact(p, p.printHeader(h), p.wrap(wrappingKey, cek), plaintext, cek, iv);
    KwParts(p, h, plaintext, wrappingKey, cek, iv);
    DecryptPrinted(p, c, wrappingKey);
  }

  // ---- Exactly what decryption gives ----

  /** The suite itself says that these parts hold `m` under this key, bound to the header's own text. */
  ghost predicate Unseals(p: Suite, parts: Parts, key: Bytes, m: Bytes) {
    var h := p.parseHeader(parts.header);
    && h.Some? && |parts.iv| == 12
    && exists cek: Bytes ::
         && |cek| == 32
         && ((h.value.alg == "dir" && cek == key)
             || (h.value.alg == "A256KW" && |parts.encryptedKey| >= 8 && p.unwrap(key, parts.encryptedKey) == Some(cek)))
         && p.unseal(cek, parts.iv, Encode(UrlSafe, parts.header), parts.ciphertext + parts.tag) == Some(m)
  }

  /** Decryption gives `m` exactly if the token is the print of parts that the suite opens to `m`. */
  lemma {:induction false} DecryptsIff(p: Suite, token: string, key: Bytes, m: Bytes)
    ensures DecryptMessage(p, token, key) == Done(m) <==>
              exists parts :: token == Print(parts) && Unseals(p, parts, key, m)
  {
    if Parse(token).Done? {
      PrintParse(token);
    }
    forall parts | token == Print(parts)
      ensures DecryptMessage(p, token, key) == Done(m) <==> Unseals(p, parts, key, m)
    {
      DecryptPrinted(p, parts, key);
      PartsDecryptIff(p, parts, key, m);
    }
  }

  lemma PartsDecryptIff(p: Suite, parts: Parts, key: Bytes, m: Bytes)
    ensures DecryptParts(p, parts, Url(parts.header), key) == Done(m) <==> Unseals(p, parts, key, m)
  {
    var h := p.parseHeader(parts.header);
    if h.Some? && h.value.alg == "A256KW" {
      var cek := p.unwrap(key, parts.encryptedKey);
      assert Unseals(p, parts, key, m) ==> cek.Some? && |cek.value| == 32;
    }
  }

  lemma {:induction false} ParsesIff(token: string)
    ensures Parse(token).Done? <==> exists parts :: token == Print(parts)
  {
    if Parse(token).Done? {
      PrintParse(token);
    }
    forall parts | token == Print(parts)
      ensures Parse(token) == Done(parts)
    {
      ParsePrint(parts);
    }
  }

  lemma {:induction false} ParseErrors(token: string)
    ensures !Parse(token).Panicked?
    ensures Parse(token) == Failed(WrongParts) <==> Count(token, '.') != 4
    ensures Parse(token).Failed? && Count(token, '.') == 4 ==> Parse(token) == Failed(BadBase64)
  {
    PartsAndDots(token, '.');
  }

  lemma PartsErrors(p: Suite, parts: Parts, aad: string, key: Bytes)
    ensures DecryptParts(p, parts, aad, key) != Failed(WrongParts) && DecryptParts(p, parts, aad, key) != Failed(BadBase64)
  {
  }

  /** A token without four dots has the wrong number of parts; one with four but no print has bad base64. */
  lemma {:induction false} MalformedIff(p: Suite, token: string, key: Bytes)
    ensures DecryptMessage(p, token, key) == Failed(WrongParts) <==> Count(token, '.') != 4
    ensures DecryptMessage(p, token, key) == Failed(BadBase64) <==>
              Count(token, '.') == 4 && !exists parts :: token == Print(parts)
  {
    ParsesIff(token);
    ParseErrors(token);
    if Parse(token).Done? {
      PartsErrors(p, Parse(token).value, Split(token, '.')[0], key);
    }
  }

  /** The other errors, each exactly where it arises. */
  lemma {:induction false} PrintedErrors(p: Suite, parts: Parts, key: Bytes)
    requires |key| == 32
    ensures var (r, h, cek) := (DecryptMessage(p, Print(parts), key), p.parseHeader(parts.header), p.unwrap(key, parts.encryptedKey));
            && (r == Failed(BadHeader) <==> h.None?)
            && (r == Failed(UnsupportedAlgorithm) <==> h.Some? && h.value.alg != "dir" && h.value.alg != "A256KW")
            && (r == Failed(UnwrapFailed) <==>
                  h.Some? && h.value.alg == "A256KW" && |parts.encryptedKey| >= 8 && cek.None?)
            && (r == Failed(BadKeyLength) <==>
                  h.Some? && h.value.alg == "A256KW" && |parts.encryptedKey| >= 8 && cek.Some? && |cek.value| != 32)
  {
    DecryptPrinted(p, parts, key);
  }

  /** A signed response of three parts gives the bytes of the middle one, whatever the others are. */
  lemma {:induction false} SignedIff(p: Suite, token: string, key: Bytes, m: Bytes)
    requires Count(token, '.') == 2
    ensures UnwrapResponse(p, token, key) == Done(m) <==>
              exists h: string, s: string :: '.' !in h && '.' !in s && token == Join([h, Encode(UrlSafe, m), s], '.')
  {
    var ps := Split(token, '.');
    PartsAndDots(token, '.');
    PartsAreFree(token, '.');
    JoinSplit(token, '.');
    assert ps == [ps[0], ps[1], ps[2]];
    if UnwrapResponse(p, token, key) == Done(m) {
      UrlCanonical(ps[1], m);
      assert token == Join([ps[0], Encode(UrlSafe, m), ps[2]], '.');
    }
    forall h: string, s: string | '.' !in h && '.' !in s && token == Join([h, Encode(UrlSafe, m), s], '.')
      ensures ps == [h, Encode(UrlSafe, m), s]
    {
      UrlRoundTrip(m);
      SplitJoin([h, Encode(UrlSafe, m), s], '.');
    }
    UrlRoundTrip(m);
  }

  /** Responses of neither three nor five parts are refused; those of five are decrypted. */
  lemma UnwrapKinds(p: Suite, token: string, key: Bytes)
    ensures Count(token, '.') == 4 ==> UnwrapResponse(p, token, key) == DecryptMessage(p, token, key)
    ensures Count(token, '.') != 4 && Count(token, '.') != 2 ==> UnwrapResponse(p, token, key) == Failed(WrongParts)
  {
  }

  /**
   * Exactly when decryption panics instead of failing: a direct token with a nonce
   * that is not 12 bytes long, or a key-wrapped one whose wrapped key is shorter than
   * 8 bytes or unwraps to a 32-byte key that then meets such a nonce.
   */
  lemma {:induction false} PanicsIff(p: Suite, token: string, key: Bytes)
    requires |key| == 32
    ensures DecryptMessage(p, token, key).Panicked? <==>
              exists parts :: token == Print(parts) && PanicLengths(p, parts, key)
  {
    if Parse(token).Done? {
      PrintParse(token);
    }
    forall parts | token == Print(parts)
      ensures DecryptMessage(p, token, key).Panicked? <==> PanicLengths(p, parts, key)
    {
      PrintedPanicsIff(p, parts, key);
    }
  }

  lemma {:induction false} PrintedPanicsIff(p: Suite, parts: Parts, key: Bytes)
    requires |key| == 32
    ensures DecryptMessage(p, Print(parts), key).Panicked? <==> PanicLengths(p, parts, key)
  {
    DecryptPrinted(p, parts, key);
    PartsPanicIff(p, parts, Url(parts.header), key);
  }

  lemma PartsPanicIff(p: Suite, parts: Parts, aad: string, key: Bytes)
    requires |key| == 32
    ensures DecryptParts(p, parts, aad, key).Panicked? <==> PanicLengths(p, parts, key)
  {
  }

  predicate PanicLengths(p: Suite, parts: Parts, key: Bytes) {
    var h := p.parseHeader(parts.header);
    h.Some? &&
    ((h.value.alg == "dir" && |parts.iv| != 12)
     || (h.value.alg == "A256KW" && (|parts.encryptedKey| < 8 || (|parts.iv| != 12 && UnwrapsTo32(p, parts, key)))))
  }

  predicate UnwrapsTo32(p: Suite, parts: Parts, key: Bytes) {
    var cek := p.unwrap(key, parts.encryptedKey);
    cek.Some? && |cek.value| == 32
  }
}
