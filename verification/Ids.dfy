/** REST identifiers (rust/src/id_utils.rs) and their normalisation (rust/src/handler.rs). */
module Ids {
  import opened Common
  import opened Base64
  import opened Primitives

  const SCHEME := "ciscospark://"
  const REGION := "us/"

  datatype IdError = InvalidBase64 | InvalidUtf8 | InvalidFormat

  function Uri(kind: string, uuid: string): string {
    SCHEME + REGION + kind + "/" + uuid
  }

  function ToRestId(p: Suite, uuid: string, kind: string): string {
    EncodePadded(Standard, p.utf8(Uri(kind, uuid)))
  }

  /** The text after the last slash, or all of it. */
  function Tail(s: string): string {
    if s == "" then "" else if '/' in s[1..] then Tail(s[1..]) else if s[0] == '/' then s[1..] else s
  }

  function FromRestId(p: Suite, restId: string): Result<string, IdError> {
    var b := DecodePadded(Standard, restId);
    if b.None? then Err(InvalidBase64)
    else
      var s := p.fromUtf8(b.value);
      if s.None? then Err(InvalidUtf8)
      else if '/' !in s.value then Err(InvalidFormat)
      else Ok(Tail(s.value))
  }

  /** What the two engines together make of an id: padded first, else unpadded. */
  function AnyDecode(id: string): Option<Bytes> {
    var padded := DecodePadded(Standard, id);
    if padded.Some? then padded else Decode(Standard, id)
  }

  /** `extract_person_uuid`: padded base64, else unpadded, else the id itself. */
  function ExtractUuid(p: Suite, id: string): string {
    var b := AnyDecode(id);
    if b.None? then id
    else
      var s := p.fromUtf8(b.value);
      if s.Some? && SCHEME <= s.value && Tail(s.value) != "" then Tail(s.value) else id
  }

  lemma {:induction false} TailOf(x: string, u: string)
    ensures Tail(x + "/" + u) == if '/' in u then Tail(u) else u
    ensures '/' in u ==> |Tail(u)| < |u|
  {
    var s := x + "/" + u;
    if x == "" {
      assert s[1..] == u;
      if '/' in u {
        TailShorter(u);
      }
    } else {
      assert s[1..] == x[1..] + "/" + u;
      assert s[1..][|x| - 1] == '/';
      TailOf(x[1..], u);
    }
  }

  lemma {:induction false} TailShorter(u: string)
    requires '/' in u
    ensures |Tail(u)| < |u|
  {
    if '/' in u[1..] {
      TailShorter(u[1..]);
    }
  }

  lemma UriTail(kind: string, uuid: string)
    ensures Tail(Uri(kind, uuid)) == if '/' in uuid then Tail(uuid) else uuid
    ensures SCHEME <= Uri(kind, uuid) && '/' in Uri(kind, uuid)
  {
    TailOf(SCHEME + REGION + kind, uuid);
    assert Uri(kind, uuid)[|SCHEME + REGION + kind|] == '/';
  }

  /** Reading a REST id back gives the uuid exactly when the uuid has no slash. */
  lemma {:induction false} FromToRestIdIff(p: Suite, uuid: string, kind: string)
    requires Laws(p)
    ensures FromRestId(p, ToRestId(p, uuid, kind)) == Ok(uuid) <==> '/' !in uuid
  {
    RestIdDecodes(p, uuid, kind);
    UriTail(kind, uuid);
    if '/' in uuid {
      TailShorter(uuid);
    }
  }

  // ---- Normalisation ----

  /** The id decodes to text of the scheme with something after its last slash. */
  predicate LooksLikeRestId(p: Suite, id: string) {
    var b := AnyDecode(id);
    b.Some? && p.fromUtf8(b.value).Some? && SCHEME <= p.fromUtf8(b.value).value && Tail(p.fromUtf8(b.value).value) != ""
  }

  lemma {:induction false} DecodedIsShorter(s: seq<Sextet>)
    requires FromSextets(s).Some?
    ensures |FromSextets(s).value| <= |s|
  {
    if |s| >= 4 {
      DecodedIsShorter(s[4..]);
    }
  }

  lemma AnyDecodeIsShorter(id: string)
    requires AnyDecode(id).Some?
    ensures |AnyDecode(id).value| <= |id|
  {
    var t := if DecodePadded(Standard, id).Some? then Unpad(id) else id;
    DecodedIsShorter(Sextets(Standard, t));
  }

  /** A text of the scheme is longer than what follows its last slash. */
  lemma SchemeTail(s: string)
    requires SCHEME <= s
    ensures |Tail(s)| < |s|
  {
    assert SCHEME[12] == '/' && s[12] == SCHEME[12];
    TailShorter(s);
  }

  /** A raw id is left as it is exactly when it does not itself look like a REST id. */
  lemma {:induction false} RawIsKeptIff(p: Suite, id: string)
    requires Laws(p)
    ensures ExtractUuid(p, id) == id <==> !LooksLikeRestId(p, id)
  {
    if LooksLikeRestId(p, id) {
      AnyDecodeIsShorter(id);
      var s := p.fromUtf8(AnyDecode(id).value).value;
      SchemeTail(s);
    }
  }

  /** Text that decodes to the bytes of an id's URI is read as that uuid exactly if it has no slash and is not empty. */
  lemma {:induction false} EncodedIsReadIff(p: Suite, t: string, kind: string, uuid: string)
    requires Laws(p) && AnyDecode(t) == Some(p.utf8(Uri(kind, uuid)))
    ensures ExtractUuid(p, t) == uuid <==> uuid != "" && '/' !in uuid
  {
    assert p.fromUtf8(p.utf8(Uri(kind, uuid))) == Some(Uri(kind, uuid));
    UriTail(kind, uuid);
    AnyDecodeIsShorter(t);
    assert |uuid| < |Uri(kind, uuid)| <= |t|;
    if '/' in uuid {
      TailShorter(uuid);
    }
  }

  /** REST id and unpadded REST id are read as the uuid exactly if it has no slash and is not empty. */
  lemma {:induction false} RestFormsNormaliseIff(p: Suite, uuid: string, kind: string)
    requires Laws(p)
    ensures ExtractUuid(p, ToRestId(p, uuid, kind)) == uuid <==> uuid != "" && '/' !in uuid
    ensures ExtractUuid(p, Unpad(ToRestId(p, uuid, kind))) == uuid <==> uuid != "" && '/' !in uuid
  {
    var b := p.utf8(Uri(kind, uuid));
    PaddedRoundTrip(Standard, b);
    UnpaddedDecodes(b);
    EncodedIsReadIff(p, ToRestId(p, uuid, kind), kind, uuid);
    EncodedIsReadIff(p, Unpad(ToRestId(p, uuid, kind)), kind, uuid);
  }

  /** All three forms normalise to the uuid exactly if it is not empty, has no slash and does not look like a REST id. */
  lemma {:induction false} AllFormsNormaliseIff(p: Suite, uuid: string, kind: string)
    requires Laws(p)
    ensures (ExtractUuid(p, uuid) == uuid && ExtractUuid(p, ToRestId(p, uuid, kind)) == uuid
             && ExtractUuid(p, Unpad(ToRestId(p, uuid, kind))) == uuid)
            <==> uuid != "" && '/' !in uuid && !LooksLikeRestId(p, uuid)
  {
    RawIsKeptIff(p, uuid);
    RestFormsNormaliseIff(p, uuid, kind);
  }

  /** Some character is neither in the standard alphabet nor the padding character. */
  ghost predicate NotBase64(s: string) {
    exists i :: 0 <= i < |s| && SextetOf(Standard, s[i]).None? && s[i] != '='
  }

  lemma NotBase64Undecodable(s: string)
    requires NotBase64(s)
    ensures DecodePadded(Standard, s).None? && Decode(Standard, s).None?
  {
    var i :| 0 <= i < |s| && SextetOf(Standard, s[i]).None? && s[i] != '=';
    assert i < |Unpad(s)| && Unpad(s)[i] == s[i];
  }

  /** In particular they do for a uuid with such a character, a hyphen say. */
  lemma {:induction false} AllFormsNormalise(p: Suite, uuid: string, kind: string)
    requires Laws(p) && uuid != "" && '/' !in uuid && NotBase64(uuid)
    ensures ExtractUuid(p, uuid) == uuid
    ensures ExtractUuid(p, ToRestId(p, uuid, kind)) == uuid
    ensures ExtractUuid(p, Unpad(ToRestId(p, uuid, kind))) == uuid
  {
    NotBase64Undecodable(uuid);
    AllFormsNormaliseIff(p, uuid, kind);
  }

  /** The unpadded text decodes to the same bytes, by whichever engine takes it. */
  lemma {:induction false} UnpaddedDecodes(b: Bytes)
    ensures var t := Unpad(EncodePadded(Standard, b));
            Decode(Standard, t) == Some(b) && (DecodePadded(Standard, t).Some? ==> DecodePadded(Standard, t) == Some(b))
  {
    UnpadPadded(Standard, b);
    RoundTrip(Standard, b);
    EncodedText(Standard, b);
    var t := Encode(Standard, b);
    assert |t| > 0 ==> t[|t| - 1] in t;
    assert Unpad(t) == t;
  }

  // ---- An id with padding ----

  /** Under the encoder `f`, the bytes `g` put the text `s` in front of any encoding. */
  ghost predicate Puts(f: Bytes -> string, g: Bytes, s: string) {
    forall rest: Bytes :: f(g + rest) == s + f(rest)
  }

  lemma PutsBoth(f: Bytes -> string, g: Bytes, s: string, h: Bytes, t: string)
    requires Puts(f, g, s) && Puts(f, h, t)
    ensures Puts(f, g + h, s + t)
  {
    forall rest: Bytes
      ensures f((g + h) + rest) == (s + t) + f(rest)
    {
      assert (g + h) + rest == g + (h + rest);
      assert (s + t) + f(rest) == s + (t + f(rest));
    }
  }

  function Encoder(): Bytes -> string {
    b => Encode(Standard, b)
  }

  function Group(x: Byte, y: Byte, z: Byte): string {
    [CharOf(Standard, Sextet0(x)), CharOf(Standard, Sextet1(x, y)),
     CharOf(Standard, Sextet2(y, z)), CharOf(Standard, Sextet3(z))]
  }

  lemma CharsCons(p: Sextet, q: Sextet, r: Sextet, s: Sextet, rest: seq<Sextet>)
    ensures Chars(Standard, [p, q, r, s] + rest) ==
            [CharOf(Standard, p), CharOf(Standard, q), CharOf(Standard, r), CharOf(Standard, s)] + Chars(Standard, rest)
  {
  }

  lemma EncodeCons(x: Byte, y: Byte, z: Byte, rest: Bytes)
    ensures Encode(Standard, [x, y, z] + rest) == Group(x, y, z) + Encode(Standard, rest)
  {
    ToSextetsCons(x, y, z, rest);
    CharsCons(Sextet0(x), Sextet1(x, y), Sextet2(y, z), Sextet3(z), ToSextets(rest));
  }

  lemma PutsGroup(x: Byte, y: Byte, z: Byte)
    ensures Puts(Encoder(), [x, y, z], Group(x, y, z))
  {
    forall rest: Bytes
      ensures Encoder()([x, y, z] + rest) == Group(x, y, z) + Encoder()(rest)
    {
      EncodeCons(x, y, z, rest);
    }
  }

  lemma GroupsSpelt()
    ensures Group(99, 105, 115) == "Y2lz" && Group(99, 111, 115) == "Y29z"
    ensures Group(112, 97, 114) == "cGFy" && Group(107, 58, 47) == "azov"
  {
  }

  lemma PutsTwo(x: Byte, y: Byte, z: Byte, u: Byte, v: Byte, w: Byte)
    ensures Puts(Encoder(), [x, y, z] + [u, v, w], Group(x, y, z) + Group(u, v, w))
  {
    PutsGroup(x, y, z);
    PutsGroup(u, v, w);
    PutsBoth(Encoder(), [x, y, z], Group(x, y, z), [u, v, w], Group(u, v, w));
  }

  lemma PutsHead(rest: Bytes)
    ensures Encode(Standard, (([99, 105, 115] + [99, 111, 115]) + ([112, 97, 114] + [107, 58, 47])) + rest) ==
            ((Group(99, 105, 115) + Group(99, 111, 115)) + (Group(112, 97, 114) + Group(107, 58, 47))) + Encode(Standard, rest)
  {
    PutsTwo(99, 105, 115, 99, 111, 115);
    PutsTwo(112, 97, 114, 107, 58, 47);
    var g, h := [99, 105, 115] + [99, 111, 115], [112, 97, 114] + [107, 58, 47];
    var s, t := Group(99, 105, 115) + Group(99, 111, 115), Group(112, 97, 114) + Group(107, 58, 47);
    PutsBoth(Encoder(), g, s, h, t);
    assert Encoder()((g + h) + rest) == (s + t) + Encoder()(rest);
  }

  lemma EncodesTail()
    ensures Encode(Standard, [47, 97]) == "L2E"
  {
    assert ToSextets([47, 97]) == [11, 54, 4];
  }

  const TEXT := "ciscospark://a"
  const PADDED := "Y2lzY29zcGFyazovL2E="

  lemma TextCodes()
    ensures Ascii(TEXT)
    ensures Codes(TEXT) == (([99, 105, 115] + [99, 111, 115]) + ([112, 97, 114] + [107, 58, 47])) + [47, 97]
  {
  }

  lemma TextEncoded()
    ensures Ascii(TEXT) && Encode(Standard, Codes(TEXT)) == (("Y2lz" + "Y29z") + ("cGFy" + "azov")) + "L2E"
  {
    PutsHead([47, 97]);
    GroupsSpelt();
    TextCodes();
    EncodesTail();
  }

  lemma PaddedIsEncoded()
    ensures Ascii(TEXT) && EncodePadded(Standard, Codes(TEXT)) == PADDED
  {
    TextEncoded();
    Spelling();
    assert EncodePadded(Standard, Codes(TEXT)) == Encode(Standard, Codes(TEXT)) + "=";
  }

  lemma Spelling()
    ensures (("Y2lz" + "Y29z") + ("cGFy" + "azov")) + "L2E" + "=" == PADDED
  {
  }

  lemma TextTail()
    ensures Tail(TEXT) == "a" && SCHEME <= TEXT
  {
    TailOf("ciscospark:/", "a");
    assert TEXT == "ciscospark:/" + "/" + "a";
  }

  lemma PaddedShape()
    ensures '/' !in PADDED && (exists i :: 0 <= i < |PADDED| && SextetOf(Standard, PADDED[i]).None?)
  {
    assert PADDED[19] == '=';
  }

  lemma {:induction false} TextIsRead(p: Suite, id: string)
    requires Laws(p) && AnyDecode(id) == Some(p.utf8(TEXT))
    ensures ExtractUuid(p, id) == "a" && LooksLikeRestId(p, id)
  {
    assert p.fromUtf8(p.utf8(TEXT)) == Some(TEXT);
    TextTail();
  }

  /**
   * Having a character outside the alphabet is not enough: this id has one, the
   * padding, and no slash, and yet it is not left alone.
   */
  lemma {:induction false} PaddedIdIsNotKept(p: Suite)
    requires Laws(p)
    ensures '/' !in PADDED && (exists i :: 0 <= i < |PADDED| && SextetOf(Standard, PADDED[i]).None?)
    ensures ExtractUuid(p, PADDED) == "a" && LooksLikeRestId(p, PADDED)
  {
    PaddedShape();
    var id, b := EncodePadded(Standard, p.utf8(TEXT)), p.utf8(TEXT);
    PaddedRoundTrip(Standard, b);
    TextIsRead(p, id);
    PaddedIsEncoded();
    assert id == PADDED;
  }

  /** What a REST id decodes to. */
  lemma {:induction false} RestIdDecodes(p: Suite, uuid: string, kind: string)
    requires Laws(p)
    ensures var b := DecodePadded(Standard, ToRestId(p, uuid, kind));
            b.Some? && p.fromUtf8(b.value) == Some(Uri(kind, uuid))
  {
    PaddedRoundTrip(Standard, p.utf8(Uri(kind, uuid)));
    assert p.fromUtf8(p.utf8(Uri(kind, uuid))) == Some(Uri(kind, uuid));
  }

  /** Spelt out: a REST id is the padded base64 of "ciscospark://us/", the type, a slash and the uuid. */
  lemma {:induction false} RestIdSpelt(p: Suite, uuid: string, kind: string)
    requires Laws(p)
    ensures DecodePadded(Standard, ToRestId(p, uuid, kind)) == Some(p.utf8("ciscospark://us/" + kind + "/" + uuid))
  {
    UriSpelt(kind, uuid);
    PaddedRoundTrip(Standard, p.utf8(Uri(kind, uuid)));
  }

  lemma UriSpelt(kind: string, uuid: string)
    ensures Uri(kind, uuid) == "ciscospark://us/" + kind + "/" + uuid
  {
    assert SCHEME + REGION == "ciscospark://us/";
  }

  /** `s` is split at its last slash. */
  ghost predicate LastSlash(s: string, i: nat) {
    i < |s| && s[i] == '/' && '/' !in s[i + 1..]
  }

  lemma {:induction false} TailIsAfterLastSlash(s: string)
    ensures forall i: nat :: LastSlash(s, i) ==> Tail(s) == s[i + 1..]
    ensures '/' in s <==> exists i: nat :: LastSlash(s, i)
    ensures '/' !in s ==> Tail(s) == s
  {
    if s != "" {
      var rest := s[1..];
      TailIsAfterLastSlash(rest);
      forall i: nat | LastSlash(s, i)
        ensures Tail(s) == s[i + 1..]
      {
        if i > 0 {
          assert rest[i..] == s[i + 1..] && LastSlash(rest, i - 1);
        }
      }
      if '/' in rest {
        var i: nat :| LastSlash(rest, i);
        assert s[i + 2..] == rest[i + 1..] && LastSlash(s, i + 1);
      } else if s[0] == '/' {
        assert LastSlash(s, 0);
      }
    }
  }

  /** Exactly what each text is read back as: a uuid, or one of three errors. */
  lemma {:induction false} FromRestIdIff(p: Suite, restId: string, uuid: string)
    ensures var b := DecodePadded(Standard, restId);
            && (FromRestId(p, restId) == Err(InvalidBase64) <==> b.None?)
            && (FromRestId(p, restId) == Err(InvalidUtf8) <==> b.Some? && p.fromUtf8(b.value).None?)
            && (FromRestId(p, restId) == Err(InvalidFormat) <==>
                  b.Some? && p.fromUtf8(b.value).Some? && '/' !in p.fromUtf8(b.value).value)
            && (FromRestId(p, restId) == Ok(uuid) <==>
                  b.Some? && p.fromUtf8(b.value).Some?
                  && exists i: nat :: LastSlash(p.fromUtf8(b.value).value, i) && uuid == p.fromUtf8(b.value).value[i + 1..])
  {
    var b := DecodePadded(Standard, restId);
    if b.Some? && p.fromUtf8(b.value).Some? {
      TailIsAfterLastSlash(p.fromUtf8(b.value).value);
    }
  }

  /** What the normalisation reads from an id that is not left as it is: the text after the last slash of what it decodes to. */
  lemma {:induction false} LooksRead(p: Suite, id: string)
    requires LooksLikeRestId(p, id)
    ensures var s := p.fromUtf8(AnyDecode(id).value).value;
            "ciscospark://" <= s && exists i: nat :: LastSlash(s, i) && ExtractUuid(p, id) == s[i + 1..] != ""
  {
    var s := p.fromUtf8(AnyDecode(id).value).value;
    assert SCHEME[12] == '/' && s[12] == SCHEME[12];
    TailIsAfterLastSlash(s);
  }

  lemma UriInjective(kind: string, uuid: string, kind': string, uuid': string)
    requires '/' !in kind && '/' !in kind' && Uri(kind, uuid) == Uri(kind', uuid')
    ensures uuid == uuid' && kind == kind'
  {
    var n := |SCHEME + REGION|;
    assert Uri(kind, uuid)[n..] == kind + "/" + uuid;
    assert Uri(kind', uuid')[n..] == kind' + "/" + uuid';
    FirstSlash(kind, uuid, kind', uuid');
  }

  /** REST ids tell apart any two pairs of slash-free type and uuid. */
  lemma {:induction false} RestIdInjective(p: Suite, uuid: string, kind: string, uuid': string, kind': string)
    requires Laws(p) && '/' !in kind && '/' !in kind'
    requires ToRestId(p, uuid, kind) == ToRestId(p, uuid', kind')
    ensures uuid == uuid' && kind == kind'
  {
    RestIdDecodes(p, uuid, kind);
    RestIdDecodes(p, uuid', kind');
    UriInjective(kind, uuid, kind', uuid');
  }

  lemma {:induction false} FirstSlash(a: string, u: string, b: string, v: string)
    requires '/' !in a && '/' !in b && a + "/" + u == b + "/" + v
    ensures a == b && u == v
  {
    var s, t := a + "/" + u, b + "/" + v;
    if a == "" || b == "" {
      assert s[0] == t[0];
      assert a == b == "";
      assert s[1..] == u && t[1..] == v;
    } else {
      assert s[0] == a[0] && t[0] == b[0];
      assert s[1..] == a[1..] + "/" + u && t[1..] == b[1..] + "/" + v;
      FirstSlash(a[1..], u, b[1..], v);
    }
  }
}
