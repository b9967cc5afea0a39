/** Decrypting an activity's fields (rust/src/message_decryptor.rs). */
module Activity {
  import opened Common
  import opened Primitives
  import opened Jwe
  import Kms
  import Text

  datatype Actor = Actor(id: string, objectType: string, email: Option<string>)

  datatype Object = Object(
    id: string,
    objectType: string,
    displayName: Option<string>,
    content: Option<string>,
    keyUrl: Option<string>,
    inputs: Option<Value>,
    inputsEncrypted: Option<string>,
    files: Option<seq<string>>
  )

  datatype Target = Target(id: string, objectType: string, keyUrl: Option<string>, tags: seq<string>)

  datatype MercuryActivity = MercuryActivity(
    id: string,
    url: Option<string>,
    verb: string,
    actor: Actor,
    obj: Object,
    target: Target,
    published: string,
    keyUrl: Option<string>,
    parent: Option<(string, string)>
  )

  /** An inputs value that arrived as a string is the encrypted form. */
  function FinalizeInputs(o: Object): Object {
    if o.inputs.Some? && o.inputs.value.Str? then o.(inputsEncrypted := Some(o.inputs.value.s), inputs := None) else o
  }

  /** Only inputs that came as a string are moved to the encrypted form; nothing else changes. */
  lemma FinalizedIff(o: Object)
    ensures var r := FinalizeInputs(o);
            && r == o.(inputs := r.inputs, inputsEncrypted := r.inputsEncrypted)
            && (forall s :: o.inputs == Some(Str(s)) ==> r.inputs.None? && r.inputsEncrypted == Some(s))
            && ((forall s :: o.inputs != Some(Str(s))) ==> r == o)
  {
    if o.inputs.Some? && o.inputs.value.Str? {
      assert o.inputs == Some(Str(o.inputs.value.s));
    }
  }

  // ---- The key URL ----

  predicate Present(u: Option<string>) {
    u.Some? && u.value != ""
  }

  function KeyUrl(a: MercuryActivity): Option<string> {
    if Present(a.keyUrl) then a.keyUrl
    else if Present(a.obj.keyUrl) then a.obj.keyUrl
    else if Present(a.target.keyUrl) then a.target.keyUrl
    else None
  }

  // ---- One field at a time ----

  /** The text fields: replaced only by a decryption that yields text. */
  function OpenText(p: Suite, field: Option<string>, key: Bytes): Run<Option<string>> {
    if !Present(field) then Done(field)
    else
      match DecryptMessage(p, field.value, key)
      case Panicked => Panicked
      case Failed(_) => Done(field)
      case Done(m) => var t := p.fromUtf8(m); Done(if t.Some? then t else field)
  }

  /** The inputs: replaced only by a decryption that yields JSON. */
  function OpenInputs(p: Suite, encrypted: Option<string>, inputs: Option<Value>, key: Bytes): Run<Option<Value>> {
    if !Present(encrypted) then Done(inputs)
    else
      match DecryptMessage(p, encrypted.value, key)
      case Panicked => Panicked
      case Failed(_) => Done(inputs)
      case Done(m) => var v := p.parseJson(m); Done(if v.Some? then v else inputs)
  }

  /** All three fields of an activity under one key. */
  function OpenFields(p: Suite, a: MercuryActivity, key: Bytes): Run<MercuryActivity> {
    var o := a.obj;
    var name := OpenText(p, o.displayName, key);
    var content := OpenText(p, o.content, key);
    var inputs := OpenInputs(p, o.inputsEncrypted, o.inputs, key);
    if !name.Done? || !content.Done? || !inputs.Done? then Panicked
    else Done(a.(obj := o.(displayName := name.value, content := content.value, inputs := inputs.value)))
  }

  datatype Decryption = Decrypted(activity: MercuryActivity) | KeyUnavailable(error: Kms.KmsError) | Crashed

  /** A whole `decrypt_activity`: the client after the key fetch, and the outcome. */
  function Decrypt(p: Suite, c: Kms.Client, env: Kms.CallEnv, a: MercuryActivity): (Kms.Client, Decryption) {
    if KeyUrl(a).None? then (c, Decrypted(a))
    else
      var (c', key) := Kms.GetKeySpec(c, KeyUrl(a).value, env);
      (c', if key.Ok? then Opened(OpenFields(p, a, key.value))
           else if key.error.Panicked? then Crashed
           else KeyUnavailable(key.error))
  }

  function Opened(r: Run<MercuryActivity>): Decryption {
    if r.Done? then Decrypted(r.value) else Crashed
  }

  /** `decrypt_activity`, over a client whose own state moves with the key fetch. */
  method DecryptActivity(p: Suite, kms: Kms.KmsClient, env: Kms.CallEnv, a: MercuryActivity) returns (r: Decryption)
    modifies kms
    ensures (kms.View(), r) == Decrypt(p, old(kms.View()), env, a)
    ensures KeyUrl(a).None? ==> r == Decrypted(a) && kms.View() == old(kms.View())
    ensures KeyUrl(a).Some? ==>
              var (client, key) := Kms.GetKeySpec(old(kms.View()), KeyUrl(a).value, env);
              && kms.View() == client
              && (key.Err? ==> r == if key.error.Panicked? then Crashed else KeyUnavailable(key.error))
  {
    var url := KeyUrl(a);
    if url.None? {
      return Decrypted(a);
    }
    var key := kms.GetKey(url.value, env);
    if key.Err? {
      return if key.error.Panicked? then Crashed else KeyUnavailable(key.error);
    }
    var run := Overwrite(p, a, key.value);
    return if run.Done? then Decrypted(run.value) else Crashed;
  }

  /** The overwriting of the cloned activity, field by field. */
  method Overwrite(p: Suite, a: MercuryActivity, key: Bytes) returns (r: Run<MercuryActivity>)
    ensures r == OpenFields(p, a, key)
  {
    var decrypted := a;
    var name := OpenText(p, decrypted.obj.displayName, key);
    if !name.Done? {
      return Panicked;
    }
    decrypted := decrypted.(obj := decrypted.obj.(displayName := name.value));
    var content := OpenText(p, decrypted.obj.content, key);
    if !content.Done? {
      return Panicked;
    }
    decrypted := decrypted.(obj := decrypted.obj.(content := content.value));
    var inputs := OpenInputs(p, decrypted.obj.inputsEncrypted, decrypted.obj.inputs, key);
    if !inputs.Done? {
      return Panicked;
    }
    decrypted := decrypted.(obj := decrypted.obj.(inputs := inputs.value));
    return Done(decrypted);
  }

  // ---- What it means ----

  /** The key URL is the first non-empty one in the order activity, object, target. */
  lemma KeyUrlIsFirst(a: MercuryActivity)
    ensures var urls := [a.keyUrl, a.obj.keyUrl, a.target.keyUrl];
            if KeyUrl(a).None? then forall i :: 0 <= i < 3 ==> !Present(urls[i])
            else exists i :: 0 <= i < 3 && urls[i] == KeyUrl(a) && Present(urls[i])
                             && forall j :: 0 <= j < i ==> !Present(urls[j])
  {
    var urls := [a.keyUrl, a.obj.keyUrl, a.target.keyUrl];
    assert urls[0] == a.keyUrl && urls[1] == a.obj.keyUrl && urls[2] == a.target.keyUrl;
  }

  /** Only the three fields ever change. */
  lemma OtherFieldsKept(p: Suite, a: MercuryActivity, key: Bytes)
    requires OpenFields(p, a, key).Done?
    ensures var b := OpenFields(p, a, key).value;
            b.(obj := b.obj.(displayName := a.obj.displayName, content := a.obj.content, inputs := a.obj.inputs)) == a
  {
  }

  // ---- When fields are independent of one another ----

  /** A token whose lengths make decryption panic. */
  ghost predicate CrashToken(p: Suite, token: string, key: Bytes) {
    exists parts :: token == Print(parts) && PanicLengths(p, parts, key)
  }

  ghost predicate CrashField(p: Suite, field: Option<string>, key: Bytes) {
    Present(field) && CrashToken(p, field.value, key)
  }

  /** One of the three fields is such a token. */
  ghost predicate Crashes(p: Suite, a: MercuryActivity, key: Bytes) {
    CrashField(p, a.obj.displayName, key) || CrashField(p, a.obj.content, key) || CrashField(p, a.obj.inputsEncrypted, key)
  }

  lemma FieldPanicsIff(p: Suite, field: Option<string>, inputs: Option<Value>, key: Bytes)
    requires |key| == 32
    ensures !OpenText(p, field, key).Done? <==> CrashField(p, field, key)
    ensures !OpenInputs(p, field, inputs, key).Done? <==> CrashField(p, field, key)
  {
    if Present(field) {
      PanicsIff(p, field.value, key);
    }
  }

  /** Opening an activity panics exactly if one of its fields has such lengths. */
  lemma OpenFieldsPanicsIff(p: Suite, a: MercuryActivity, key: Bytes)
    requires |key| == 32
    ensures OpenFields(p, a, key).Panicked? <==> Crashes(p, a, key)
    ensures !OpenFields(p, a, key).Failed?
  {
    FieldPanicsIff(p, a.obj.displayName, None, key);
    FieldPanicsIff(p, a.obj.content, None, key);
    FieldPanicsIff(p, a.obj.inputsEncrypted, a.obj.inputs, key);
  }

  /** The text a field opens to, if it does. */
  function TextIn(p: Suite, field: Option<string>, key: Bytes): Option<string> {
    if !Present(field) then None
    else
      var m := DecryptMessage(p, field.value, key);
      if m.Done? then p.fromUtf8(m.value) else None
  }

  /** The JSON value a field opens to, if it does. */
  function JsonIn(p: Suite, field: Option<string>, key: Bytes): Option<Value> {
    if !Present(field) then None
    else
      var m := DecryptMessage(p, field.value, key);
      if m.Done? then p.parseJson(m.value) else None
  }

  function Else<T>(x: Option<T>, y: Option<T>): Option<T> {
    if x.Some? then x else y
  }

  /** `b` is `a` with each field replaced by what that field alone opens to, or kept if it opens to nothing. */
  ghost predicate EachOnItsOwn(p: Suite, a: MercuryActivity, b: MercuryActivity, key: Bytes) {
    b == a.(obj := a.obj.(
      displayName := Else(TextIn(p, a.obj.displayName, key), a.obj.displayName),
      content := Else(TextIn(p, a.obj.content, key), a.obj.content),
      inputs := Else(JsonIn(p, a.obj.inputsEncrypted, key), a.obj.inputs)))
  }

  /** The three fields are opened each on its own exactly if none of them makes decryption panic. */
  lemma FieldsOnTheirOwnIff(p: Suite, a: MercuryActivity, key: Bytes)
    requires |key| == 32
    ensures (exists b :: OpenFields(p, a, key) == Done(b) && EachOnItsOwn(p, a, b, key)) <==> !Crashes(p, a, key)
  {
    OpenFieldsPanicsIff(p, a, key);
    if OpenFields(p, a, key).Done? {
      TextOnItsOwn(p, a.obj.displayName, key);
      TextOnItsOwn(p, a.obj.content, key);
      InputsOnTheirOwn(p, a.obj.inputsEncrypted, a.obj.inputs, key);
      assert EachOnItsOwn(p, a, OpenFields(p, a, key).value, key);
    }
  }

  lemma TextOnItsOwn(p: Suite, field: Option<string>, key: Bytes)
    requires OpenText(p, field, key).Done?
    ensures OpenText(p, field, key) == Done(Else(TextIn(p, field, key), field))
  {
  }

  lemma InputsOnTheirOwn(p: Suite, encrypted: Option<string>, inputs: Option<Value>, key: Bytes)
    requires OpenInputs(p, encrypted, inputs, key).Done?
    ensures OpenInputs(p, encrypted, inputs, key) == Done(Else(JsonIn(p, encrypted, key), inputs))
  {
  }

  /** The suite opens the field to `m`. */
  ghost predicate Holds(p: Suite, field: Option<string>, key: Bytes, m: Bytes) {
    Present(field) && exists parts :: field.value == Print(parts) && Unseals(p, parts, key, m)
  }

  lemma HoldsIff(p: Suite, field: Option<string>, key: Bytes, m: Bytes)
    ensures Holds(p, field, key, m) <==> Present(field) && DecryptMessage(p, field.value, key) == Done(m)
  {
    if Present(field) {
      DecryptsIff(p, field.value, key, m);
    }
  }

  /** A field opens to a text exactly if the suite opens it to the bytes of one. */
  lemma TextInIff(p: Suite, field: Option<string>, key: Bytes, text: string)
    ensures TextIn(p, field, key) == Some(text) <==> exists m :: Holds(p, field, key, m) && p.fromUtf8(m) == Some(text)
  {
    forall m
      ensures Holds(p, field, key, m) <==> Present(field) && DecryptMessage(p, field.value, key) == Done(m)
    {
      HoldsIff(p, field, key, m);
    }
  }

  lemma JsonInIff(p: Suite, field: Option<string>, key: Bytes, v: Value)
    ensures JsonIn(p, field, key) == Some(v) <==> exists m :: Holds(p, field, key, m) && p.parseJson(m) == Some(v)
  {
    forall m
      ensures Holds(p, field, key, m) <==> Present(field) && DecryptMessage(p, field.value, key) == Done(m)
    {
      HoldsIff(p, field, key, m);
    }
  }

  /** A field that neither panics nor opens under the suite, sealed under another key say, keeps its value. */
  lemma UnopenedKept(p: Suite, field: Option<string>, inputs: Option<Value>, key: Bytes)
    requires |key| == 32 && !CrashField(p, field, key) && forall m :: !Holds(p, field, key, m)
    ensures OpenText(p, field, key) == Done(field)
    ensures OpenInputs(p, field, inputs, key) == Done(inputs)
  {
    FieldPanicsIff(p, field, inputs, key);
    TextOnItsOwn(p, field, key);
    InputsOnTheirOwn(p, field, inputs, key);
    if TextIn(p, field, key).Some? {
      TextInIff(p, field, key, TextIn(p, field, key).value);
    }
    if JsonIn(p, field, key).Some? {
      JsonInIff(p, field, key, JsonIn(p, field, key).value);
    }
  }

  /** A field whose text or JSON the suite gives becomes it. */
  lemma OpenedReplaced(p: Suite, field: Option<string>, inputs: Option<Value>, key: Bytes, m: Bytes)
    requires Holds(p, field, key, m)
    ensures p.fromUtf8(m).Some? ==> OpenText(p, field, key) == Done(p.fromUtf8(m))
    ensures p.fromUtf8(m).None? ==> OpenText(p, field, key) == Done(field)
    ensures p.parseJson(m).Some? ==> OpenInputs(p, field, inputs, key) == Done(p.parseJson(m))
    ensures p.parseJson(m).None? ==> OpenInputs(p, field, inputs, key) == Done(inputs)
  {
    HoldsIff(p, field, key, m);
  }

  /**
   * Where nothing panics, fields do not affect one another: whatever is in the other
   * two, a field's outcome is the same, and a field that does not decrypt, or decrypts
   * to no text or no JSON, keeps its value.
   */
  lemma FieldsIndependent(p: Suite, a: MercuryActivity, b: MercuryActivity, key: Bytes)
    requires |key| == 32 && !Crashes(p, a, key) && !Crashes(p, b, key)
    ensures OpenFields(p, a, key).Done? && OpenFields(p, b, key).Done?
    ensures var (x, y) := (OpenFields(p, a, key).value.obj, OpenFields(p, b, key).value.obj);
            && (a.obj.displayName == b.obj.displayName ==> x.displayName == y.displayName)
            && (a.obj.content == b.obj.content ==> x.content == y.content)
            && (a.obj.inputsEncrypted == b.obj.inputsEncrypted && a.obj.inputs == b.obj.inputs ==> x.inputs == y.inputs)
            && (TextIn(p, a.obj.displayName, key).None? ==> x.displayName == a.obj.displayName)
            && (TextIn(p, a.obj.content, key).None? ==> x.content == a.obj.content)
            && (JsonIn(p, a.obj.inputsEncrypted, key).None? ==> x.inputs == a.obj.inputs)
  {
    FieldsOnTheirOwnIff(p, a, key);
    FieldsOnTheirOwnIff(p, b, key);
  }

  /** A whole call crashes exactly if its key fetch panicked, or its key opens a field that panics. */
  lemma DecryptCrashesIff(p: Suite, c: Kms.Client, env: Kms.CallEnv, a: MercuryActivity)
    requires KeyUrl(a).Some? && Kms.Sized(c)
    ensures var key := Kms.GetKeySpec(c, KeyUrl(a).value, env).1;
            Decrypt(p, c, env, a).1.Crashed? <==> if key.Ok? then Crashes(p, a, key.value) else key.error.Panicked?
  {
    var key := Kms.GetKeySpec(c, KeyUrl(a).value, env).1;
    Kms.CallKeepsSize(c, KeyUrl(a).value, env);
    if key.Ok? {
      OpenFieldsPanicsIff(p, a, key.value);
    }
  }

  /** The display name that a peer sends as a direct token without a nonce. */
  function NoNonce(p: Suite): string {
    Print(Parts(p.printHeader(Header("dir", "A256GCM", None)), [], [], [], []))
  }

  /** Such a display name makes every activity crash, whatever its content and inputs. */
  lemma NoNonceCrashes(p: Suite, a: MercuryActivity, key: Bytes)
    requires Laws(p) && |key| == 32 && a.obj.displayName == Some(NoNonce(p))
    ensures OpenFields(p, a, key).Panicked?
  {
    var h := Header("dir", "A256GCM", None);
    var parts := Parts(p.printHeader(h), [], [], [], []);
    assert p.parseHeader(p.printHeader(h)) == Some(h);
    assert PanicLengths(p, parts, key);
    ParsePrint(parts);
    assert NoNonce(p) != "";
    OpenFieldsPanicsIff(p, a, key);
  }

  // ---- What was sealed is restored ----

  /** How a field was sealed: directly under the key, or under a wrapped content key. */
  datatype Sealer = Direct(kid: string, iv: Bytes) | Wrapped(cek: Bytes, iv: Bytes)

  predicate Fit(s: Sealer) {
    |s.iv| == 12 && (s.Wrapped? ==> |s.cek| == 32)
  }

  function Seal(p: Suite, m: Bytes, key: Bytes, s: Sealer): string
    requires Laws(p) && |key| == 32 && Fit(s)
  {
    match s
    case Direct(kid, iv) => EncryptDir(p, m, key, kid, iv)
    case Wrapped(cek, iv) => EncryptKw(p, m, key, cek, iv)
  }

  lemma SealOpens(p: Suite, m: Bytes, key: Bytes, s: Sealer)
    requires Laws(p) && |key| == 32 && Fit(s)
    ensures DecryptMessage(p, Seal(p, m, key, s), key) == Done(m) && Seal(p, m, key, s) != ""
  {
    match s
    case Direct(kid, iv) => DirRoundTrip(p, m, key, kid, iv);
    case Wrapped(cek, iv) => KwRoundTrip(p, m, key, cek, iv);
    assert Text.Split("", '.') == [""];
    assert DecryptMessage(p, "", key) == Failed(WrongParts);
  }

  /** The sender's side: display name and content as text, the inputs as JSON, sent as a string. */
  function SealActivity(p: Suite, a: MercuryActivity, key: Bytes, s: Sealer, t: Sealer, u: Sealer): MercuryActivity
    requires Laws(p) && |key| == 32 && Fit(s) && Fit(t) && Fit(u)
  {
    var o := a.obj;
    a.(obj := o.(
      displayName := if o.displayName.Some? then Some(Seal(p, p.utf8(o.displayName.value), key, s)) else None,
      content := if o.content.Some? then Some(Seal(p, p.utf8(o.content.value), key, t)) else None,
      inputs := if o.inputs.Some? then Some(Str(Seal(p, p.printJson(o.inputs.value), key, u))) else None))
  }

  lemma TextRestored(p: Suite, text: string, key: Bytes, s: Sealer)
    requires Laws(p) && |key| == 32 && Fit(s)
    ensures OpenText(p, Some(Seal(p, p.utf8(text), key, s)), key) == Done(Some(text))
  {
    SealOpens(p, p.utf8(text), key, s);
    assert p.fromUtf8(p.utf8(text)) == Some(text);
  }

  lemma InputsRestored(p: Suite, v: Value, before: Option<Value>, key: Bytes, s: Sealer)
    requires Laws(p) && |key| == 32 && Fit(s)
    ensures OpenInputs(p, Some(Seal(p, p.printJson(v), key, s)), before, key) == Done(Some(v))
  {
    SealOpens(p, p.printJson(v), key, s);
    assert p.parseJson(p.printJson(v)) == Some(v);
  }

  /** `wire` is `a` with its three fields replaced by ones that open to the originals. */
  ghost predicate OpensTo(p: Suite, a: MercuryActivity, wire: MercuryActivity, key: Bytes) {
    var (o, w) := (a.obj, wire.obj);
    var r := FinalizeInputs(w);
    && wire == a.(obj := o.(displayName := w.displayName, content := w.content, inputs := w.inputs))
    && OpenText(p, w.displayName, key) == Done(o.displayName)
    && OpenText(p, w.content, key) == Done(o.content)
    && OpenInputs(p, r.inputsEncrypted, r.inputs, key) == Done(o.inputs)
  }

  /** What the other side makes of `wire` before it decrypts. */
  function Received(wire: MercuryActivity): MercuryActivity {
    wire.(obj := FinalizeInputs(wire.obj))
  }

  /** `a`, but for the encrypted inputs that stay in a received activity. */
  function Original(a: MercuryActivity, received: MercuryActivity): MercuryActivity {
    a.(obj := a.obj.(inputsEncrypted := received.obj.inputsEncrypted))
  }

  /** Receiving `wire` and decrypting it gives `a` back, under the key URL of `a`. */
  ghost predicate Restores(p: Suite, a: MercuryActivity, wire: MercuryActivity, key: Bytes) {
    var received := Received(wire);
    && KeyUrl(received) == KeyUrl(a)
    && OpenFields(p, received, key) == Done(Original(a, received))
  }

  lemma OpensThenRestores(p: Suite, a: MercuryActivity, wire: MercuryActivity, key: Bytes)
    requires OpensTo(p, a, wire, key)
    ensures Restores(p, a, wire, key)
  {
    var received := Received(wire);
    Assemble(p, received, key, a.obj.displayName, a.obj.content, a.obj.inputs);
  }

  lemma SealedOpens(p: Suite, a: MercuryActivity, key: Bytes, s: Sealer, t: Sealer, u: Sealer)
    requires Laws(p) && |key| == 32 && Fit(s) && Fit(t) && Fit(u) && a.obj.inputsEncrypted.None?
    ensures OpensTo(p, a, SealActivity(p, a, key, s, t, u), key)
  {
    var wire := SealActivity(p, a, key, s, t, u);
    NameRestored(p, a.obj.displayName, wire.obj.displayName, key, s);
    NameRestored(p, a.obj.content, wire.obj.content, key, t);
    InputsReceived(p, a.obj, wire.obj, key, u);
  }

  /**
   * Sealing an activity, receiving it and decrypting it under the same key
   * restores display name, content and inputs, and everything else as it was.
   */
  lemma SealedActivityRestored(p: Suite, a: MercuryActivity, key: Bytes, s: Sealer, t: Sealer, u: Sealer)
    requires Laws(p) && |key| == 32 && Fit(s) && Fit(t) && Fit(u) && a.obj.inputsEncrypted.None?
    ensures Restores(p, a, SealActivity(p, a, key, s, t, u), key)
  {
    SealedOpens(p, a, key, s, t, u);
    OpensThenRestores(p, a, SealActivity(p, a, key, s, t, u), key);
  }

  /**
   * End to end: once the key of its own key URL is to be had, decrypting a sealed
   * activity as received gives the original back, and the client is as the fetch left it.
   */
  lemma SealedActivityDecrypted(p: Suite, c: Kms.Client, env: Kms.CallEnv, a: MercuryActivity, key: Bytes,
                                s: Sealer, t: Sealer, u: Sealer)
    requires Laws(p) && |key| == 32 && Fit(s) && Fit(t) && Fit(u) && a.obj.inputsEncrypted.None?
    requires KeyUrl(a).Some? && Kms.GetKeySpec(c, KeyUrl(a).value, env).1 == Ok(key)
    ensures var received := Received(SealActivity(p, a, key, s, t, u));
            Decrypt(p, c, env, received) == (Kms.GetKeySpec(c, KeyUrl(a).value, env).0, Decrypted(Original(a, received)))
  {
    SealedActivityRestored(p, a, key, s, t, u);
  }

  lemma Assemble(p: Suite, r: MercuryActivity, key: Bytes, name: Option<string>, content: Option<string>, inputs: Option<Value>)
    requires OpenText(p, r.obj.displayName, key) == Done(name) && OpenText(p, r.obj.content, key) == Done(content)
    requires OpenInputs(p, r.obj.inputsEncrypted, r.obj.inputs, key) == Done(inputs)
    ensures OpenFields(p, r, key) == Done(r.(obj := r.obj.(displayName := name, content := content, inputs := inputs)))
  {
  }

  lemma InputsReceived(p: Suite, o: Object, wire: Object, key: Bytes, u: Sealer)
    requires Laws(p) && |key| == 32 && Fit(u) && wire.inputsEncrypted.None?
    requires wire.inputs == if o.inputs.Some? then Some(Str(Seal(p, p.printJson(o.inputs.value), key, u))) else None
    ensures var r := FinalizeInputs(wire); OpenInputs(p, r.inputsEncrypted, r.inputs, key) == Done(o.inputs)
  {
    if o.inputs.Some? {
      InputsRestored(p, o.inputs.value, None, key, u);
    }
  }

  lemma NameRestored(p: Suite, field: Option<string>, sealed: Option<string>, key: Bytes, s: Sealer)
    requires Laws(p) && |key| == 32 && Fit(s)
    requires sealed == if field.Some? then Some(Seal(p, p.utf8(field.value), key, s)) else None
    ensures OpenText(p, sealed, key) == Done(field)
  {
    if field.Some? {
      TextRestored(p, field.value, key, s);
    }
  }
}
