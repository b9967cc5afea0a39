/** Decrypting activities with keys fetched over the KMS protocol. */
module ActivityRuns {
  import opened Common
  import opened Primitives
  import opened Activity
  import Kms
  import opened KmsProtocol
  import opened KmsRouting
  import opened KmsCall

  /** The key fetch of one decryption: a call in `s` and what happens until it returns. */
  ghost predicate FetchRun(s: Sys, uri: Kms.Uri, id: Kms.Id, es: seq<Event>, truth: Truth) {
    && Enabled(s, CallGetKey(uri, id))
    && IsRun(Step(s, CallGetKey(uri, id)), es)
    && Returns(Step(s, CallGetKey(uri, id)), es) && OrderlyRun(Step(s, CallGetKey(uri, id)), es, truth)
  }

  /** An answered call answers with the truth. */
  lemma FetchIsTrue(s: Sys, uri: Kms.Uri, id: Kms.Id, es: seq<Event>, truth: Truth) returns (env: Kms.CallEnv)
    requires KeysInv(s, truth) && FetchRun(s, uri, id, es, truth)
    ensures var u, answer := After(Step(s, CallGetKey(uri, id)), es), Kms.GetKeySpec(s.client, uri, env);
            && u.client == answer.0 && u.out == s.out + [Called(uri), Returned(uri, answer.1)]
            && env.entered == s.now && Grounded(env, s.now, u)
            && (answer.1.Ok? ==> answer.1.value == truth(uri))
  {
    var t := Step(s, CallGetKey(uri, id));
    StepKeys(s, CallGetKey(uri, id), truth);
    CachedRefinesDirect(t, es, truth);
    CallIsGetKey(s, uri, id, es);
    var u := After(t, es);
    env :| u.client == Kms.GetKeySpec(s.client, uri, env).0
           && u.out == s.out + [Called(uri), Returned(uri, Kms.GetKeySpec(s.client, uri, env).1)]
           && env.entered == s.now && Grounded(env, s.now, u);
    var answer := Kms.GetKeySpec(s.client, uri, env).1;
    if answer.Ok? {
      assert u.out[|u.out| - 1] == Returned(uri, answer);
      DirectAnswersTrue(u.out, truth, Returned(uri, answer));
    }
  }

  /**
   * After any orderly run and during any further one, an activity sealed under the
   * KMS's own key for its URL is restored by every decryption whose key fetch succeeds.
   */
  lemma SealedUnderTruth(p: Suite, before: seq<Event>, id: Kms.Id, es: seq<Event>, truth: Truth,
                         a: MercuryActivity, x: Sealer, y: Sealer, z: Sealer)
    requires IsRun(INITIAL, before) && OrderlyRun(INITIAL, before, truth)
    requires KeyUrl(a).Some? && FetchRun(After(INITIAL, before), KeyUrl(a).value, id, es, truth)
    requires Laws(p) && |truth(KeyUrl(a).value)| == 32 && Fit(x) && Fit(y) && Fit(z) && a.obj.inputsEncrypted.None?
    ensures var s, uri := After(INITIAL, before), KeyUrl(a).value;
            var u := After(Step(s, CallGetKey(uri, id)), es);
            var received := Received(SealActivity(p, a, truth(uri), x, y, z));
            exists env: Kms.CallEnv ::
              && env.entered == s.now && Grounded(env, s.now, u)
              && u.out == s.out + [Called(uri), Returned(uri, Kms.GetKeySpec(s.client, uri, env).1)]
              && Decrypt(p, s.client, env, received).0 == u.client
              && (Kms.GetKeySpec(s.client, uri, env).1.Ok? ==>
                    Decrypt(p, s.client, env, received).1 == Decrypted(Original(a, received)))
  {
    var s, uri := After(INITIAL, before), KeyUrl(a).value;
    CachedRefinesDirect(INITIAL, before, truth);
    var env := FetchIsTrue(s, uri, id, es, truth);
    var wire := SealActivity(p, a, truth(uri), x, y, z);
    SealedActivityRestored(p, a, truth(uri), x, y, z);
    assert KeyUrl(Received(wire)) == KeyUrl(a);
    if Kms.GetKeySpec(s.client, uri, env).1.Ok? {
      SealedActivityDecrypted(p, s.client, env, a, truth(uri), x, y, z);
    }
  }
}
