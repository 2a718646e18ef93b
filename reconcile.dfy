/** The webhook-certificate job as it runs: each method issues its get/create/update calls to a
    `Kube.Cluster` in the order the job does, and is proved to leave the server, the write log
    and its error as the matching step function of module Certificates says. */
module Reconcile {
  import opened Kube
  import opened Certificates

  /** hasRequiredKeys: the data map is non-nil and holds both key names; the values are not
      looked at, so empty byte strings count as present. */
  method HasRequiredKeys(data: Option<map<string, Bytes>>) returns (ok: bool)
    ensures ok <==> data.Some? && CertName in data.value && KeyName in data.value
  {
    if data.None? {
      return false;
    }
    var i := 0;
    while i < |RequiredKeys|
      invariant 0 <= i <= |RequiredKeys|
      invariant forall j | 0 <= j < i :: RequiredKeys[j] in data.value
    {
      if RequiredKeys[i] !in data.value {
        return false;
      }
      i := i + 1;
    }
    assert RequiredKeys[0] in data.value && RequiredKeys[1] in data.value;
    return true;
  }

  /** isValidSecret: a secret missing a key is invalid without an error and without either
      check being run; otherwise the certificate is checked first, then the key. */
  method IsValidSecret(crypto: Crypto, s: Secret) returns (valid: bool, err: Option<Error>)
    ensures valid <==> SecretValid(crypto, s.data)
    ensures valid ==> err.None?
    ensures !RequiredKeysPresent(s.data) ==> err.None?
    ensures RequiredKeysPresent(s.data) && !crypto.certVerifies(s.data.value[CertName]) ==>
      err == Some(CertificateInvalid)
    ensures (RequiredKeysPresent(s.data) && crypto.certVerifies(s.data.value[CertName])
             && !KeyUsable(crypto, s.data.value[KeyName])) ==> err == Some(KeyInvalid)
  {
    var present := HasRequiredKeys(s.data);
    if !present {
      return false, None;
    }
    if !crypto.certVerifies(s.data.value[CertName]) {
      return false, Some(CertificateInvalid);
    }
    var keyErr := VerifyKey(crypto, s.data.value[KeyName]);
    if keyErr.Some? {
      return false, keyErr;
    }
    return true, None;
  }

  /** addCertToConversionWebhook: fetch the APIRule CRD, check that it carries a conversion
      webhook client configuration, set its CA bundle and update the CRD. */
  method AddCertToConversionWebhook(client: Cluster, caBundle: Bytes) returns (err: Option<Error>)
    requires client.Valid()
    modifies client
    ensures client.Valid()
    ensures var r := Patch(old(client.State()), client.rejects, caBundle);
      client.State() == r.world && client.log == old(client.log) + r.writes && err == r.err
  {
    var got := client.GetCrd(APIRuleCRDName);
    if got.Err? {
      return Some(CrdReadFailed(got.error));
    }
    var crd := got.value;
    var (contains, msg) := ContainsConversionWebhookClientConfig(crd);
    if !contains {
      return Some(CrdNotInjectable(msg));
    }
    crd := WithCaBundle(crd, caBundle);
    var e := client.UpdateCrd(crd);
    if e.Some? {
      return Some(CrdUpdateFailed(e.value));
    }
    return None;
  }

  /** createSecret: generate a pair, create the secret, then propagate the certificate. A failed
      create stops before the CRD is touched. */
  method CreateSecret(client: Cluster, crypto: Crypto, name: string, namespace: string, serviceName: string)
    returns (err: Option<Error>)
    requires client.Valid()
    modifies client
    ensures client.Valid()
    ensures var r := CreateStep(old(client.State()), client.rejects, crypto, name, namespace, serviceName);
      client.State() == r.world && client.log == old(client.log) + r.writes && err == r.err
  {
    var gen := GenerateWebhookCertificates(crypto, serviceName, namespace);
    if gen.None? {
      return Some(GenerationFailed);
    }
    var secret := BuildSecret(name, namespace, gen.value.cert, gen.value.key);
    var e := client.CreateSecret(secret);
    if e.Some? {
      return Some(SecretCreateFailed(e.value));
    }
    err := AddCertToConversionWebhook(client, gen.value.cert);
  }

  /** updateSecret: a valid secret is left alone; otherwise its whole data map is replaced by a
      fresh pair, the secret is updated, and the certificate is propagated. */
  method UpdateSecret(client: Cluster, crypto: Crypto, secret: Secret, serviceName: string)
    returns (err: Option<Error>)
    requires client.Valid() && KeyOf(secret) in client.secrets
    modifies client
    ensures client.Valid()
    ensures var r := RotateStep(old(client.State()), client.rejects, crypto, secret, serviceName);
      client.State() == r.world && client.log == old(client.log) + r.writes && err == r.err
  {
    var valid, _ := IsValidSecret(crypto, secret);
    if valid {
      return None;
    }
    var gen := GenerateWebhookCertificates(crypto, serviceName, secret.meta.namespace);
    if gen.None? {
      return Some(GenerationFailed);
    }
    var rebuilt := BuildSecret(secret.meta.name, secret.meta.namespace, gen.value.cert, gen.value.key);
    var updated := secret.(data := rebuilt.data);
    var e := client.UpdateSecret(updated);
    if e.Some? {
      return Some(SecretUpdateFailed(e.value));
    }
    err := AddCertToConversionWebhook(client, gen.value.cert);
  }

  /** ensureWebhookCertificate: the job's reconciliation of the webhook's TLS secret. */
  method EnsureWebhookCertificate(client: Cluster, crypto: Crypto, secretName: string, secretNamespace: string,
                                  serviceName: string) returns (err: Option<Error>)
    requires client.Valid()
    modifies client
    ensures client.Valid()
    ensures var r := EnsureStep(old(client.State()), client.rejects, crypto, secretName, secretNamespace, serviceName);
      client.State() == r.world && client.log == old(client.log) + r.writes && err == r.err
  {
    var got := client.GetSecret(ObjectKey(secretNamespace, secretName));
    if got.Err? && got.error != NotFound {
      return Some(SecretReadFailed(got.error));
    }
    if got.Err? {
      err := CreateSecret(client, crypto, secretName, secretNamespace, serviceName);
      return;
    }
    err := UpdateSecret(client, crypto, got.value, serviceName);
  }

  /** Two runs in a row against the same server: once the first has put the secret in place,
      the second issues no write and succeeds, even if the first could not patch the CRD. */
  method EnsureTwice(client: Cluster, crypto: Crypto, secretName: string, secretNamespace: string,
                     serviceName: string) returns (first: Option<Error>, second: Option<Error>, ghost between: seq<Write>)
    requires client.Valid() && GeneratesValid(crypto, serviceName, secretNamespace)
    modifies client
    ensures client.Valid()
    ensures first.None? || first.value.IsCrdError() ==> second.None? && client.log == between
  {
    first := EnsureWebhookCertificate(client, crypto, secretName, secretNamespace, serviceName);
    between := client.log;
    if first.None? || first.value.IsCrdError() {
      ReconcileIdempotent(old(client.State()), client.rejects, crypto, secretName, secretNamespace, serviceName);
    }
    second := EnsureWebhookCertificate(client, crypto, secretName, secretNamespace, serviceName);
  }
}
