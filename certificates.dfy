/** The decision logic of the webhook-certificate job: the service's DNS identities, the
    validity check of a stored TLS secret, the CRD's CA-bundle precondition and patch, and the
    create / rotate / no-op reconciliation, each as a function of what the API server stores.
    The methods in module Reconcile perform these steps against a `Kube.Cluster`. */
module Certificates {
  import opened Kube

  const CertName := "tls.crt"
  const KeyName := "tls.key"
  const APIRuleCRDName := "apirules.gateway.kyma-project.io"

  const SecretNamespace := "cert-gen"
  const SecretName := "api-gateway-webhook-service"
  const ServiceName := "api-gateway-webhook-service"

  /** The keys a TLS secret must hold, in the order they are checked. */
  const RequiredKeys: seq<string> := [CertName, KeyName]

  const ConversionMissing := "conversion not found in APIRule CRD"
  const WebhookMissing := "conversion webhook not found in APIRule CRD"
  const ClientConfigMissing := "client config for conversion webhook not found in APIRule CRD"

  datatype Error =
    | SecretReadFailed(cause: ApiError)
    | GenerationFailed
    | SecretCreateFailed(cause: ApiError)
    | SecretUpdateFailed(cause: ApiError)
    | CrdReadFailed(cause: ApiError)
    | CrdNotInjectable(message: string)
    | CrdUpdateFailed(cause: ApiError)
    | CertificateInvalid
    | KeyInvalid
  {
    /** Failures of the CA-bundle propagation, which come after the secret is written. */
    predicate IsCrdError() {
      CrdReadFailed? || CrdNotInjectable? || CrdUpdateFailed?
    }
  }

  // ---------------------------------------------------------------------------------------
  // Identities

  /** Go's strings.Join. */
  function Join(elems: seq<string>, sep: string): (r: string)
  {
    if |elems| == 0 then ""
    else if |elems| == 1 then elems[0]
    else elems[0] + sep + Join(elems[1..], sep)
  }

  lemma JoinPair(a: string, b: string, sep: string)
    ensures Join([a, b], sep) == a + sep + b
  {
    assert [a, b][1..] == [b];
  }

  /** The DNS names the webhook's certificate is issued for; the first is its Common Name. */
  function ServiceAltNames(serviceName: string, namespace: string): (names: seq<string>)
    ensures |names| == 4
    ensures names[1] == serviceName
    ensures names[2] == serviceName + "." + namespace
    ensures names[0] == names[2] + ".svc"
    ensures names[3] == names[0] + ".cluster.local"
    ensures forall i, j | 0 <= i < j < |names| :: names[i] != names[j]
  {
    JoinPair(serviceName, namespace, ".");
    var namespacedServiceName := Join([serviceName, namespace], ".");
    JoinPair(namespacedServiceName, "svc", ".");
    var commonName := Join([namespacedServiceName, "svc"], ".");
    var serviceHostname := serviceName + "." + namespace + ".svc.cluster.local";
    [commonName, serviceName, namespacedServiceName, serviceHostname]
  }

  // ---------------------------------------------------------------------------------------
  // Cryptography, as oracles

  datatype KeyPair = KeyPair(cert: Bytes, key: Bytes)

  /** A request for a self-signed certificate: the host (Common Name) and the DNS alt names. */
  datatype CertRequest = CertRequest(host: string, alternateDNS: seq<string>)

  /** The X.509 and RSA library calls the job makes, as uninterpreted functions.
      `certVerifies` parses PEM certificates and verifies the first against the bundle itself,
      at ten days from now; `pemDecode` yields the first PEM block's bytes, or None where Go's
      decoder returns a nil block; `pkcs1Valid` parses PKCS#1 DER bytes and runs the key's
      consistency check; `generate` produces a fresh self-signed pair, or fails. */
  datatype Crypto = Crypto(
    certVerifies: Bytes -> bool,
    pemDecode: Bytes -> Option<Bytes>,
    pkcs1Valid: Bytes -> bool,
    generate: CertRequest -> Option<KeyPair>)

  function WebhookCertRequest(serviceName: string, namespace: string): (req: CertRequest)
    ensures req.alternateDNS == ServiceAltNames(serviceName, namespace)
    ensures req.host == serviceName + "." + namespace + ".svc" && req.host == req.alternateDNS[0]
  {
    var altNames := ServiceAltNames(serviceName, namespace);
    CertRequest(altNames[0], altNames)
  }

  /** generateWebhookCertificates, reached through createCABundle, createCert and buildCert,
      which pass the namespace and the service name on in swapped order: the pair is the
      generator's answer for the Common Name `service.namespace.svc` and the service's four
      DNS names. */
  function GenerateWebhookCertificates(crypto: Crypto, serviceName: string, namespace: string): (r: Option<KeyPair>)
    ensures r == crypto.generate(CertRequest(serviceName + "." + namespace + ".svc", ServiceAltNames(serviceName, namespace)))
  {
    crypto.generate(WebhookCertRequest(serviceName, namespace))
  }

  predicate KeyUsable(crypto: Crypto, k: Bytes) {
    crypto.pemDecode(k).Some? && crypto.pkcs1Valid(crypto.pemDecode(k).value)
  }

  /** Certificate and key both pass their checks. */
  predicate MaterialValid(crypto: Crypto, certificate: Bytes, key: Bytes) {
    crypto.certVerifies(certificate) && KeyUsable(crypto, key)
  }

  /** Freshly generated material for this service passes the checks (an assumption about the
      library, needed for idempotence). */
  predicate GeneratesValid(crypto: Crypto, serviceName: string, namespace: string) {
    var gen := GenerateWebhookCertificates(crypto, serviceName, namespace);
    gen.Some? ==> MaterialValid(crypto, gen.value.cert, gen.value.key)
  }

  // ---------------------------------------------------------------------------------------
  // Validity of a stored secret

  predicate RequiredKeysPresent(data: Option<map<string, Bytes>>) {
    data.Some? && CertName in data.value && KeyName in data.value
  }

  /** The secret holds both keys and both pass their checks. */
  predicate SecretValid(crypto: Crypto, data: Option<map<string, Bytes>>) {
    RequiredKeysPresent(data) && MaterialValid(crypto, data.value[CertName], data.value[KeyName])
  }

  /** The key check as written: the PEM block is dereferenced without a nil check. */
  datatype KeyCheck = KeyAccepted | KeyRejected | KeyPanics

  function VerifyKeyAsWritten(crypto: Crypto, k: Bytes): (r: KeyCheck)
    ensures r == KeyPanics <==> crypto.pemDecode(k).None?
    ensures r == KeyAccepted <==> KeyUsable(crypto, k)
  {
    match crypto.pemDecode(k)
    case None => KeyPanics
    case Some(der) => if crypto.pkcs1Valid(der) then KeyAccepted else KeyRejected
  }

  /** The key check with the missing nil check added: bytes holding no PEM block are rejected. */
  function VerifyKey(crypto: Crypto, k: Bytes): (err: Option<Error>)
    ensures err.None? <==> KeyUsable(crypto, k)
    ensures err.Some? ==> err.value == KeyInvalid
  {
    match crypto.pemDecode(k)
    case None => Some(KeyInvalid)
    case Some(der) => if crypto.pkcs1Valid(der) then None else Some(KeyInvalid)
  }

  datatype Verdict = Valid | Invalid | Panic

  /** The secret check as written, with the key check that can panic. */
  function IsValidSecretAsWritten(crypto: Crypto, data: Option<map<string, Bytes>>): (v: Verdict)
    ensures v == Valid <==> SecretValid(crypto, data)
    ensures v == Panic <==> RequiredKeysPresent(data) && crypto.certVerifies(data.value[CertName])
                            && crypto.pemDecode(data.value[KeyName]).None?
  {
    if !RequiredKeysPresent(data) then Invalid
    else if !crypto.certVerifies(data.value[CertName]) then Invalid
    else match VerifyKeyAsWritten(crypto, data.value[KeyName])
      case KeyAccepted => Valid
      case KeyRejected => Invalid
      case KeyPanics => Panic
  }

  /** A secret whose certificate verifies and whose key bytes hold no PEM block (an empty
      `tls.key`, say) makes the check as written panic; the corrected check calls it invalid,
      so the reconciliation rotates it. */
  lemma NonPemKeyPanics(crypto: Crypto, certificate: Bytes, key: Bytes, extra: map<string, Bytes>)
    requires crypto.certVerifies(certificate) && crypto.pemDecode(key).None?
    ensures var data := Some(extra[CertName := certificate][KeyName := key]);
      IsValidSecretAsWritten(crypto, data) == Panic && !SecretValid(crypto, data)
  {
    var m := extra[CertName := certificate][KeyName := key];
    assert CertName != KeyName by { assert CertName[4] != KeyName[4]; }
    assert m[CertName] == certificate && m[KeyName] == key;
  }

  // ---------------------------------------------------------------------------------------
  // Secret and CRD records

  function BuildSecret(name: string, namespace: string, certificate: Bytes, key: Bytes): (s: Secret)
    ensures s.meta.name == name && s.meta.namespace == namespace && s.meta.labels == map[]
    ensures KeyOf(s) == ObjectKey(namespace, name)
    ensures s.data.Some? && s.data.value.Keys == {CertName, KeyName}
    ensures s.data.value[CertName] == certificate && s.data.value[KeyName] == key
    ensures RequiredKeysPresent(s.data)
  {
    assert CertName != KeyName by { assert CertName[4] != KeyName[4]; }
    Secret(ObjectMeta(name, namespace, map[]), Some(map[CertName := certificate, KeyName := key]))
  }

  /** The CRD declares a conversion strategy, a webhook and a client configuration. */
  predicate Injectable(crd: Crd) {
    crd.spec.conversion.Some? && crd.spec.conversion.value.webhook.Some?
    && crd.spec.conversion.value.webhook.value.clientConfig.Some?
  }

  function ContainsConversionWebhookClientConfig(crd: Crd): (r: (bool, string))
    ensures r.0 <==> Injectable(crd)
    ensures r.0 ==> r.1 == ""
    ensures crd.spec.conversion.None? ==> r == (false, ConversionMissing)
    ensures crd.spec.conversion.Some? && crd.spec.conversion.value.webhook.None? ==> r == (false, WebhookMissing)
    ensures (crd.spec.conversion.Some? && crd.spec.conversion.value.webhook.Some?
             && crd.spec.conversion.value.webhook.value.clientConfig.None?) ==> r == (false, ClientConfigMissing)
  {
    if crd.spec.conversion.None? then (false, ConversionMissing)
    else if crd.spec.conversion.value.webhook.None? then (false, WebhookMissing)
    else if crd.spec.conversion.value.webhook.value.clientConfig.None? then (false, ClientConfigMissing)
    else (true, "")
  }

  function CaBundleOf(crd: Crd): (b: Option<Bytes>)
    ensures b.Some? <==> Injectable(crd)
  {
    if Injectable(crd) then Some(crd.spec.conversion.value.webhook.value.clientConfig.value.caBundle)
    else None
  }

  /** The CRD with its conversion webhook's CA bundle set to `caBundle`. */
  function WithCaBundle(crd: Crd, caBundle: Bytes): (r: Crd)
    requires Injectable(crd)
    ensures Injectable(r) && CaBundleOf(r) == Some(caBundle)
    ensures r.meta == crd.meta
  {
    var conversion := crd.spec.conversion.value;
    var webhook := conversion.webhook.value;
    var clientConfig := webhook.clientConfig.value;
    var clientConfig' := clientConfig.(caBundle := caBundle);
    var webhook' := webhook.(clientConfig := Some(clientConfig'));
    var conversion' := conversion.(webhook := Some(webhook'));
    crd.(spec := crd.spec.(conversion := Some(conversion')))
  }

  /** Setting the CA bundle back to its old value restores the CRD: nothing else changed. */
  lemma WithCaBundleRestores(crd: Crd, caBundle: Bytes)
    requires Injectable(crd)
    ensures WithCaBundle(WithCaBundle(crd, caBundle), CaBundleOf(crd).value) == crd
  {
  }

  /** `a` and `b` agree everywhere except, perhaps, in the CA bundle. */
  predicate SameExceptCaBundle(a: Crd, b: Crd) {
    Injectable(a) && Injectable(b) && WithCaBundle(a, []) == WithCaBundle(b, [])
  }

  // ---------------------------------------------------------------------------------------
  // The reconciliation, step by step, as functions of the stored objects

  /** What a step leaves on the server, the writes it issued, and its error. */
  datatype Step = Step(world: World, writes: seq<Write>, err: Option<Error>)

  /** The writes of a CA-bundle propagation carrying `caBundle`: at most one CRD update. */
  predicate PatchWrites(writes: seq<Write>, caBundle: Bytes) {
    |writes| <= 1 && forall i | 0 <= i < |writes| :: writes[i].UpdatedCrd? && CaBundleOf(writes[i].crd) == Some(caBundle)
  }

  /** Fetch the APIRule CRD, check its conversion webhook, set the CA bundle, update it. */
  function Patch(w: World, rejects: set<Verb>, caBundle: Bytes): (r: Step)
    ensures r.world.secrets == w.secrets
    ensures PatchWrites(r.writes, caBundle)
    ensures r.err.None? || r.err.value.IsCrdError()
    ensures r.err.Some? ==> r.world == w
    ensures ReadCrd(w, rejects, APIRuleCRDName).Err? ==> r == Step(w, [], Some(CrdReadFailed(ReadCrd(w, rejects, APIRuleCRDName).error)))
    ensures ReadCrd(w, rejects, APIRuleCRDName).Ok? && !Injectable(w.crd.value) ==>
      r == Step(w, [], Some(CrdNotInjectable(ContainsConversionWebhookClientConfig(w.crd.value).1)))
    // an injectable CRD is always sent back once, with only its CA bundle set, and the update
    // fails exactly when the server refuses it
    ensures ReadCrd(w, rejects, APIRuleCRDName).Ok? && Injectable(w.crd.value) ==>
      r.writes == [UpdatedCrd(WithCaBundle(w.crd.value, caBundle))]
      && (r.err.None? <==> CrdUpdate !in rejects)
      && (r.err.Some? ==> r.err == Some(CrdUpdateFailed(Rejected)))
    ensures forall i | 0 <= i < |r.writes| :: w.crd.Some? && SameExceptCaBundle(w.crd.value, r.writes[i].crd)
    ensures r.writes == [] ==> r.world == w
    ensures r.err.None? ==>
      (r.writes != [] && w.crd.Some? && r.world.crd.Some?
       && CaBundleOf(r.world.crd.value) == Some(caBundle) && SameExceptCaBundle(w.crd.value, r.world.crd.value))
  {
    match ReadCrd(w, rejects, APIRuleCRDName)
    case Err(e) => Step(w, [], Some(CrdReadFailed(e)))
    case Ok(crd) =>
      var (contains, msg) := ContainsConversionWebhookClientConfig(crd);
      if !contains then Step(w, [], Some(CrdNotInjectable(msg)))
      else
        var patched := WithCaBundle(crd, caBundle);
        var (w', e) := UpdateCrdIn(w, rejects, patched);
        Step(w', [UpdatedCrd(patched)], if e.Some? then Some(CrdUpdateFailed(e.value)) else None)
  }

  /** A secret write issued for `key` followed by the propagation of its certificate. */
  predicate SecretThenPatch(writes: seq<Write>, key: ObjectKey) {
    1 <= |writes| && (writes[0].CreatedSecret? || writes[0].UpdatedSecret?)
    && KeyOf(writes[0].secret) == key && RequiredKeysPresent(writes[0].secret.data)
    && PatchWrites(writes[1..], writes[0].secret.data.value[CertName])
  }

  /** The server after `s` was stored under its own key. */
  function Stored(w: World, s: Secret): World {
    World(w.secrets[KeyOf(s) := s], w.crd)
  }

  /** createSecret: generate a pair, create the secret holding it, then propagate the
      certificate to the CRD. */
  function CreateStep(w: World, rejects: set<Verb>, crypto: Crypto, name: string, namespace: string,
                      serviceName: string): (r: Step)
    requires w.Valid()
    ensures r.world.Valid()
    ensures r.writes == [] ==> r.world == w
    ensures var gen := GenerateWebhookCertificates(crypto, serviceName, namespace);
      (gen.None? ==> r == Step(w, [], Some(GenerationFailed)))
      && (gen.Some? ==>
            var s := BuildSecret(name, namespace, gen.value.cert, gen.value.key);
            SecretThenPatch(r.writes, ObjectKey(namespace, name))
            && r.writes[0] == CreatedSecret(s)
            // a refused create stops the run before the CRD is read
            && (SecretCreate in rejects ==> r == Step(w, [CreatedSecret(s)], Some(SecretCreateFailed(Rejected))))
            && (SecretCreate !in rejects && KeyOf(s) in w.secrets ==>
                  r == Step(w, [CreatedSecret(s)], Some(SecretCreateFailed(AlreadyExists))))
            // an accepted create is followed by exactly the patch of the new certificate
            && (SecretCreate !in rejects && KeyOf(s) !in w.secrets ==>
                  var p := Patch(Stored(w, s), rejects, gen.value.cert);
                  r.writes[1..] == p.writes && r.world == p.world && r.err == p.err)
            && (r.err.None? || r.err.value.IsCrdError() ==>
                  r.world.secrets == w.secrets[ObjectKey(namespace, name) := r.writes[0].secret]))
    ensures r.err.Some? && (r.err.value.SecretCreateFailed? || r.err.value.SecretUpdateFailed?) ==>
      |r.writes| == 1 && r.world == w
    ensures r.writes != [] && (r.err.None? || r.err.value.IsCrdError()) ==>
      SecretThenPatch(r.writes, ObjectKey(namespace, name))
      && var p := Patch(Stored(w, r.writes[0].secret), rejects, r.writes[0].secret.data.value[CertName]);
      r.writes[1..] == p.writes && r.world == p.world && r.err == p.err
  {
    match GenerateWebhookCertificates(crypto, serviceName, namespace)
    case None => Step(w, [], Some(GenerationFailed))
    case Some(kp) =>
      var secret := BuildSecret(name, namespace, kp.cert, kp.key);
      var (w', e) := CreateSecretIn(w, rejects, secret);
      if e.Some? then Step(w', [CreatedSecret(secret)], Some(SecretCreateFailed(e.value)))
      else
        var p := Patch(w', rejects, kp.cert);
        Step(p.world, [CreatedSecret(secret)] + p.writes, p.err)
  }

  /** updateSecret: leave a valid secret alone; otherwise replace its data with a fresh pair,
      update it, then propagate the certificate to the CRD. */
  function RotateStep(w: World, rejects: set<Verb>, crypto: Crypto, secret: Secret, serviceName: string): (r: Step)
    requires w.Valid() && KeyOf(secret) in w.secrets
    ensures r.world.Valid()
    ensures r.writes == [] ==> r.world == w
    ensures SecretValid(crypto, secret.data) ==> r == Step(w, [], None)
    ensures var gen := GenerateWebhookCertificates(crypto, serviceName, secret.meta.namespace);
      !SecretValid(crypto, secret.data) ==>
        (gen.None? ==> r == Step(w, [], Some(GenerationFailed)))
        && (gen.Some? ==>
              var s := secret.(data := Some(map[CertName := gen.value.cert, KeyName := gen.value.key]));
              SecretThenPatch(r.writes, KeyOf(secret))
              && r.writes[0] == UpdatedSecret(s)
              // a refused update stops the run before the CRD is read
              && (SecretUpdate in rejects ==> r == Step(w, [UpdatedSecret(s)], Some(SecretUpdateFailed(Rejected))))
              // an accepted update is followed by exactly the patch of the new certificate
              && (SecretUpdate !in rejects ==>
                    var p := Patch(Stored(w, s), rejects, gen.value.cert);
                    r.writes[1..] == p.writes && r.world == p.world && r.err == p.err)
              && (r.err.None? || r.err.value.IsCrdError() ==>
                    r.world.secrets == w.secrets[KeyOf(secret) := r.writes[0].secret]))
    ensures r.err.Some? && (r.err.value.SecretCreateFailed? || r.err.value.SecretUpdateFailed?) ==>
      |r.writes| == 1 && r.world == w
    ensures r.writes != [] && (r.err.None? || r.err.value.IsCrdError()) ==>
      SecretThenPatch(r.writes, KeyOf(secret))
      && var p := Patch(Stored(w, r.writes[0].secret), rejects, r.writes[0].secret.data.value[CertName]);
      r.writes[1..] == p.writes && r.world == p.world && r.err == p.err
  {
    if SecretValid(crypto, secret.data) then Step(w, [], None)
    else match GenerateWebhookCertificates(crypto, serviceName, secret.meta.namespace)
      case None => Step(w, [], Some(GenerationFailed))
      case Some(kp) =>
        var rebuilt := BuildSecret(secret.meta.name, secret.meta.namespace, kp.cert, kp.key);
        var updated := secret.(data := rebuilt.data);
        var (w', e) := UpdateSecretIn(w, rejects, updated);
        if e.Some? then Step(w', [UpdatedSecret(updated)], Some(SecretUpdateFailed(e.value)))
        else
          var p := Patch(w', rejects, kp.cert);
          Step(p.world, [UpdatedSecret(updated)] + p.writes, p.err)
  }

  /** ensureWebhookCertificate: read the secret; a read error other than not-found aborts,
      not-found creates it, and a found secret is rotated when it is invalid. */
  function EnsureStep(w: World, rejects: set<Verb>, crypto: Crypto, name: string, namespace: string,
                      serviceName: string): (r: Step)
    requires w.Valid()
    ensures r.world.Valid()
    // only the webhook's secret may change, and no secret is ever deleted
    ensures w.secrets.Keys <= r.world.secrets.Keys
    ensures forall k | k in w.secrets && k != ObjectKey(namespace, name) :: r.world.secrets[k] == w.secrets[k]
    // every run issues nothing, or one secret write followed by at most one CRD update
    // carrying that secret's certificate
    ensures r.writes == [] ==> r.world == w
    ensures r.writes == [] || SecretThenPatch(r.writes, ObjectKey(namespace, name))
    ensures var read := ReadSecret(w, rejects, ObjectKey(namespace, name));
      (read.Err? && read.error != NotFound ==> r == Step(w, [], Some(SecretReadFailed(read.error))))
      && (read.Ok? && SecretValid(crypto, read.value.data) ==> r == Step(w, [], None))
      && (read.Err? && read.error == NotFound && r.writes != [] ==> r.writes[0].CreatedSecret?)
      && (read.Ok? && r.writes != [] ==> r.writes[0].UpdatedSecret? && r.writes[0].secret.meta == read.value.meta)
    // a refused secret write changes nothing and is the run's only write; an accepted one is
    // followed by exactly the patch of the certificate it stored
    ensures r.err.Some? && (r.err.value.SecretCreateFailed? || r.err.value.SecretUpdateFailed?) ==>
      |r.writes| == 1 && r.world == w
    ensures r.writes != [] && (r.err.None? || r.err.value.IsCrdError()) ==>
      var p := Patch(Stored(w, r.writes[0].secret), rejects, r.writes[0].secret.data.value[CertName]);
      r.writes[1..] == p.writes && r.world == p.world && r.err == p.err
  {
    match ReadSecret(w, rejects, ObjectKey(namespace, name))
    case Err(e) =>
      if e != NotFound then Step(w, [], Some(SecretReadFailed(e)))
      else CreateStep(w, rejects, crypto, name, namespace, serviceName)
    case Ok(secret) =>
      assert KeyOf(secret) == ObjectKey(namespace, name);
      RotateStep(w, rejects, crypto, secret, serviceName)
  }

  /** A run that has to write the secret writes a fresh pair: a new secret built from it when
      none was found, or the found secret with its whole data map replaced by it. A failed
      generation stops the run with no write. */
  lemma FreshPairWritten(w: World, rejects: set<Verb>, crypto: Crypto, name: string, namespace: string,
                         serviceName: string)
    requires w.Valid()
    ensures var r := EnsureStep(w, rejects, crypto, name, namespace, serviceName);
      var read := ReadSecret(w, rejects, ObjectKey(namespace, name));
      var gen := GenerateWebhookCertificates(crypto, serviceName, namespace);
      (read == Err(NotFound) || (read.Ok? && !SecretValid(crypto, read.value.data)) ==>
         (gen.None? ==> r == Step(w, [], Some(GenerationFailed))))
      && (read == Err(NotFound) && gen.Some? ==>
            r.writes != [] && r.writes[0] == CreatedSecret(BuildSecret(name, namespace, gen.value.cert, gen.value.key)))
      && (read.Ok? && !SecretValid(crypto, read.value.data) && gen.Some? ==>
            r.writes != []
            && r.writes[0] == UpdatedSecret(read.value.(data := Some(map[CertName := gen.value.cert, KeyName := gen.value.key]))))
    // a refused secret write ends the run; an accepted one is followed by exactly the patch
    ensures var r := EnsureStep(w, rejects, crypto, name, namespace, serviceName);
      var read := ReadSecret(w, rejects, ObjectKey(namespace, name));
      var gen := GenerateWebhookCertificates(crypto, serviceName, namespace);
      read == Err(NotFound) && gen.Some? ==>
        var s := BuildSecret(name, namespace, gen.value.cert, gen.value.key);
        var p := Patch(Stored(w, s), rejects, gen.value.cert);
        (SecretCreate in rejects ==> r == Step(w, [CreatedSecret(s)], Some(SecretCreateFailed(Rejected))))
        && (SecretCreate !in rejects ==> r.writes[1..] == p.writes && r.world == p.world && r.err == p.err)
    ensures var r := EnsureStep(w, rejects, crypto, name, namespace, serviceName);
      var read := ReadSecret(w, rejects, ObjectKey(namespace, name));
      var gen := GenerateWebhookCertificates(crypto, serviceName, namespace);
      read.Ok? && !SecretValid(crypto, read.value.data) && gen.Some? ==>
        var s := read.value.(data := Some(map[CertName := gen.value.cert, KeyName := gen.value.key]));
        var p := Patch(Stored(w, s), rejects, gen.value.cert);
        (SecretUpdate in rejects ==> r == Step(w, [UpdatedSecret(s)], Some(SecretUpdateFailed(Rejected))))
        && (SecretUpdate !in rejects ==> r.writes[1..] == p.writes && r.world == p.world && r.err == p.err)
  {
    var read := ReadSecret(w, rejects, ObjectKey(namespace, name));
    if read.Ok? {
      assert KeyOf(read.value) == ObjectKey(namespace, name);
    } else if read == Err(NotFound) {
      assert KeyOf(BuildSecret(name, namespace, [], [])) == ObjectKey(namespace, name);
    }
  }

  /** A run that wrote the secret and then succeeded leaves the CRD trusting the stored
      certificate. */
  lemma SuccessfulRunTrustsSecret(w: World, rejects: set<Verb>, crypto: Crypto, name: string, namespace: string,
                                  serviceName: string)
    requires w.Valid()
    ensures var r := EnsureStep(w, rejects, crypto, name, namespace, serviceName);
      r.err.None? && r.writes != [] ==>
        ObjectKey(namespace, name) in r.world.secrets && r.world.crd.Some?
        && r.world.secrets[ObjectKey(namespace, name)] == r.writes[0].secret
        && RequiredKeysPresent(r.world.secrets[ObjectKey(namespace, name)].data)
        && CaBundleOf(r.world.crd.value) == Some(r.world.secrets[ObjectKey(namespace, name)].data.value[CertName])
  {
    var r := EnsureStep(w, rejects, crypto, name, namespace, serviceName);
    if r.err.None? && r.writes != [] {
      var s := r.writes[0].secret;
      var p := Patch(Stored(w, s), rejects, s.data.value[CertName]);
      assert r.world == p.world && p.err.None?;
      assert KeyOf(s) == ObjectKey(namespace, name);
    }
  }

  /** Once a run has the secret in place (its CRD patch may have failed), the stored secret
      passes the checks, provided freshly generated material does. */
  lemma StoredSecretValid(w: World, rejects: set<Verb>, crypto: Crypto, name: string, namespace: string,
                          serviceName: string)
    requires w.Valid()
    ensures var r := EnsureStep(w, rejects, crypto, name, namespace, serviceName);
      (r.err.None? || r.err.value.IsCrdError()) && GeneratesValid(crypto, serviceName, namespace) ==>
        ObjectKey(namespace, name) in r.world.secrets
        && SecretValid(crypto, r.world.secrets[ObjectKey(namespace, name)].data)
  {
    var r := EnsureStep(w, rejects, crypto, name, namespace, serviceName);
    FreshPairWritten(w, rejects, crypto, name, namespace, serviceName);
    if (r.err.None? || r.err.value.IsCrdError()) && GeneratesValid(crypto, serviceName, namespace) && r.writes != [] {
      var s := r.writes[0].secret;
      var p := Patch(Stored(w, s), rejects, s.data.value[CertName]);
      assert r.world.secrets == p.world.secrets == Stored(w, s).secrets;
      assert KeyOf(s) == ObjectKey(namespace, name);
    }
  }

  /** Running the reconciliation again right after a run that put the secret in place, at the
      same clock reading, is a no-op, whether or not that run's CRD propagation succeeded. */
  lemma ReconcileIdempotent(w: World, rejects: set<Verb>, crypto: Crypto, name: string, namespace: string,
                            serviceName: string)
    requires w.Valid() && GeneratesValid(crypto, serviceName, namespace)
    requires var r := EnsureStep(w, rejects, crypto, name, namespace, serviceName);
      r.err.None? || r.err.value.IsCrdError()
    ensures var r := EnsureStep(w, rejects, crypto, name, namespace, serviceName);
      EnsureStep(r.world, rejects, crypto, name, namespace, serviceName) == Step(r.world, [], None)
  {
    StoredSecretValid(w, rejects, crypto, name, namespace, serviceName);
  }

  /** A stored secret whose certificate verifies but whose key bytes hold no PEM block is
      rotated: one update replacing its data with the fresh pair, then exactly the CRD patch
      of the fresh certificate. */
  lemma CorruptedKeyIsRotated(w: World, rejects: set<Verb>, crypto: Crypto, name: string, namespace: string,
                              serviceName: string)
    requires w.Valid() && SecretGet !in rejects
    requires ObjectKey(namespace, name) in w.secrets
    requires var data := w.secrets[ObjectKey(namespace, name)].data;
      RequiredKeysPresent(data) && crypto.certVerifies(data.value[CertName])
      && crypto.pemDecode(data.value[KeyName]).None?
    requires GenerateWebhookCertificates(crypto, serviceName, namespace).Some?
    ensures var r := EnsureStep(w, rejects, crypto, name, namespace, serviceName);
      var kp := GenerateWebhookCertificates(crypto, serviceName, namespace).value;
      var s := w.secrets[ObjectKey(namespace, name)].(data := Some(map[CertName := kp.cert, KeyName := kp.key]));
      var p := Patch(Stored(w, s), rejects, kp.cert);
      (SecretUpdate in rejects ==> r == Step(w, [UpdatedSecret(s)], Some(SecretUpdateFailed(Rejected))))
      && (SecretUpdate !in rejects ==> r == Step(p.world, [UpdatedSecret(s)] + p.writes, p.err))
  {
  }

  /** One run of the job per entry of `cryptos`, in order, against the same server: the server
      afterwards, all writes in order, and the first error any run reported. Each run has its
      own oracles, so its own clock for the ten-days-ahead verification. */
  function Runs(w: World, rejects: set<Verb>, cryptos: seq<Crypto>, name: string, namespace: string,
                serviceName: string): (r: Step)
    requires w.Valid()
    ensures r.world.Valid()
    ensures r.writes == [] ==> r.world == w
    ensures w.secrets.Keys <= r.world.secrets.Keys
    ensures forall k | k in w.secrets && k != ObjectKey(namespace, name) :: r.world.secrets[k] == w.secrets[k]
    decreases |cryptos|
  {
    if cryptos == [] then Step(w, [], None)
    else
      var first := EnsureStep(w, rejects, cryptos[0], name, namespace, serviceName);
      var rest := Runs(first.world, rejects, cryptos[1..], name, namespace, serviceName);
      Step(rest.world, first.writes + rest.writes, if first.err.Some? then first.err else rest.err)
  }

  /** A sequence of one run is that run. */
  lemma SingleRun(w: World, rejects: set<Verb>, crypto: Crypto, name: string, namespace: string,
                  serviceName: string)
    requires w.Valid()
    ensures Runs(w, rejects, [crypto], name, namespace, serviceName)
            == EnsureStep(w, rejects, crypto, name, namespace, serviceName)
  {
    var first := EnsureStep(w, rejects, crypto, name, namespace, serviceName);
    assert [crypto][1..] == [];
    assert first.writes + [] == first.writes;
  }

  /** A run at whose clock the stored secret still verifies can be dropped from a sequence. */
  lemma SkipQuietRun(w: World, rejects: set<Verb>, cryptos: seq<Crypto>, name: string, namespace: string,
                     serviceName: string)
    requires w.Valid() && SecretGet !in rejects && ObjectKey(namespace, name) in w.secrets && cryptos != []
    requires SecretValid(cryptos[0], w.secrets[ObjectKey(namespace, name)].data)
    ensures Runs(w, rejects, cryptos, name, namespace, serviceName)
            == Runs(w, rejects, cryptos[1..], name, namespace, serviceName)
  {
    var rest := Runs(w, rejects, cryptos[1..], name, namespace, serviceName);
    assert [] + rest.writes == rest.writes;
  }

  /** While the stored secret still verifies at each run's clock, any number of runs write
      nothing and succeed, so a CRD whose CA bundle was changed behind the job's back is not
      repaired before the certificate itself has to be replaced. */
  lemma {:induction false} StableOnceValid(w: World, rejects: set<Verb>, cryptos: seq<Crypto>, name: string,
                                           namespace: string, serviceName: string)
    requires w.Valid() && SecretGet !in rejects && ObjectKey(namespace, name) in w.secrets
    requires forall i | 0 <= i < |cryptos| :: SecretValid(cryptos[i], w.secrets[ObjectKey(namespace, name)].data)
    ensures Runs(w, rejects, cryptos, name, namespace, serviceName) == Step(w, [], None)
    decreases |cryptos|
  {
    if cryptos != [] {
      SkipQuietRun(w, rejects, cryptos, name, namespace, serviceName);
      assert forall i | 0 <= i < |cryptos[1..]| :: cryptos[1..][i] == cryptos[i + 1];
      StableOnceValid(w, rejects, cryptos[1..], name, namespace, serviceName);
    }
  }

  /** After a run that put the secret in place, further runs add no write and no change for as
      long as that secret still verifies at their clocks. */
  lemma RunsSettle(w: World, rejects: set<Verb>, cryptos: seq<Crypto>, name: string, namespace: string,
                   serviceName: string)
    requires w.Valid() && cryptos != [] && GeneratesValid(cryptos[0], serviceName, namespace)
    requires var r := EnsureStep(w, rejects, cryptos[0], name, namespace, serviceName);
      (r.err.None? || r.err.value.IsCrdError()) && ObjectKey(namespace, name) in r.world.secrets
      && forall i | 1 <= i < |cryptos| :: SecretValid(cryptos[i], r.world.secrets[ObjectKey(namespace, name)].data)
    ensures Runs(w, rejects, cryptos, name, namespace, serviceName)
            == EnsureStep(w, rejects, cryptos[0], name, namespace, serviceName)
  {
    var r := EnsureStep(w, rejects, cryptos[0], name, namespace, serviceName);
    assert SecretGet !in rejects;
    assert forall i | 0 <= i < |cryptos[1..]| :: cryptos[1..][i] == cryptos[i + 1];
    StableOnceValid(r.world, rejects, cryptos[1..], name, namespace, serviceName);
    assert r.writes + [] == r.writes;
  }

  /** While the stored secret verifies at the clocks of all runs but the last, the runs amount
      to the last run alone. */
  lemma {:induction false} QuietUntilLastRun(w: World, rejects: set<Verb>, cryptos: seq<Crypto>, name: string,
                                             namespace: string, serviceName: string)
    requires w.Valid() && SecretGet !in rejects && ObjectKey(namespace, name) in w.secrets && cryptos != []
    requires forall i | 0 <= i < |cryptos| - 1 :: SecretValid(cryptos[i], w.secrets[ObjectKey(namespace, name)].data)
    ensures Runs(w, rejects, cryptos, name, namespace, serviceName)
            == EnsureStep(w, rejects, cryptos[|cryptos| - 1], name, namespace, serviceName)
    decreases |cryptos|
  {
    if |cryptos| == 1 {
      assert cryptos == [cryptos[0]];
      SingleRun(w, rejects, cryptos[0], name, namespace, serviceName);
    } else {
      SkipQuietRun(w, rejects, cryptos, name, namespace, serviceName);
      assert cryptos[1..][|cryptos[1..]| - 1] == cryptos[|cryptos| - 1];
      assert forall i | 0 <= i < |cryptos[1..]| - 1 :: cryptos[1..][i] == cryptos[i + 1];
      QuietUntilLastRun(w, rejects, cryptos[1..], name, namespace, serviceName);
    }
  }

  /** The first run whose clock no longer accepts the stored secret is the one that replaces
      it: the runs up to it amount to that one run, which begins with the update of the
      secret to a fresh pair. */
  lemma RotatedOnceExpired(w: World, rejects: set<Verb>, cryptos: seq<Crypto>, name: string,
                           namespace: string, serviceName: string)
    requires w.Valid() && SecretGet !in rejects && ObjectKey(namespace, name) in w.secrets && cryptos != []
    requires forall i | 0 <= i < |cryptos| - 1 :: SecretValid(cryptos[i], w.secrets[ObjectKey(namespace, name)].data)
    requires !SecretValid(cryptos[|cryptos| - 1], w.secrets[ObjectKey(namespace, name)].data)
    requires GenerateWebhookCertificates(cryptos[|cryptos| - 1], serviceName, namespace).Some?
    ensures var r := Runs(w, rejects, cryptos, name, namespace, serviceName);
      var kp := GenerateWebhookCertificates(cryptos[|cryptos| - 1], serviceName, namespace).value;
      r.writes != []
      && r.writes[0] == UpdatedSecret(w.secrets[ObjectKey(namespace, name)].(data := Some(map[CertName := kp.cert, KeyName := kp.key])))
  {
    QuietUntilLastRun(w, rejects, cryptos, name, namespace, serviceName);
    FreshPairWritten(w, rejects, cryptos[|cryptos| - 1], name, namespace, serviceName);
  }
}
