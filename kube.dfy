/** The slice of the Kubernetes API that the webhook-certificate reconciliation uses:
    Secret and CustomResourceDefinition objects as values, and an in-memory API server
    (`Cluster`) that answers get/create/update calls, records every write it is asked to
    perform, and rejects the kinds of call listed in its fault plan. */
module Kube {

  type Bytes = seq<bv8>

  datatype Option<T> = None | Some(value: T)

  datatype Result<T, E> = Ok(value: T) | Err(error: E)

  /** Namespace and name of a namespaced object. */
  datatype ObjectKey = ObjectKey(namespace: string, name: string)

  datatype ObjectMeta = ObjectMeta(name: string, namespace: string, labels: map<string, string>)

  /** A core/v1 Secret; `data` is None for Go's nil map. */
  datatype Secret = Secret(meta: ObjectMeta, data: Option<map<string, Bytes>>)

  function KeyOf(s: Secret): ObjectKey {
    ObjectKey(s.meta.namespace, s.meta.name)
  }

  // apiextensions/v1 CustomResourceDefinition, down to the conversion webhook's CA bundle.
  // Every Option below is a pointer field that may be nil.

  datatype ServiceReference = ServiceReference(namespace: string, name: string, path: Option<string>)

  datatype WebhookClientConfig =
    WebhookClientConfig(url: Option<string>, service: Option<ServiceReference>, caBundle: Bytes)

  datatype WebhookConversion =
    WebhookConversion(clientConfig: Option<WebhookClientConfig>, conversionReviewVersions: seq<string>)

  datatype CustomResourceConversion =
    CustomResourceConversion(strategy: string, webhook: Option<WebhookConversion>)

  datatype CrdSpec = CrdSpec(group: string, conversion: Option<CustomResourceConversion>)

  datatype Crd = Crd(meta: ObjectMeta, spec: CrdSpec)

  /** Errors the API server answers with; `Rejected` stands for every other failure
      (conflict, forbidden, unavailable, timeout). */
  datatype ApiError = NotFound | AlreadyExists | Rejected

  /** The kinds of call a client issues; a fault plan is a set of them. */
  datatype Verb = SecretGet | SecretCreate | SecretUpdate | CrdGet | CrdUpdate

  /** A write issued to the API server, whether or not it was accepted. */
  datatype Write = CreatedSecret(secret: Secret) | UpdatedSecret(secret: Secret) | UpdatedCrd(crd: Crd)

  /** What the API server stores: secrets by key and the one CustomResourceDefinition. */
  datatype World = World(secrets: map<ObjectKey, Secret>, crd: Option<Crd>) {
    /** Every stored secret sits under its own namespace and name. */
    ghost predicate Valid() {
      forall k | k in secrets :: KeyOf(secrets[k]) == k
    }
  }

  // The API server's answers, as functions of what it stores and of its fault plan.

  function ReadSecret(w: World, rejects: set<Verb>, key: ObjectKey): (r: Result<Secret, ApiError>)
    ensures r.Ok? ==> key in w.secrets && r.value == w.secrets[key]
    ensures r == Err(NotFound) <==> SecretGet !in rejects && key !in w.secrets
  {
    if SecretGet in rejects then Err(Rejected)
    else if key in w.secrets then Ok(w.secrets[key])
    else Err(NotFound)
  }

  function CreateSecretIn(w: World, rejects: set<Verb>, s: Secret): (r: (World, Option<ApiError>))
    ensures r.0.crd == w.crd
    ensures r.1.None? <==> SecretCreate !in rejects && KeyOf(s) !in w.secrets
    ensures r.0.secrets == if r.1.None? then w.secrets[KeyOf(s) := s] else w.secrets
  {
    if SecretCreate in rejects then (w, Some(Rejected))
    else if KeyOf(s) in w.secrets then (w, Some(AlreadyExists))
    else (w.(secrets := w.secrets[KeyOf(s) := s]), None)
  }

  function UpdateSecretIn(w: World, rejects: set<Verb>, s: Secret): (r: (World, Option<ApiError>))
    ensures r.0.crd == w.crd
    ensures r.1.None? <==> SecretUpdate !in rejects && KeyOf(s) in w.secrets
    ensures r.0.secrets == if r.1.None? then w.secrets[KeyOf(s) := s] else w.secrets
  {
    if SecretUpdate in rejects then (w, Some(Rejected))
    else if KeyOf(s) !in w.secrets then (w, Some(NotFound))
    else (w.(secrets := w.secrets[KeyOf(s) := s]), None)
  }

  function ReadCrd(w: World, rejects: set<Verb>, name: string): (r: Result<Crd, ApiError>)
    ensures r.Ok? ==> w.crd == Some(r.value) && r.value.meta.name == name
  {
    if CrdGet in rejects then Err(Rejected)
    else if w.crd.Some? && w.crd.value.meta.name == name then Ok(w.crd.value)
    else Err(NotFound)
  }

  function UpdateCrdIn(w: World, rejects: set<Verb>, c: Crd): (r: (World, Option<ApiError>))
    ensures r.0.secrets == w.secrets
    ensures r.0.crd == if r.1.None? then Some(c) else w.crd
    ensures r.1.None? <==> CrdUpdate !in rejects && w.crd.Some? && w.crd.value.meta.name == c.meta.name
  {
    if CrdUpdate in rejects then (w, Some(Rejected))
    else if w.crd.Some? && w.crd.value.meta.name == c.meta.name then (w.(crd := Some(c)), None)
    else (w, Some(NotFound))
  }

  /** The in-memory API server the reconciliation talks to. */
  class Cluster {
    var secrets: map<ObjectKey, Secret>
    var crd: Option<Crd>
    /** Every write issued so far, in order, accepted or not. */
    var log: seq<Write>
    /** The kinds of call this server fails. */
    const rejects: set<Verb>

    function State(): World
      reads this
    {
      World(secrets, crd)
    }

    ghost predicate Valid()
      reads this
    {
      State().Valid()
    }

    constructor (w: World, rejects: set<Verb>)
      requires w.Valid()
      ensures Valid() && State() == w && log == [] && this.rejects == rejects
    {
      secrets, crd, log := w.secrets, w.crd, [];
      this.rejects := rejects;
    }

    method GetSecret(key: ObjectKey) returns (r: Result<Secret, ApiError>)
      requires Valid()
      ensures r == ReadSecret(State(), rejects, key)
      ensures r.Ok? ==> KeyOf(r.value) == key
    {
      r := ReadSecret(State(), rejects, key);
    }

    /** Every write is logged, then applied as the server's answer function says. */
    method CreateSecret(s: Secret) returns (err: Option<ApiError>)
      requires Valid()
      modifies this
      ensures Valid()
      ensures (State(), err) == CreateSecretIn(old(State()), rejects, s)
      ensures log == old(log) + [CreatedSecret(s)]
    {
      log := log + [CreatedSecret(s)];
      var (w, e) := CreateSecretIn(State(), rejects, s);
      secrets, crd, err := w.secrets, w.crd, e;
    }

    method UpdateSecret(s: Secret) returns (err: Option<ApiError>)
      requires Valid()
      modifies this
      ensures Valid()
      ensures (State(), err) == UpdateSecretIn(old(State()), rejects, s)
      ensures log == old(log) + [UpdatedSecret(s)]
    {
      log := log + [UpdatedSecret(s)];
      var (w, e) := UpdateSecretIn(State(), rejects, s);
      secrets, crd, err := w.secrets, w.crd, e;
    }

    method GetCrd(name: string) returns (r: Result<Crd, ApiError>)
      requires Valid()
      ensures r == ReadCrd(State(), rejects, name)
    {
      r := ReadCrd(State(), rejects, name);
    }

    method UpdateCrd(c: Crd) returns (err: Option<ApiError>)
      requires Valid()
      modifies this
      ensures Valid()
      ensures (State(), err) == UpdateCrdIn(old(State()), rejects, c)
      ensures log == old(log) + [UpdatedCrd(c)]
    {
      log := log + [UpdatedCrd(c)];
      var (w, e) := UpdateCrdIn(State(), rejects, c);
      secrets, crd, err := w.secrets, w.crd, e;
    }
  }
}
