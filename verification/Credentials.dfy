/** Credential identities: the keys that isolate connections, and the tracker of a rotating credential. */
module Credentials {
  import opened Wrappers
  import opened Text
  import PoolModel

  type Key = PoolModel.Key

  // ----- keys ---------------------------------------------------------------------------------

  datatype Mechanism = BearerToken | UserPassword | NKey | NKeyJwt | Tls

  function MechanismName(m: Mechanism): string {
    match m
    case BearerToken => "bearer_token"
    case UserPassword => "user_password"
    case NKey => "nkey"
    case NKeyJwt => "nkey_jwt"
    case Tls => "tls"
  }

  /** What an accepted request presents. */
  datatype Presentation =
    | Token(token: string)
    | Basic(username: string, password: string)
    | PublicKey(key: string)
    | Jwt(jwt: string)
    | Certificate(fingerprint: string)

  function MechanismOf(p: Presentation): Mechanism {
    match p
    case Token(_) => BearerToken
    case Basic(_, _) => UserPassword
    case PublicKey(_) => NKey
    case Jwt(_) => NKeyJwt
    case Certificate(_) => Tls
  }

  /** The credential text that goes into the key. */
  function CredentialOf(p: Presentation): string {
    match p
    case Token(token) => token
    case Basic(username, password) => username + "\0" + password
    case PublicKey(key) => key
    case Jwt(jwt) => jwt
    case Certificate(fingerprint) => fingerprint
  }

  predicate IsControl(c: char) {
    c < ' ' || '\U{007F}' <= c <= '\U{009F}'
  }

  /** `validBasicCredential`, without the length limit. */
  predicate BasicOk(s: string) {
    s != "" && forall i :: 0 <= i < |s| ==> !IsControl(s[i])
  }

  /** A user name and a password that were accepted hold no control character. */
  predicate Accepted(p: Presentation) {
    p.Basic? ==> BasicOk(p.username) && BasicOk(p.password)
  }

  /** `mechanism NUL credential`. */
  function Preimage(m: Mechanism, credential: string): string {
    MechanismName(m) + "\0" + credential
  }

  /** Text before the first NUL and the text after it determine one another. */
  lemma NulPairInjective(a: string, b: string, c: string, d: string)
    requires Free(a, '\0') && Free(c, '\0') && a + "\0" + b == c + "\0" + d
    ensures a == c && b == d
  {
    var s, t := a + "\0" + b, c + "\0" + d;
    assert s[|a|] == '\0' && t[|c|] == '\0';
    assert forall i :: 0 <= i < |a| ==> s[i] == a[i];
    assert forall i :: 0 <= i < |c| ==> t[i] == c[i];
    assert |a| == |c|;
    assert s[..|a|] == a && t[..|c|] == c;
    assert s[|a| + 1..] == b && t[|c| + 1..] == d;
  }

  lemma NameFree(m: Mechanism)
    ensures Free(MechanismName(m), '\0')
  {
  }

  lemma NameInjective(m: Mechanism, n: Mechanism)
    requires MechanismName(m) == MechanismName(n)
    ensures m == n
  {
    assert |"bearer_token"| == 12 && |"user_password"| == 13 && |"nkey"| == 4 && |"nkey_jwt"| == 8 && |"tls"| == 3;
    assert |MechanismName(m)| == |MechanismName(n)|;
  }

  lemma PreimageInjective(m: Mechanism, a: string, n: Mechanism, b: string)
    requires Preimage(m, a) == Preimage(n, b)
    ensures m == n && a == b
  {
    NameFree(m);
    NameFree(n);
    NulPairInjective(MechanismName(m), a, MechanismName(n), b);
    NameInjective(m, n);
  }

  /** SHA-256 as far as the model goes: a function from texts to keys. */
  type Digest = string -> Key

  ghost predicate Injective(digest: Digest) {
    forall s, t :: digest(s) == digest(t) ==> s == t
  }

  /** `credentialKey` of a presentation. */
  function KeyOf(digest: Digest, p: Presentation): Key {
    digest(Preimage(MechanismOf(p), CredentialOf(p)))
  }

  /** Two accepted presentations have the same key exactly when they are the same. */
  lemma KeysSeparate(digest: Digest, p: Presentation, q: Presentation)
    requires Injective(digest) && Accepted(p) && Accepted(q)
    ensures KeyOf(digest, p) == KeyOf(digest, q) <==> p == q
  {
    if KeyOf(digest, p) == KeyOf(digest, q) {
      PreimageInjective(MechanismOf(p), CredentialOf(p), MechanismOf(q), CredentialOf(q));
      if p.Basic? { NulPairInjective(p.username, p.password, q.username, q.password); }
    }
  }

  /** With a control character in it, a user name can run into the password. */
  lemma ControlsCollide(digest: Digest)
    ensures KeyOf(digest, Basic("a", "b\0c")) == KeyOf(digest, Basic("a\0b", "c"))
  {
    assert "a" + "\0" + "b\0c" == "a\0b" + "\0" + "c";
  }

  // ----- the tracker of a rotating credential -------------------------------------------------

  /** A tracker's keys in the order in which it showed them; a generation is a position in it. */
  ghost predicate History(keys: seq<Key>) {
    keys != [] && forall i :: 0 < i < |keys| ==> keys[i] != keys[i - 1]
  }

  class IdentityTracker {
    const mechanism: Mechanism
    var key: Key
    var generation: nat
    ghost var keys: seq<Key>

    ghost predicate Valid()
      reads this
    {
      History(keys) && generation == |keys| - 1 && key == keys[generation]
    }

    constructor (mechanism: Mechanism, key: Key)
      ensures Valid() && this.mechanism == mechanism && keys == [key]
    {
      this.mechanism, this.key, this.generation, this.keys := mechanism, key, 0, [key];
    }

    /** `observe`: a key that differs starts a new generation; the same key changes nothing. */
    method Observe(digest: Digest, credential: string)
      requires Valid()
      modifies this
      ensures Valid() && key == digest(Preimage(mechanism, credential))
      ensures keys == if key == old(key) then old(keys) else old(keys) + [key]
      ensures old(keys) <= keys && (generation == old(generation) <==> key == old(key))
    {
      var observed := digest(Preimage(mechanism, credential));
      if key != observed {
        key := observed;
        generation := generation + 1;
        keys := keys + [observed];
      }
    }

    /** `snapshot`: a key and the generation at which the tracker showed it. */
    method Snapshot() returns (k: Key, g: nat)
      requires Valid()
      ensures g < |keys| && k == keys[g] && g == generation
    {
      k, g := key, generation;
    }
  }

  /** An adapted credential: a fixed key, or a tracker whose credential a callback refreshes. */
  datatype Context = Context(key: Key, identity: IdentityTracker?)

  /** The callback of a tracker: none, or one that fails or returns a credential. */
  datatype Callback = NoCallback | Fails | Returns(credential: string)

  /** The last of the credentials observed: others', if there are any. */
  function Last(mine: string, others: seq<string>): string {
    if others == [] then mine else others[|others| - 1]
  }

  /** Other callers' observations of a tracker, one after another. */
  method ObserveAll(identity: IdentityTracker, digest: Digest, credentials: seq<string>)
    requires identity.Valid()
    modifies identity
    ensures identity.Valid() && old(identity.keys) <= identity.keys
    ensures identity.key == if credentials == [] then old(identity.key)
                            else digest(Preimage(identity.mechanism, credentials[|credentials| - 1]))
  {
    for i := 0 to |credentials|
      invariant identity.Valid() && old(identity.keys) <= identity.keys
      invariant identity.key == if i == 0 then old(identity.key)
                else digest(Preimage(identity.mechanism, credentials[i - 1]))
    {
      identity.Observe(digest, credentials[i]);
    }
  }

  /**
   `RefreshIdentity`.  The observation and the snapshot take the tracker's lock one after the other;
   `meanwhile` are the credentials that others observe in between.  The key that is
   returned is then the last of theirs, with the generation at which it was shown,
   and the refreshed key was shown at the generation `own`, no later than that.
   */
  method RefreshIdentity(c: Context, digest: Digest, refresh: Callback, meanwhile: seq<string>)
    returns (r: Option<(Key, nat)>, ghost own: nat)
    requires c.identity != null ==> c.identity.Valid()
    modifies c.identity
    ensures c.identity != null ==> c.identity.Valid() && old(c.identity.keys) <= c.identity.keys
    ensures c.identity == null ==> r == Some((c.key, 0))
    ensures c.identity != null && refresh.Fails? ==> r == None && c.identity.keys == old(c.identity.keys)
    ensures c.identity != null && !refresh.Fails? ==>
              && r.Some? && r.value.1 < |c.identity.keys| && c.identity.keys[r.value.1] == r.value.0
              && r.value.1 == |c.identity.keys| - 1 && |old(c.identity.keys)| - 1 <= own <= r.value.1
    ensures c.identity != null && refresh.Returns? ==>
              && c.identity.keys[own] == digest(Preimage(c.identity.mechanism, refresh.credential))
              && r.value.0 == digest(Preimage(c.identity.mechanism, Last(refresh.credential, meanwhile)))
    ensures c.identity != null && refresh.NoCallback? && meanwhile == [] ==> r.value.0 == old(c.identity.key)
  {
    own := 0;
    if c.identity == null { return Some((c.key, 0)), own; }
    if refresh.Fails? { return None, own; }
    if refresh.Returns? { c.identity.Observe(digest, refresh.credential); }
    own := c.identity.generation;
    ObserveAll(c.identity, digest, meanwhile);
    var key, generation := c.identity.Snapshot();
    r := Some((key, generation));
  }

  /** `IdentityChanged`: whether the tracker has left the generation. */
  method IdentityChanged(c: Context, generation: nat) returns (changed: bool)
    requires c.identity != null ==> c.identity.Valid() && generation < |c.identity.keys|
    ensures c.identity != null ==> (!changed ==> c.identity.key == c.identity.keys[generation])
    ensures c.identity != null ==> (changed <==> generation + 1 < |c.identity.keys|)
    ensures c.identity == null ==> (changed <==> generation != 0)
  {
    var current := 0;
    if c.identity != null {
      var k, g := c.identity.Snapshot();
      current := g;
    }
    changed := current != generation;
  }
}
