// The keys a node holds, and what it signs and accepts with them.

module Signing {
  import opened Types

  type PublicKey = seq<byte>

  type PrivateKey = seq<byte>

  const SIGNATURE_SIZE := 64

  // The signature scheme is a parameter; Ed25519 (sections 5.1.6 and 5.1.7 of
  // RFC 8032) is one that meets Sound.
  datatype Scheme = Scheme(
    publicOf: PrivateKey -> PublicKey,
    sign: (PrivateKey, seq<byte>) -> seq<byte>,
    wellFormed: seq<byte> -> bool,
    verify: (PublicKey, seq<byte>, seq<byte>) -> bool)

  // What a key pair signs verifies under its public key.
  ghost predicate Sound(scheme: Scheme) {
    forall key, msg {:trigger scheme.sign(key, msg)} ::
      var sig := scheme.sign(key, msg);
      |sig| == SIGNATURE_SIZE && scheme.wellFormed(sig) && scheme.verify(scheme.publicOf(key), msg, sig)
  }

  datatype Keys = Keys(public: seq<PublicKey>, private: Option<PrivateKey>)

  predicate Verifies(scheme: Scheme, keys: Keys, sig: seq<byte>, msg: seq<byte>) {
    exists key | key in keys.public :: scheme.verify(key, msg, sig)
  }

  class KeyStore {
    const scheme: Scheme
    var public: seq<PublicKey>
    var private: Option<PrivateKey>

    // No key is stored twice.
    ghost predicate Valid()
      reads this
    {
      forall i, j | 0 <= i < j < |public| :: public[i] != public[j]
    }

    function View(): Keys
      reads this
    {
      Keys(public, private)
    }

    constructor (scheme: Scheme)
      ensures Valid() && View() == Keys([], None) && this.scheme == scheme
    {
      this.scheme := scheme;
      public, private := [], None;
    }

    method AddPublicKey(key: PublicKey)
      requires Valid()
      modifies this`public
      ensures Valid()
      ensures public == if key in old(public) then old(public) else old(public) + [key]
    {
      if key !in public {
        public := public + [key];
      }
    }

    method InitPrivateKey(key: PrivateKey)
      modifies this`private
      ensures private == Some(key)
    {
      private := Some(key);
    }

    method Sign(msg: seq<byte>) returns (sig: Option<seq<byte>>)
      ensures sig == if private.Some? then Some(scheme.sign(private.value, msg)) else None
      ensures Sound(scheme) && sig.Some? ==>
                forall keys: Keys | scheme.publicOf(private.value) in keys.public ::
                         Verifies(scheme, keys, sig.value, msg)
    {
      sig := if private.Some? then Some(scheme.sign(private.value, msg)) else None;
    }

    // The search stops at the first key that accepts the signature.
    method Verify(sig: seq<byte>, msg: seq<byte>) returns (ok: bool)
      ensures ok <==> Verifies(scheme, View(), sig, msg)
    {
      for i := 0 to |public|
        invariant forall j | 0 <= j < i :: !scheme.verify(public[j], msg, sig)
      {
        if scheme.verify(public[i], msg, sig) {
          return true;
        }
      }
      return false;
    }
  }

  // What one store signs, another one that has been given the public key accepts,
  // whatever other keys it holds.
  method SignedIsVerified(scheme: Scheme, key: PrivateKey, others: seq<PublicKey>, msg: seq<byte>)
    returns (sig: seq<byte>, ok: bool)
    requires Sound(scheme)
    ensures ok && |sig| == SIGNATURE_SIZE && scheme.wellFormed(sig)
  {
    var receiver := new KeyStore(scheme);
    for i := 0 to |others|
      invariant fresh(receiver) && receiver.Valid()
    {
      receiver.AddPublicKey(others[i]);
    }
    receiver.AddPublicKey(scheme.publicOf(key));
    var sender := new KeyStore(scheme);
    sender.InitPrivateKey(key);
    var signed := sender.Sign(msg);
    sig := signed.value;
    assert sig == scheme.sign(key, msg) && scheme.publicOf(key) in receiver.View().public;
    ok := receiver.Verify(sig, msg);
  }
}
