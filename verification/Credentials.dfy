/** Time-limited relay credentials: minted by `credentials.rs`, checked by the
    rendezvous registry. The hash functions are parameters. */
module Credentials {
  import opened Bytes
  import opened Text
  import Utf8
  import Stun

  datatype Crypto = Crypto(hmac: (bytes, bytes) -> bytes, md5: bytes -> bytes, base64: bytes -> string) {
    ghost predicate Valid() { Stun.IsMac(hmac) }
  }

  const U64_MAX: nat := 0xFFFF_FFFF_FFFF_FFFF

  /** base64(HMAC-SHA1(secret, username)) */
  function RestPassword(c: Crypto, secret: string, username: string): string
  {
    c.base64(c.hmac(Utf8.Encode(secret), Utf8.Encode(username)))
  }

  /** The long-term credential key of section 9.2 of RFC 8489. */
  function LongTermKey(c: Crypto, username: string, realm: string, password: string): bytes
  {
    c.md5(Utf8.Encode(username + ":" + realm + ":" + password))
  }

  function GenerateCredentials(c: Crypto, secret: string, expiry: nat, suffix: string): (string, string)
  {
    var username := if suffix == [] then Decimal(expiry) else Decimal(expiry) + ":" + suffix;
    (username, RestPassword(c, secret, username))
  }

  datatype RelayEndpoint =
    RelayEndpoint(username: string, password: string, realm: string, lifetimeSeconds: nat)

  /** The sum of two 64-bit numbers, wrapping around as in a release build. */
  function Expiry(now: nat, ttl: nat): (expiry: nat)
    ensures expiry <= U64_MAX
    ensures now + ttl <= U64_MAX ==> expiry == now + ttl
  {
    (now + ttl) % (U64_MAX + 1)
  }

  function EndpointFromSecret(
    c: Crypto, secret: string, now: nat, ttl: nat, suffix: string, realm: string): RelayEndpoint
  {
    var (username, password) := GenerateCredentials(c, secret, Expiry(now, ttl), suffix);
    RelayEndpoint(username, password, realm, 3600)
  }

  /** The expiry a username carries in front of its first colon, if that is a
      64-bit number at all. */
  function ExpiryOf(username: string): Option<nat>
  {
    ParseUnsigned(SplitOn(username, ':')[0], U64_MAX)
  }

  predicate Verify(c: Crypto, secret: string, username: string, password: string, now: nat)
  {
    var expired := match ExpiryOf(username) { case Some(exp) => exp <= now case None => false };
    !expired && ConstantTimeEq(Utf8.Encode(RestPassword(c, secret, username)), Utf8.Encode(password))
  }

  /** The check accepts one password per username, and that one exactly until the
      expiry the username states (for ever, if it states none). */
  lemma VerifyExactly(c: Crypto, secret: string, username: string, password: string, now: nat)
    ensures Verify(c, secret, username, password, now)
            <==> && password == c.base64(c.hmac(Utf8.Encode(secret), Utf8.Encode(username)))
                 && (ExpiryOf(username).Some? ==> now < ExpiryOf(username).value)
  {
    var expected := RestPassword(c, secret, username);
    ConstantTimeEqIsEquality(Utf8.Encode(expected), Utf8.Encode(password));
    Utf8.RoundTrip(expected);
    Utf8.RoundTrip(password);
  }

  lemma GeneratedExpiry(c: Crypto, secret: string, expiry: nat, suffix: string)
    requires expiry <= U64_MAX
    ensures ExpiryOf(GenerateCredentials(c, secret, expiry, suffix).0) == Some(expiry)
  {
    var d := Decimal(expiry);
    assert ':' !in d by {
      assert forall i :: 0 <= i < |d| ==> IsDigit(d[i]);
    }
    SplitOnFirst(d, ':', suffix);
    DecimalRoundTrip(expiry, U64_MAX);
  }

  /** What is minted: the expiry in decimal, a colon and the suffix if there is one,
      and the code of that under the secret. */
  lemma MintedExactly(c: Crypto, secret: string, expiry: nat, suffix: string)
    ensures var (username, password) := GenerateCredentials(c, secret, expiry, suffix);
            && username == Decimal(expiry) + (if suffix == "" then "" else ":" + suffix)
            && password == c.base64(c.hmac(Utf8.Encode(secret), Utf8.Encode(username)))
  {
    hide Decimal, Utf8.Encode;
    assert Decimal(expiry) + "" == Decimal(expiry);
    assert Decimal(expiry) + (":" + suffix) == Decimal(expiry) + ":" + suffix;
  }

  /** Credentials minted with one secret and presented where another is in force:
      accepted exactly before the expiry, and only if the two secrets give the user
      name the same code. */
  lemma ForeignSecret(c: Crypto, minting: string, checking: string, expiry: nat, suffix: string, now: nat)
    requires expiry <= U64_MAX
    ensures var (username, password) := GenerateCredentials(c, minting, expiry, suffix);
            Verify(c, checking, username, password, now) <==>
              && now < expiry
              && c.base64(c.hmac(Utf8.Encode(minting), Utf8.Encode(username)))
                 == c.base64(c.hmac(Utf8.Encode(checking), Utf8.Encode(username)))
  {
    hide Verify, GenerateCredentials, ExpiryOf;
    var (username, password) := GenerateCredentials(c, minting, expiry, suffix);
    MintedExactly(c, minting, expiry, suffix);
    VerifyExactly(c, checking, username, password, now);
    GeneratedExpiry(c, minting, expiry, suffix);
  }

  /** No two inputs of the hash functions collide. */
  ghost predicate Collisionless(c: Crypto)
  {
    && (forall k, d, k', d' :: c.hmac(k, d) == c.hmac(k', d') ==> k == k' && d == d')
    && (forall b, b' :: c.base64(b) == c.base64(b') ==> b == b')
  }

  /** Without collisions, credentials are accepted where, and only where, the secret
      they were minted with is in force, and exactly before their expiry. */
  lemma OnlyTheSecretMints(c: Crypto, minting: string, checking: string, expiry: nat, suffix: string, now: nat)
    requires Collisionless(c) && expiry <= U64_MAX
    ensures var (username, password) := GenerateCredentials(c, minting, expiry, suffix);
            Verify(c, checking, username, password, now) <==> minting == checking && now < expiry
  {
    hide Verify, GenerateCredentials, Utf8.Encode;
    ForeignSecret(c, minting, checking, expiry, suffix, now);
    Utf8.RoundTrip(minting);
    Utf8.RoundTrip(checking);
  }

  /** Such functions exist: a code that spells out key and data. */
  lemma CollisionlessExist() returns (c: Crypto)
    ensures Collisionless(c)
  {
    c := Crypto((k, d) => Spell(k, d), b => b, b => Chars(b));
    forall k, d, k', d' | Spell(k, d) == Spell(k', d') ensures k == k' && d == d' {
      SpellInjective(k, d, k', d');
    }
    forall b, b' | Chars(b) == Chars(b') ensures b == b' {
      assert |b| == |Chars(b)| == |Chars(b')| == |b'|;
      forall i | 0 <= i < |b| ensures b[i] == b'[i] {
        assert Chars(b)[i] == Chars(b')[i];
      }
    }
  }

  /** The key's bytes, each behind a one; a zero; the data. */
  function Spell(k: bytes, d: bytes): bytes
  {
    if k == [] then [0] + d else [1, k[0]] + Spell(k[1..], d)
  }

  lemma {:induction false} SpellInjective(k: bytes, d: bytes, k': bytes, d': bytes)
    requires Spell(k, d) == Spell(k', d')
    ensures k == k' && d == d'
  {
    var a, b := Spell(k, d), Spell(k', d');
    assert a[0] == b[0];
    if k == [] {
      assert d == a[1..] && d' == b[1..];
    } else {
      assert Spell(k[1..], d) == a[2..] && Spell(k'[1..], d') == b[2..];
      assert k[0] == a[1] && k'[0] == b[1];
      SpellInjective(k[1..], d, k'[1..], d');
      assert k == [k[0]] + k[1..] && k' == [k'[0]] + k'[1..];
    }
  }

  function Chars(b: bytes): (s: string)
    ensures |s| == |b| && forall i :: 0 <= i < |b| ==> s[i] as int == b[i]
  {
    seq(|b|, i requires 0 <= i < |b| => (b[i] as int) as char)
  }

  /** For every secret, suffix (with or without colons), 64-bit expiry and clock
      reading: a generated pair is accepted exactly while the clock is before the
      expiry. */
  lemma GeneratedAccepted(c: Crypto, secret: string, expiry: nat, suffix: string, now: nat)
    requires expiry <= U64_MAX
    ensures var (username, password) := GenerateCredentials(c, secret, expiry, suffix);
            Verify(c, secret, username, password, now) <==> now < expiry
  {
    var (username, password) := GenerateCredentials(c, secret, expiry, suffix);
    VerifyExactly(c, secret, username, password, now);
    GeneratedExpiry(c, secret, expiry, suffix);
  }

  /** So an endpoint minted now works for its lifetime and not a second more,
      unless the expiry wraps around: then it works only before what is left. */
  lemma EndpointLivesForItsTtl(
    c: Crypto, secret: string, minted: nat, ttl: nat, suffix: string, realm: string, now: nat)
    ensures var ep := EndpointFromSecret(c, secret, minted, ttl, suffix, realm);
            && ep.realm == realm && ep.lifetimeSeconds == 3600
            && (ep.username, ep.password) == GenerateCredentials(c, secret, Expiry(minted, ttl), suffix)
            && (Verify(c, secret, ep.username, ep.password, now) <==> now < Expiry(minted, ttl))
            && (minted + ttl <= U64_MAX ==>
                  (Verify(c, secret, ep.username, ep.password, now) <==> now < minted + ttl))
            && (minted <= U64_MAX && ttl <= U64_MAX && minted + ttl > U64_MAX && minted <= now ==>
                  !Verify(c, secret, ep.username, ep.password, now))
  {
    GeneratedAccepted(c, secret, Expiry(minted, ttl), suffix, now);
  }
}
