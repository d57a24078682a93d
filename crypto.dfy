/**
 * Stand-ins for the bcryptjs calls the server makes (`hashSync`, `compareSync`).
 * For the `$2a$`/`$2b$` salts that `hashSync(p, 8)` makes, bcryptjs appends a
 * NUL to the password and keys its cipher with 72 bytes read from that key
 * round and round. Two passwords compare equal exactly when those 72 bytes
 * agree. The model counts one byte per character.
 */
module Bcrypt {
  /** A stored password hash. */
  datatype Digest = Digest(key: string)

  const MaxKeyLength: nat := 72
  const Nul: char := '\0'

  /** The first `n` characters of `key` read round and round. */
  function Repeat(key: string, n: nat): (r: string)
    requires |key| > 0
    ensures |r| == n
    ensures n <= |key| ==> r == key[..n]
    ensures n >= |key| ==> r[..|key|] == key
    decreases n
  {
    if n <= |key| then key[..n] else key + Repeat(key, n - |key|)
  }

  /** Reading a key twice over is reading it round and round. */
  lemma {:induction false} RepeatTwice(key: string, n: nat)
    requires |key| > 0
    ensures Repeat(key + key, n) == Repeat(key, n)
    decreases n
  {
    if n <= |key| {
      assert (key + key)[..n] == key[..n];
    } else if n <= 2 * |key| {
      assert Repeat(key, n - |key|) == key[..n - |key|];
      assert (key + key)[..n] == key + key[..n - |key|];
    } else {
      RepeatTwice(key, n - 2 * |key|);
      assert Repeat(key, n - |key|) == key + Repeat(key, n - 2 * |key|);
      assert key + (key + Repeat(key, n - 2 * |key|)) == (key + key) + Repeat(key, n - 2 * |key|);
    }
  }

  /** The 72 characters bcrypt keys its cipher with: the password and a closing NUL, repeated. */
  function Significant(password: string): (k: string)
    ensures |k| == MaxKeyLength
    ensures |password| >= MaxKeyLength ==> k == password[..MaxKeyLength]
    ensures |password| < MaxKeyLength ==> k[..|password| + 1] == password + [Nul]
  {
    var key := password + [Nul];
    assert |password| >= MaxKeyLength ==> key[..MaxKeyLength] == password[..MaxKeyLength];
    Repeat(key, MaxKeyLength)
  }

  /** The password cut to its first 72 characters. */
  function FirstCharacters(password: string): (k: string)
    ensures |k| <= MaxKeyLength && k <= password
    ensures |password| <= MaxKeyLength ==> k == password
  {
    if |password| <= MaxKeyLength then password else password[..MaxKeyLength]
  }

  function Hash(password: string): Digest {
    Digest(Significant(password))
  }

  function Compare(password: string, stored: Digest): bool {
    stored == Hash(password)
  }

  /** A password matches its own hash, and another matches it exactly when their bcrypt keys agree. */
  lemma CompareHash(password: string, other: string)
    ensures Compare(password, Hash(password))
    ensures Compare(other, Hash(password)) <==> Significant(other) == Significant(password)
  {
  }

  /**
   * For passwords without NUL the key says no more than the first 72
   * characters: two such passwords match exactly when those agree.
   */
  lemma {:induction false} NulFreeKeys(p: string, q: string)
    requires Nul !in p && Nul !in q
    ensures Compare(q, Hash(p)) <==> FirstCharacters(q) == FirstCharacters(p)
  {
    var kp, kq := Significant(p), Significant(q);
    if |p| < MaxKeyLength {
      assert kp[|p|] == (p + [Nul])[|p|] == Nul;
      assert forall i :: 0 <= i < |p| ==> kp[i] == p[i];
    } else {
      assert forall i :: 0 <= i < MaxKeyLength ==> kp[i] == p[i];
    }
    if |q| < MaxKeyLength {
      assert kq[|q|] == (q + [Nul])[|q|] == Nul;
      assert forall i :: 0 <= i < |q| ==> kq[i] == q[i];
    } else {
      assert forall i :: 0 <= i < MaxKeyLength ==> kq[i] == q[i];
    }
    if kp == kq {
      if |p| < MaxKeyLength && |q| < MaxKeyLength {
        assert p == kp[..|p|] == kq[..|q|] == q;
      }
    }
    if FirstCharacters(q) == FirstCharacters(p) {
      if |p| < MaxKeyLength || |q| < MaxKeyLength {
        assert p == q;
      }
    }
  }

  /**
   * The closing NUL makes a password and the password, NUL, password again
   * the same key, so each opens the other's hash ("a" and "a\0a", say).
   */
  lemma NulCollision(password: string)
    ensures Compare(password, Hash(password + [Nul] + password))
    ensures Compare(password + [Nul] + password, Hash(password))
  {
    var key := password + [Nul];
    assert (password + [Nul] + password) + [Nul] == key + key;
    RepeatTwice(key, MaxKeyLength);
  }

  /** Whatever follows the first 72 characters is never checked. */
  lemma {:induction false} TailIgnored(prefix: string, tail: string, otherTail: string)
    requires |prefix| >= MaxKeyLength
    ensures Compare(prefix + otherTail, Hash(prefix + tail))
  {
    assert (prefix + tail)[..MaxKeyLength] == prefix[..MaxKeyLength];
    assert (prefix + otherTail)[..MaxKeyLength] == prefix[..MaxKeyLength];
  }
}

/**
 * Session tokens, standing in for jsonwebtoken's `sign` and `verify` with the
 * HS256 algorithm. A token is three dot-separated segments, a fixed header, the
 * payload and a message authentication code over the first two; no segment
 * holds a space, so a token survives the `Authorization: Bearer <token>` header.
 */
module Jwt {
  import opened Wrappers
  import opened Text

  /** The payload `jwt.sign` embeds and `jwt.verify` hands back: user id, email, issued-at and expiry, in whole seconds. */
  datatype Claims = Claims(id: nat, email: string, iat: nat, exp: nat)

  datatype Verdict = Valid(claims: Claims) | Malformed | BadSignature | Expired

  /** `expiresIn: '24h'`, in seconds. */
  const SessionSeconds: nat := 86400

  const Header: string := "HS256"

  /** The claims of a session opened at `nowMs` (milliseconds since the epoch). */
  function Issue(id: nat, email: string, nowMs: nat): (c: Claims)
    ensures c.id == id && c.email == email
    ensures c.iat * 1000 <= nowMs < c.iat * 1000 + 1000
    ensures c.exp == c.iat + 86400
  {
    Claims(id, email, nowMs / 1000, nowMs / 1000 + SessionSeconds)
  }

  function PayloadText(c: Claims): string {
    Digits(c.id) + [','] + Escape(c.email) + [','] + Digits(c.iat) + [','] + Digits(c.exp)
  }

  function DecodePayload(p: string): Option<Claims> {
    var f := Split(p, ',');
    if |f| != 4 then None
    else match (ParseNat(f[0]), ParseNat(f[2]), ParseNat(f[3]))
      case (Some(id), Some(iat), Some(exp)) => Some(Claims(id, Unescape(f[1]), iat, exp))
      case _ => None
  }

  /** Stand-in for HMAC-SHA256: one-to-one in the secret and the signed text, and free of separators. */
  function Mac(secret: string, data: string): (m: string)
    ensures '.' !in m && ' ' !in m
  {
    Escape(Digits(|secret|) + ":" + secret + data)
  }

  function Sign(c: Claims, secret: string): string {
    Header + "." + PayloadText(c) + "." + Mac(secret, Header + "." + PayloadText(c))
  }

  /** `token` is a header, a payload text holding `c`, and the code `secret` gives those two. */
  ghost predicate SignedAs(token: string, secret: string, c: Claims) {
    exists p :: DecodePayload(p) == Some(c) && token == Header + "." + p + "." + Mac(secret, Header + "." + p)
  }

  /** `jwt.verify`: the token's shape, then its signature, then its expiry (expired once the clock in whole seconds reaches `exp`). */
  function Verify(token: string, secret: string, nowMs: nat): (v: Verdict)
    ensures v.Valid? ==> SignedAs(token, secret, v.claims) && nowMs / 1000 < v.claims.exp
    ensures v.Expired? ==> exists c :: SignedAs(token, secret, c) && c.exp <= nowMs / 1000
  {
    var seg := Split(token, '.');
    if |seg| != 3 || seg[0] != Header then Malformed
    else match DecodePayload(seg[1])
      case None => Malformed
      case Some(c) =>
        if seg[2] != Mac(secret, seg[0] + "." + seg[1]) then BadSignature
        else
          JoinThree(seg, '.');
          assert SignedAs(token, secret, c) by {
            assert DecodePayload(seg[1]) == Some(c);
          }
          if nowMs / 1000 >= c.exp then Expired
          else Valid(c)
  }

  lemma JoinThree(fs: seq<string>, sep: char)
    requires |fs| == 3
    ensures Join(fs, sep) == fs[0] + [sep] + fs[1] + [sep] + fs[2]
  {
    var rest := fs[1..];
    assert rest[1..] == [fs[2]];
    assert Join(rest, sep) == fs[1] + [sep] + fs[2];
  }

  lemma {:induction false} DecodePayloadText(c: Claims)
    ensures DecodePayload(PayloadText(c)) == Some(c)
  {
    var a, b, i, e := Digits(c.id), Escape(c.email), Digits(c.iat), Digits(c.exp);
    assert ',' !in a && ',' !in i && ',' !in e;
    assert PayloadText(c) == a + [','] + (b + [','] + (i + [','] + e));
    SplitCons(a, ',', b + [','] + (i + [','] + e));
    SplitCons(b, ',', i + [','] + e);
    SplitCons(i, ',', e);
    SplitNone(e, ',');
    ParseDigits(c.id);
    ParseDigits(c.iat);
    ParseDigits(c.exp);
    UnescapeEscape(c.email);
  }

  /** The segments of a signed token are the header, the payload text and its code. */
  lemma {:induction false} SignSegments(c: Claims, secret: string)
    ensures Split(Sign(c, secret), '.') == [Header, PayloadText(c), Mac(secret, Header + "." + PayloadText(c))]
    ensures ' ' !in Sign(c, secret)
  {
    var p, m := PayloadText(c), Mac(secret, Header + "." + PayloadText(c));
    assert '.' !in Digits(c.id) && '.' !in Digits(c.iat) && '.' !in Digits(c.exp);
    assert '.' !in p;
    assert Sign(c, secret) == Header + ['.'] + (p + ['.'] + m);
    SplitCons(Header, '.', p + ['.'] + m);
    SplitCons(p, '.', m);
    SplitNone(m, '.');
    assert ' ' !in Digits(c.id) && ' ' !in Digits(c.iat) && ' ' !in Digits(c.exp);
  }

  /** A token verifies, under the secret it was signed with, to exactly its claims until its expiry second. */
  lemma {:induction false} VerifySign(c: Claims, secret: string, nowMs: nat)
    ensures Verify(Sign(c, secret), secret, nowMs) == if nowMs / 1000 >= c.exp then Expired else Valid(c)
  {
    SignSegments(c, secret);
    DecodePayloadText(c);
  }

  lemma {:induction false} MacInjective(s1: string, d1: string, s2: string, d2: string)
    requires Mac(s1, d1) == Mac(s2, d2)
    ensures s1 == s2 && d1 == d2
  {
    var x1, x2 := Digits(|s1|) + ":" + s1 + d1, Digits(|s2|) + ":" + s2 + d2;
    EscapeInjective(x1, x2);
    var n1, n2 := Digits(|s1|), Digits(|s2|);
    // The numeral ends at the first ':' (digits are not ':'), so the numerals agree.
    assert x1[|n1|] == ':' && x2[|n2|] == ':';
    assert forall k :: 0 <= k < |n1| ==> x1[k] == n1[k] && IsDigit(x1[k]);
    assert forall k :: 0 <= k < |n2| ==> x2[k] == n2[k] && IsDigit(x2[k]);
    assert |n1| == |n2|;
    assert n1 == x1[..|n1|] == x2[..|n2|] == n2;
    ValueDigits(|s1|);
    ValueDigits(|s2|);
    assert |s1| == |s2|;
    assert s1 == x1[|n1| + 1..|n1| + 1 + |s1|] == x2[|n2| + 1..|n2| + 1 + |s2|] == s2;
    assert d1 == x1[|n1| + 1 + |s1|..] == x2[|n2| + 1 + |s2|..] == d2;
  }

  /** A token signed with one secret never verifies under another. */
  lemma ForeignSecretRejected(c: Claims, signer: string, secret: string, nowMs: nat)
    requires signer != secret
    ensures Verify(Sign(c, signer), secret, nowMs) == BadSignature
  {
    SignSegments(c, signer);
    DecodePayloadText(c);
    var d := Header + "." + PayloadText(c);
    if Mac(signer, d) == Mac(secret, d) {
      MacInjective(signer, d, secret, d);
    }
  }
}
