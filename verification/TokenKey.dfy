/**
 * The verdict-cache key (policies/jwt-auth/jwtauth.go, buildTokenCacheKey and the fingerprint below it)
 * and why it determines everything a verdict and its lifetime depend on. SHA-256 is a parameter; the
 * theorems assume of it only a 32-byte result and no collision between the preimages at hand.
 */
module TokenKey {
  import opened Sequences
  import opened Bytes
  import opened CanonicalEncoding
  import opened ConfigHashing

  type HashFunction = Bytes -> Bytes

  ghost predicate Digest32(h: HashFunction) {
    forall x :: |h(x)| == 32
  }

  ghost predicate NoCollision(h: HashFunction, x: Bytes, y: Bytes) {
    h(x) == h(y) ==> x == y
  }

  /** What verification depends on besides the token; durations are Go's int64 nanoseconds. */
  datatype Config = Config(
    keyManagers: Value, validateIssuer: bool, issuers: seq<Bytes>,
    leeway: int, tokenTtl: int, negativeTtl: int)

  predicate Int64(n: int) { -TWO_64 / 2 <= n < TWO_64 / 2 }

  ghost predicate SizedConfig(c: Config) {
    && Sized(c.keyManagers)
    && |c.issuers| < TWO_64 && (forall s :: s in c.issuers ==> |s| < TWO_64)
    && Int64(c.leeway) && Int64(c.tokenTtl) && Int64(c.negativeTtl)
  }

  function CanonicalConfig(c: Config): Config {
    c.(keyManagers := Canonical(c.keyManagers))
  }

  function Fields(ss: seq<Bytes>): Bytes {
    if ss == [] then [] else Field(ss[0]) + Fields(ss[1..])
  }

  function Durations(c: Config): (r: Bytes)
    ensures |r| == 24
  {
    Word64(c.leeway) + (Word64(c.tokenTtl) + Word64(c.negativeTtl))
  }

  /** What is hashed into the fingerprint, given the digest of the key-manager configuration. */
  function FingerprintInput(digest: Bytes, c: Config): Bytes {
    Field(digest) + (Flag(c.validateIssuer) + (Word64(|c.issuers|) + (Fields(c.issuers) + Durations(c))))
  }

  ghost function ConfigDigest(h: HashFunction, c: Config): Bytes { h(Encode(c.keyManagers)) }

  ghost function Fingerprint(h: HashFunction, c: Config): Bytes {
    h(FingerprintInput(ConfigDigest(h, c), c))
  }

  ghost function KeyInput(h: HashFunction, c: Config, token: Bytes): Bytes {
    Fingerprint(h, c) + ([0] + token)
  }

  function HexDigit(d: int): char
    requires 0 <= d < 16
  {
    if d < 10 then ('0' as int + d) as char else ('a' as int + d - 10) as char
  }

  function Hex(b: Bytes): string {
    if b == [] then "" else [HexDigit(b[0] / 16), HexDigit(b[0] % 16)] + Hex(b[1..])
  }

  ghost function CacheKey(h: HashFunction, c: Config, token: Bytes): string {
    Hex(h(KeyInput(h, c, token)))
  }

  lemma {:induction false} HexInjective(a: Bytes, b: Bytes)
    requires Hex(a) == Hex(b)
    ensures a == b
  {
    if a != [] && b != [] {
      var x, y := [HexDigit(a[0] / 16), HexDigit(a[0] % 16)], [HexDigit(b[0] / 16), HexDigit(b[0] % 16)];
      SplitConcat(x, y, Hex(a[1..]), Hex(b[1..]));
      assert x[0] == y[0] && x[1] == y[1];
      HexInjective(a[1..], b[1..]);
      assert a == [a[0]] + a[1..] && b == [b[0]] + b[1..];
    }
  }

  lemma {:induction false} FieldsPrefixFree(a: seq<Bytes>, b: seq<Bytes>, r: Bytes, s: Bytes)
    requires |a| == |b| && forall x :: x in a || x in b ==> |x| < TWO_64
    requires Fields(a) + r == Fields(b) + s
    ensures a == b && r == s
  {
    if a == [] {
      SplitConcat([], [], r, s);
    } else {
      Assoc(Field(a[0]), Fields(a[1..]), r);
      Assoc(Field(b[0]), Fields(b[1..]), s);
      FieldPrefixFree(a[0], b[0], Fields(a[1..]) + r, Fields(b[1..]) + s);
      FieldsPrefixFree(a[1..], b[1..], r, s);
    }
  }

  lemma DurationsInjective(c: Config, d: Config)
    requires SizedConfig(c) && SizedConfig(d) && Durations(c) == Durations(d)
    ensures c.leeway == d.leeway && c.tokenTtl == d.tokenTtl && c.negativeTtl == d.negativeTtl
  {
    var x, y := Word64(c.tokenTtl) + Word64(c.negativeTtl), Word64(d.tokenTtl) + Word64(d.negativeTtl);
    SplitConcat(Word64(c.leeway), Word64(d.leeway), x, y);
    SplitConcat(Word64(c.tokenTtl), Word64(d.tokenTtl), Word64(c.negativeTtl), Word64(d.negativeTtl));
    WordInjective(c.leeway, d.leeway);
    WordInjective(c.tokenTtl, d.tokenTtl);
    WordInjective(c.negativeTtl, d.negativeTtl);
  }

  lemma FingerprintInputInjective(p: Bytes, c: Config, q: Bytes, d: Config)
    requires |p| == |q| == 32 && SizedConfig(c) && SizedConfig(d)
    requires FingerprintInput(p, c) == FingerprintInput(q, d)
    ensures p == q && c == d.(keyManagers := c.keyManagers)
  {
    var restC := Fields(c.issuers) + Durations(c);
    var restD := Fields(d.issuers) + Durations(d);
    var countC, countD := Word64(|c.issuers|) + restC, Word64(|d.issuers|) + restD;
    FieldPrefixFree(p, q, Flag(c.validateIssuer) + countC, Flag(d.validateIssuer) + countD);
    SplitConcat(Flag(c.validateIssuer), Flag(d.validateIssuer), countC, countD);
    assert Flag(c.validateIssuer)[0] == Flag(d.validateIssuer)[0];
    SplitConcat(Word64(|c.issuers|), Word64(|d.issuers|), restC, restD);
    WordInjective(|c.issuers|, |d.issuers|);
    FieldsPrefixFree(c.issuers, d.issuers, Durations(c), Durations(d));
    DurationsInjective(c, d);
  }

  /** No collision among the preimages the two keys are computed from. */
  ghost predicate CollisionFree(h: HashFunction, c: Config, t: Bytes, d: Config, u: Bytes) {
    && NoCollision(h, Encode(c.keyManagers), Encode(d.keyManagers))
    && NoCollision(h, FingerprintInput(ConfigDigest(h, c), c), FingerprintInput(ConfigDigest(h, d), d))
    && NoCollision(h, KeyInput(h, c, t), KeyInput(h, d, u))
  }

  /** Two requests share a cache entry exactly when nothing a verdict or its lifetime depends on differs. */
  lemma CacheKeyDetermines(h: HashFunction, c: Config, t: Bytes, d: Config, u: Bytes)
    requires Digest32(h) && SizedConfig(c) && SizedConfig(d)
    requires CollisionFree(h, c, t, d, u)
    ensures CacheKey(h, c, t) == CacheKey(h, d, u) <==> CanonicalConfig(c) == CanonicalConfig(d) && t == u
  {
    InjectiveUpToNumberKind(c.keyManagers, d.keyManagers);
    if CacheKey(h, c, t) == CacheKey(h, d, u) {
      HexInjective(h(KeyInput(h, c, t)), h(KeyInput(h, d, u)));
      SplitConcat(Fingerprint(h, c), Fingerprint(h, d), [0] + t, [0] + u);
      SplitConcat([0], [0], t, u);
      FingerprintInputInjective(ConfigDigest(h, c), c, ConfigDigest(h, d), d);
    }
    if CanonicalConfig(c) == CanonicalConfig(d) {
      assert c == d.(keyManagers := c.keyManagers);
      assert FingerprintInput(ConfigDigest(h, c), c) == FingerprintInput(ConfigDigest(h, d), d);
    }
  }

  /** The key as the request path computes it, through three pooled hashers. */
  method BuildCacheKey(h: HashFunction, c: Config, token: Bytes) returns (key: string)
    ensures key == CacheKey(h, c, token)
  {
    var digester := new ConfigHasher();
    digester.AppendValue(c.keyManagers);
    assert digester.buf == Encode(c.keyManagers);
    var fingerprint := BuildFingerprint(h, h(digester.buf), c);
    var input := fingerprint;
    input := input + [0];
    input := input + token;
    Assoc(fingerprint, [0], token);
    key := Hex(h(input));
  }

  method BuildFingerprint(h: HashFunction, digest: Bytes, c: Config) returns (fingerprint: Bytes)
    ensures fingerprint == h(FingerprintInput(digest, c))
  {
    var hasher := new ConfigHasher();
    hasher.AppendField(digest);
    hasher.buf := hasher.buf + Flag(c.validateIssuer);
    hasher.buf := hasher.buf + Word64(|c.issuers|);
    ghost var head := hasher.buf;
    var i := 0;
    assert c.issuers[0..] == c.issuers;
    while i < |c.issuers|
      invariant 0 <= i <= |c.issuers|
      invariant hasher.buf + Fields(c.issuers[i..]) == head + Fields(c.issuers)
    {
      ghost var before := hasher.buf;
      hasher.AppendField(c.issuers[i]);
      assert c.issuers[i..][1..] == c.issuers[i + 1..];
      Assoc(before, Field(c.issuers[i]), Fields(c.issuers[i + 1..]));
      i := i + 1;
    }
    ghost var listed := hasher.buf;
    hasher.buf := hasher.buf + Word64(c.leeway);
    hasher.buf := hasher.buf + Word64(c.tokenTtl);
    hasher.buf := hasher.buf + Word64(c.negativeTtl);
    assert hasher.buf == listed + Durations(c);
    FingerprintAssembled(digest, c, head, listed, hasher.buf);
    fingerprint := h(hasher.buf);
  }

  lemma FingerprintAssembled(digest: Bytes, c: Config, head: Bytes, listed: Bytes, buf: Bytes)
    requires head == Field(digest) + Flag(c.validateIssuer) + Word64(|c.issuers|)
    requires listed == head + Fields(c.issuers) && buf == listed + Durations(c)
    ensures buf == FingerprintInput(digest, c)
  {
  }
}
