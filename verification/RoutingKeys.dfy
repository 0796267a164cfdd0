/** The byte strings that identities are hashed from. A string is its bytes. */
module RoutingKeys {
  import opened Ints
  import opened Options
  import opened Fields

  const VERSION: Byte := 1

  /** What a hasher is fed: the version, then each field with its length. */
  function Tagged(fs: seq<Bytes>): Bytes { [VERSION] + EncodeFields(fs) }

  lemma TaggedInjective(a: seq<Bytes>, b: seq<Bytes>)
    requires Tagged(a) == Tagged(b)
    ensures a == b
  {
    assert Tagged(a)[1..] == EncodeFields(a) && Tagged(b)[1..] == EncodeFields(b);
    FieldsInjective(a, b);
  }

  /** The writing loop of the hasher and of the continuation tuple. */
  method WriteFields(fs: seq<Bytes>) returns (written: Bytes)
    requires forall f | f in fs :: |f| < TWO64
    ensures written == Tagged(fs) && |written| > 0 && written[0] == 1
  {
    written := [VERSION];
    for i := 0 to |fs|
      invariant written == Tagged(fs[..i])
    {
      var len := EncodeUvarint(|fs[i]|);
      written := written + len;
      written := written + fs[i];
      assert fs[..i + 1][..i] == fs[..i];
      assert written == Tagged(fs[..i + 1]);
    }
    assert fs[..|fs|] == fs;
  }

  // ------------------------------------------------------- strings

  /** An ASCII literal as bytes. */
  function Text(s: string): (r: Bytes)
    ensures |r| == |s|
  {
    seq(|s|, i requires 0 <= i < |s| => s[i] as int % 128)
  }

  predicate Between(b: Byte, lo: int, hi: int) { lo <= b <= hi }

  predicate Cont(b: Byte) { Between(b, 0x80, 0xBF) }

  /** The width of the well-formed code point at the head of `s` (section 4 of RFC 3629), 0 if there is none. */
  function Width(s: Bytes): (w: nat)
    ensures w <= |s|
  {
    if s == [] then 0
    else if s[0] < 0x80 then 1
    else if |s| >= 2 && Between(s[0], 0xC2, 0xDF) && Cont(s[1]) then 2
    else if |s| >= 3 && Cont(s[2]) &&
      ((s[0] == 0xE0 && Between(s[1], 0xA0, 0xBF)) || (s[0] == 0xED && Between(s[1], 0x80, 0x9F))
       || (Between(s[0], 0xE1, 0xEF) && s[0] != 0xED && Cont(s[1]))) then 3
    else if |s| >= 4 && Cont(s[2]) && Cont(s[3]) &&
      ((s[0] == 0xF0 && Between(s[1], 0x90, 0xBF)) || (s[0] == 0xF4 && Between(s[1], 0x80, 0x8F))
       || (Between(s[0], 0xF1, 0xF3) && Cont(s[1]))) then 4
    else 0
  }

  predicate ValidUtf8(s: Bytes) {
    s == [] || (Width(s) > 0 && ValidUtf8(s[Width(s)..]))
  }

  /** The code points that have an encoding. */
  predicate Scalar(c: int) { 0 <= c < 0xD800 || 0xDFFF < c <= 0x10FFFF }

  /** The encoding of a code point (section 3 of RFC 3629). */
  function EncodeRune(c: int): Bytes
    requires Scalar(c)
  {
    if c < 0x80 then [c]
    else if c < 0x800 then [0xC0 + c / 64, 0x80 + c % 64]
    else if c < 0x1_0000 then [0xE0 + c / 4096, 0x80 + c / 64 % 64, 0x80 + c % 64]
    else [0xF0 + c / 262144, 0x80 + c / 4096 % 64, 0x80 + c / 64 % 64, 0x80 + c % 64]
  }

  /** The code point read off the head of `s`. */
  function Rune(s: Bytes): int
    requires Width(s) > 0
  {
    match Width(s)
    case 1 => s[0]
    case 2 => Above(s[0], 0xC0) * 64 + Above(s[1], 0x80)
    case 3 => Above(s[0], 0xE0) * 4096 + Above(s[1], 0x80) * 64 + Above(s[2], 0x80)
    case _ => Above(s[0], 0xF0) * 262144 + Above(s[1], 0x80) * 4096 + Above(s[2], 0x80) * 64 + Above(s[3], 0x80)
  }

  function Above(b: Byte, mark: int): int { b as int - mark }

  lemma Digit(hi: int, lo: int)
    requires 0 <= lo < 64
    ensures (hi * 64 + lo) / 64 == hi && (hi * 64 + lo) % 64 == lo
  {}

  /** Base-64 digits are read back from the number they make. */
  lemma Digits(a: int, b: int, c: int, d: int, x: int)
    requires 0 <= b < 64 && 0 <= c < 64 && 0 <= d < 64 && x == a * 262144 + b * 4096 + c * 64 + d
    ensures x % 64 == d && x / 64 % 64 == c && x / 4096 % 64 == b && x / 262144 == a && x / 4096 == a * 64 + b
    ensures x / 64 == a * 4096 + b * 64 + c
  {
    Digit(a * 4096 + b * 64 + c, d);
    Digit(a * 64 + b, c);
    Digit(a, b);
    assert x / 4096 == x / 64 / 64 && x / 262144 == x / 64 / 64 / 64;
  }

  /** The validity check accepts no other bytes than encodings. */
  lemma WidthSound(s: Bytes)
    requires Width(s) > 0
    ensures Scalar(Rune(s)) && EncodeRune(Rune(s)) == s[..Width(s)]
  {
    match Width(s)
    case 1 => assert s[..1] == [s[0]];
    case 2 => WidthSound2(s);
    case 3 => WidthSound3(s);
    case _ => WidthSound4(s);
  }

  lemma WidthSound2(s: Bytes)
    requires Width(s) == 2
    ensures Scalar(Rune(s)) && EncodeRune(Rune(s)) == s[..2]
  {
    Digits(0, 0, Above(s[0], 0xC0), Above(s[1], 0x80), Rune(s));
  }

  lemma WidthSound3(s: Bytes)
    requires Width(s) == 3
    ensures Scalar(Rune(s)) && EncodeRune(Rune(s)) == s[..3]
  {
    Digits(0, Above(s[0], 0xE0), Above(s[1], 0x80), Above(s[2], 0x80), Rune(s));
  }

  lemma WidthSound4(s: Bytes)
    requires Width(s) == 4
    ensures Scalar(Rune(s)) && EncodeRune(Rune(s)) == s[..4]
  {
    Digits(Above(s[0], 0xF0), Above(s[1], 0x80), Above(s[2], 0x80), Above(s[3], 0x80), Rune(s));
  }

  /** ... and all of them. */
  lemma WidthComplete(c: int, rest: Bytes)
    requires Scalar(c)
    ensures Width(EncodeRune(c) + rest) == |EncodeRune(c)|
  {
    var s := EncodeRune(c) + rest;
    var x, y, z, w := c / 262144, c / 4096 % 64, c / 64 % 64, c % 64;
    assert c == x * 262144 + y * 4096 + z * 64 + w by { Places(c); }
    if c < 0x80 {
      assert s[0] == c;
    } else if c < 0x800 {
      Digits(x, y, z, w, c);
      assert s[0] == 0xC0 + c / 64 && s[1] == 0x80 + w;
    } else if c < 0x1_0000 {
      Digits(x, y, z, w, c);
      assert s[0] == 0xE0 + c / 4096 && s[1] == 0x80 + z && s[2] == 0x80 + w;
    } else {
      assert s[0] == 0xF0 + x && s[1] == 0x80 + y && s[2] == 0x80 + z && s[3] == 0x80 + w;
    }
  }

  lemma Places(c: int)
    ensures c == c / 262144 * 262144 + c / 4096 % 64 * 4096 + c / 64 % 64 * 64 + c % 64
  {
    assert c / 4096 == c / 64 / 64 && c / 262144 == c / 64 / 64 / 64;
  }

  function EncodeRunes(cs: seq<int>): Bytes
    requires forall i | 0 <= i < |cs| :: Scalar(cs[i])
  {
    if cs == [] then [] else EncodeRune(cs[0]) + EncodeRunes(cs[1..])
  }

  /** A byte string is valid if and only if it is the encoding of some code points. */
  lemma {:induction false} ValidUtf8Sound(s: Bytes) returns (cs: seq<int>)
    requires ValidUtf8(s)
    ensures (forall i | 0 <= i < |cs| :: Scalar(cs[i])) && EncodeRunes(cs) == s
    decreases |s|
  {
    hide Width, EncodeRune;
    if s == [] { return []; }
    WidthSound(s);
    var rest := ValidUtf8Sound(s[Width(s)..]);
    cs := [Rune(s)] + rest;
    assert cs[1..] == rest;
    assert s == s[..Width(s)] + s[Width(s)..];
  }

  lemma {:induction false} ValidUtf8Complete(cs: seq<int>)
    requires forall i | 0 <= i < |cs| :: Scalar(cs[i])
    ensures ValidUtf8(EncodeRunes(cs))
    decreases |cs|
  {
    hide Width;
    if cs != [] {
      ValidUtf8Complete(cs[1..]);
      var head, rest := EncodeRune(cs[0]), EncodeRunes(cs[1..]);
      WidthComplete(cs[0], rest);
      assert (head + rest)[|head|..] == rest;
    }
  }

  /** The fixed names are ASCII, so encoding them as strings cannot fail. */
  lemma {:induction false} TextIsUtf8(s: string)
    ensures ValidUtf8(Text(s))
  {
    if s != [] {
      assert Text(s)[1..] == Text(s[1..]);
      TextIsUtf8(s[1..]);
    }
  }

  predicate ValidFormat(s: Bytes) {
    s in {Text("openai-chat"), Text("openai-responses"), Text("openai-responses-ws"), Text("anthropic"), Text("openai-images"),
          Text("openai-search")}
  }

  predicate ValidOperation(s: Bytes) {
    s in {Text("chat_completions"), Text("responses"), Text("responses_ws"), Text("anthropic_messages"),
          Text("images_generations"), Text("images_edits"), Text("search")}
  }

  predicate ValidCaller(s: Bytes) {
    s in {Text("chat"), Text("responses"), Text("anthropic"), Text("images"), Text("search"), Text("responses_ws"),
          Text("converted")}
  }

  /** No caller kind is as long as an integer field. */
  lemma CallerIsNotEightBytes(s: Bytes)
    requires ValidCaller(s)
    ensures |s| != 8
  {}

  // ------------------------------------------------------- the three identities

  function RouteClassInput(group: int, clientFormat: Bytes, model: Bytes, op: Bytes): Option<Bytes>
    requires IsInt64(group)
  {
    if !ValidFormat(clientFormat) || !ValidOperation(op) || !ValidUtf8(model) then None
    else Some(Tagged([FieldInt64(group), clientFormat, model, op]))
  }

  function QualityClassInput(caller: Bytes, upstreamFormat: Bytes, model: Bytes, op: Bytes): Option<Bytes> {
    if !ValidCaller(caller) || !ValidFormat(upstreamFormat) || !ValidOperation(op) || !ValidUtf8(model) then None
    else Some(Tagged([caller, upstreamFormat, model, op]))
  }

  datatype CredType = ApiKey | ResponsesSpecial | CodexOAuth | CodexPat | Custom | OtherCred(name: Bytes)

  function CredName(t: CredType): Bytes {
    match t
    case ApiKey => Text("api_key")
    case ResponsesSpecial => Text("responses-special")
    case CodexOAuth => Text("codex-oauth")
    case CodexPat => Text("codex-pat")
    case Custom => Text("custom")
    case OtherCred(name) => name
  }

  datatype CandidateKey = CandidateKey(account: int, template: int, cred: CredType, baseUrl: Bytes, upstreamKey: Bytes,
                                       patKey: Bytes, codexAccount: Bytes, installation: Bytes, stripImageTools: bool)

  /** The library parts: a digest, and the origin of an address if it has one. */
  datatype Library = Library(digest: Bytes -> Bytes, origin: Bytes -> Option<Bytes>)

  function CredentialDigest(lib: Library, k: CandidateKey): Option<Bytes> {
    match k.cred
    case CodexPat => if k.patKey == [] then None else Some(lib.digest(k.patKey))
    case CodexOAuth => Some(lib.digest(Text("codex-oauth-stable-v1")))
    case OtherCred(_) => None
    case _ => if k.upstreamKey == [] then None else Some(lib.digest(k.upstreamKey))
  }

  /** The origin used: none at all is fine for the two codex credentials only. */
  function CandidateOrigin(lib: Library, k: CandidateKey): Option<Bytes> {
    if k.baseUrl == [] then (if k.cred.CodexOAuth? || k.cred.CodexPat? then Some([]) else None)
    else lib.origin(k.baseUrl)
  }

  function FieldBool(b: bool): Bytes { if b then [1] else [0] }

  function CandidateFields(k: CandidateKey, origin: Bytes, digest: Bytes): seq<Bytes>
    requires IsInt64(k.account) && IsInt64(k.template)
  {
    [FieldInt64(k.account), FieldInt64(k.template), CredName(k.cred), origin, digest, FieldBool(k.stripImageTools),
     k.installation, k.codexAccount]
  }

  function CandidateInput(lib: Library, k: CandidateKey): Option<Bytes>
    requires IsInt64(k.account) && IsInt64(k.template)
  {
    var origin, digest := CandidateOrigin(lib, k), CredentialDigest(lib, k);
    if k.cred.OtherCred? || origin.None? || digest.None? then None
    else if !ValidUtf8(k.installation) || !ValidUtf8(k.codexAccount) || !ValidUtf8(origin.value) then None
    else Some(Tagged(CandidateFields(k, origin.value, digest.value)))
  }

  /** Which secret identifies a candidate: the access token for a codex token, a fixed text for codex sign-in, the upstream key otherwise;
      without the one that is needed there is no identity. */
  lemma DigestIs(lib: Library, k: CandidateKey)
    ensures k.cred == CodexOAuth ==> CredentialDigest(lib, k) == Some(lib.digest(Text("codex-oauth-stable-v1")))
    ensures k.cred == CodexPat ==> CredentialDigest(lib, k) == if |k.patKey| > 0 then Some(lib.digest(k.patKey)) else None
    ensures k.cred in {ApiKey, ResponsesSpecial, Custom} ==>
              CredentialDigest(lib, k) == if |k.upstreamKey| > 0 then Some(lib.digest(k.upstreamKey)) else None
  {}

  /** When a route class has an identity: one of the six formats, one of the seven operations, and a model name in UTF-8. */
  lemma RouteClassIff(group: int, clientFormat: Bytes, model: Bytes, op: Bytes)
    requires IsInt64(group)
    ensures RouteClassInput(group, clientFormat, model, op).Some? <==> IsFormat(clientFormat) && IsOperation(op) && ValidUtf8(model)
  {
    hide Tagged, ValidUtf8, Text;
  }

  lemma QualityClassIff(caller: Bytes, upstreamFormat: Bytes, model: Bytes, op: Bytes)
    ensures QualityClassInput(caller, upstreamFormat, model, op).Some? <==>
            IsCaller(caller) && IsFormat(upstreamFormat) && IsOperation(op) && ValidUtf8(model)
  {
    hide Tagged, ValidUtf8, Text;
  }

  predicate IsFormat(s: Bytes) {
    || s == Text("openai-chat")
    || s == Text("openai-responses")
    || s == Text("openai-responses-ws")
    || s == Text("anthropic")
    || s == Text("openai-images")
    || s == Text("openai-search")
  }

  predicate IsOperation(s: Bytes) {
    || s == Text("chat_completions")
    || s == Text("responses")
    || s == Text("responses_ws")
    || s == Text("anthropic_messages")
    || s == Text("images_generations")
    || s == Text("images_edits")
    || s == Text("search")
  }

  predicate IsCaller(s: Bytes) {
    || s == Text("chat")
    || s == Text("responses")
    || s == Text("anthropic")
    || s == Text("images")
    || s == Text("search")
    || s == Text("responses_ws")
    || s == Text("converted")
  }

  /** When a candidate has an identity at all. */
  lemma CandidateIff(lib: Library, k: CandidateKey)
    requires IsInt64(k.account) && IsInt64(k.template)
    ensures CandidateInput(lib, k).Some? <==>
            && !k.cred.OtherCred? && CredentialDigest(lib, k).Some?
            && (|k.baseUrl| == 0 ==> k.cred in {CodexOAuth, CodexPat})
            && (|k.baseUrl| > 0 ==> lib.origin(k.baseUrl).Some? && ValidUtf8(lib.origin(k.baseUrl).value))
            && ValidUtf8(k.installation) && ValidUtf8(k.codexAccount)
  {
    hide CredentialDigest, Tagged, CandidateFields;
  }

  /** Two route classes are hashed from the same bytes only if they are the same. */
  lemma RouteClassInjective(g1: int, f1: Bytes, m1: Bytes, o1: Bytes, g2: int, f2: Bytes, m2: Bytes, o2: Bytes)
    requires IsInt64(g1) && IsInt64(g2)
    requires RouteClassInput(g1, f1, m1, o1).Some? && RouteClassInput(g1, f1, m1, o1) == RouteClassInput(g2, f2, m2, o2)
    ensures (g1, f1, m1, o1) == (g2, f2, m2, o2)
  {
    hide Tagged, FieldInt64, ValidFormat, ValidOperation, ValidUtf8;
    var a, b := [FieldInt64(g1), f1, m1, o1], [FieldInt64(g2), f2, m2, o2];
    TaggedInjective(a, b);
    assert a[0] == b[0] && a[1] == b[1] && a[2] == b[2] && a[3] == b[3];
    Int64Injective(g1, g2);
  }

  lemma QualityClassInjective(c1: Bytes, f1: Bytes, m1: Bytes, o1: Bytes, c2: Bytes, f2: Bytes, m2: Bytes, o2: Bytes)
    requires QualityClassInput(c1, f1, m1, o1).Some?
    requires QualityClassInput(c1, f1, m1, o1) == QualityClassInput(c2, f2, m2, o2)
    ensures (c1, f1, m1, o1) == (c2, f2, m2, o2)
  {
    hide Tagged, ValidCaller, ValidFormat, ValidOperation, ValidUtf8;
    var a, b := [c1, f1, m1, o1], [c2, f2, m2, o2];
    TaggedInjective(a, b);
    assert a[0] == b[0] && a[1] == b[1] && a[2] == b[2] && a[3] == b[3];
  }

  lemma CredNamesDistinct(s: CredType, t: CredType)
    requires !s.OtherCred? && !t.OtherCred? && CredName(s) == CredName(t)
    ensures s == t
  {
    assert Text("codex-pat")[0] != Text("api_key")[0];
    assert |CredName(s)| == |CredName(t)|;
  }

  /** Candidates with the same hash input agree on account, template, credential type, origin, credential digest, flag and
      codex identity. */
  lemma CandidateInjective(lib: Library, j: CandidateKey, k: CandidateKey)
    requires IsInt64(j.account) && IsInt64(j.template) && IsInt64(k.account) && IsInt64(k.template)
    requires CandidateInput(lib, j).Some? && CandidateInput(lib, j) == CandidateInput(lib, k)
    ensures j.account == k.account && j.template == k.template && j.cred == k.cred
    ensures CandidateOrigin(lib, j) == CandidateOrigin(lib, k) && CredentialDigest(lib, j) == CredentialDigest(lib, k)
    ensures j.stripImageTools == k.stripImageTools && j.installation == k.installation && j.codexAccount == k.codexAccount
  {
    hide Tagged, FieldInt64, ValidUtf8, CandidateOrigin, CredentialDigest, CredName;
    var a := CandidateFields(j, CandidateOrigin(lib, j).value, CredentialDigest(lib, j).value);
    var b := CandidateFields(k, CandidateOrigin(lib, k).value, CredentialDigest(lib, k).value);
    TaggedInjective(a, b);
    assert a[0] == b[0] && a[1] == b[1] && a[2] == b[2] && a[3] == b[3] && a[4] == b[4] && a[5] == b[5] && a[6] == b[6] && a[7] == b[7];
    Int64Injective(j.account, k.account);
    Int64Injective(j.template, k.template);
    CredNamesDistinct(j.cred, k.cred);
  }

  /** No two of the three identities, nor any of them and a continuation tuple, are ever hashed from the same bytes. */
  lemma InputsDisjoint(lib: Library, g: int, cf: Bytes, rm: Bytes, rop: Bytes, caller: Bytes, uf: Bytes, qm: Bytes, qop: Bytes,
                       k: CandidateKey, tuple: seq<Bytes>)
    requires IsInt64(g) && IsInt64(k.account) && IsInt64(k.template) && |tuple| == 5
    ensures var route, quality, candidate := RouteClassInput(g, cf, rm, rop), QualityClassInput(caller, uf, qm, qop), CandidateInput(lib, k);
            && (route.Some? ==> route != quality && route != candidate && route.value != Tagged(tuple))
            && (quality.Some? ==> quality != candidate && quality.value != Tagged(tuple))
            && (candidate.Some? ==> candidate.value != Tagged(tuple))
  {
    hide Tagged, ValidFormat, ValidOperation, ValidUtf8, ValidCaller, CandidateOrigin, CredentialDigest, CredName, FieldBool;
    var r, q := [FieldInt64(g), cf, rm, rop], [caller, uf, qm, qop];
    if Tagged(r) == Tagged(q) { TaggedInjective(r, q); assert r[0] == q[0]; }
    if ValidCaller(caller) { CallerIsNotEightBytes(caller); }
    var origin, digest := CandidateOrigin(lib, k), CredentialDigest(lib, k);
    if origin.Some? && digest.Some? {
      var c := CandidateFields(k, origin.value, digest.value);
      Different(r, c);
      Different(q, c);
      Different(c, tuple);
    }
    Different(r, tuple);
    Different(q, tuple);
  }

  lemma Different(a: seq<Bytes>, b: seq<Bytes>)
    requires |a| != |b|
    ensures Tagged(a) != Tagged(b)
  {
    hide Tagged;
    if Tagged(a) == Tagged(b) { TaggedInjective(a, b); }
  }

  // ------------------------------------------------------- the continuation tuple

  datatype ContinuationKey = ContinuationKey(user: int, group: int, routeClass: Bytes, protocolTag: Bytes, continuation: Bytes)

  predicate WellTyped(k: ContinuationKey) {
    IsInt64(k.user) && IsInt64(k.group) && |k.routeClass| == 32 && |k.protocolTag| < TWO64 && |k.continuation| < TWO64
  }

  function TupleFields(k: ContinuationKey): seq<Bytes>
    requires WellTyped(k)
  {
    [FieldInt64(k.user), FieldInt64(k.group), k.routeClass, k.protocolTag, k.continuation]
  }

  method CanonicalTuple(k: ContinuationKey) returns (out: Bytes)
    requires WellTyped(k)
    ensures out == Tagged(TupleFields(k))
  {
    out := WriteFields(TupleFields(k));
  }

  lemma TupleInjective(j: ContinuationKey, k: ContinuationKey)
    requires WellTyped(j) && WellTyped(k) && Tagged(TupleFields(j)) == Tagged(TupleFields(k))
    ensures j == k
  {
    hide Tagged, FieldInt64;
    var a, b := TupleFields(j), TupleFields(k);
    TaggedInjective(a, b);
    assert a[0] == b[0] && a[1] == b[1] && a[2] == b[2] && a[3] == b[3] && a[4] == b[4];
    Int64Injective(j.user, k.user);
    Int64Injective(j.group, k.group);
  }
}
