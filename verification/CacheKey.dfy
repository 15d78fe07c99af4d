// The exact-response cache key: fields joined by bars and hashed. Models
// build_cache_key in src/llm_router/caching.py. A temperature is represented by
// its printed form, and the hash is a parameter.
module CacheKey {
  import opened Models
  import opened Wrappers

  const BAR := '|'

  // The printed form of a float holds no bar.
  type FloatText = s: string | BAR !in s

  datatype Request = Request(
    tenant: string, fingerprint: string, maxTokens: nat, temperature: FloatText, privacy: Privacy,
    prompt: string)

  function PrivacyText(p: Privacy): string {
    match p
    case Public => "public"
    case Private => "private"
    case Restricted => "restricted"
  }

  function DigitChar(d: nat): char
    requires d < 10
  {
    ("0123456789")[d]
  }

  function Decimal(n: nat): string {
    if n < 10 then [DigitChar(n)] else Decimal(n / 10) + [DigitChar(n % 10)]
  }

  const MAX_TOKENS := "max_tokens="
  const TEMPERATURE := "temperature="
  const PRIVACY := "privacy="

  function Glued(a: string, b: string): string {
    a + [BAR] + b
  }

  // "|".join over the fields.
  function Join(fields: seq<string>): string
    requires fields != []
  {
    if |fields| == 1 then fields[0] else Glued(fields[0], Join(fields[1..]))
  }

  function Fields(r: Request): seq<string> {
    [r.tenant, r.fingerprint, MAX_TOKENS + Decimal(r.maxTokens), TEMPERATURE + r.temperature,
     PRIVACY + PrivacyText(r.privacy), r.prompt]
  }

  function Material(r: Request): string {
    Join(Fields(r))
  }

  // ------------------------------------------------------------------ decoder

  // Split at the first n bars; the rest stays whole.
  function Split(text: string, n: nat): (r: seq<string>)
    ensures r != []
  {
    if n == 0 || BAR !in text then [text] else [Before(text)] + Split(After(text), n - 1)
  }

  // The text before the first bar.
  function Before(text: string): (r: string)
    ensures |r| <= |text|
    ensures BAR in text ==> |r| < |text|
  {
    if text == [] || text[0] == BAR then [] else [text[0]] + Before(text[1..])
  }

  // The text after the first bar.
  function After(text: string): string
    requires BAR in text
  {
    text[|Before(text)| + 1..]
  }

  function Stripped(tag: string, text: string): Option<string> {
    if tag <= text then Some(text[|tag|..]) else None
  }

  function DigitValue(c: char): Option<nat> {
    if '0' <= c <= '9' then Some(c as int - '0' as int) else None
  }

  function ParseDecimal(text: string): Option<nat> {
    if text == [] then Some(0)
    else
      var before := ParseDecimal(text[..|text| - 1]);
      var digit := DigitValue(text[|text| - 1]);
      if before.None? || digit.None? then None else Some(before.value * 10 + digit.value)
  }

  function ParsePrivacy(text: string): Option<Privacy> {
    if text == "public" then Some(Public)
    else if text == "private" then Some(Private)
    else if text == "restricted" then Some(Restricted)
    else None
  }

  function Decode(material: string): Option<Request> {
    var f := Split(material, 5);
    if |f| != 6 then None
    else
      var tokens, temperature := Stripped(MAX_TOKENS, f[2]), Stripped(TEMPERATURE, f[3]);
      var privacy := Stripped(PRIVACY, f[4]);
      if tokens.None? || temperature.None? || privacy.None? then None
      else
        var n, p := ParseDecimal(tokens.value), ParsePrivacy(privacy.value);
        if n.None? || p.None? || BAR in temperature.value then None
        else Some(Request(f[0], f[1], n.value, temperature.value, p.value, f[5]))
  }

  lemma {:induction false} DecimalParses(n: nat)
    ensures ParseDecimal(Decimal(n)) == Some(n) && BAR !in Decimal(n)
  {
    if n < 10 {
      assert Decimal(n)[..0] == [];
      DigitParses(n);
    } else {
      DecimalParses(n / 10);
      DigitParses(n % 10);
      assert Decimal(n)[..|Decimal(n)| - 1] == Decimal(n / 10);
    }
  }

  lemma DigitParses(d: nat)
    requires d < 10
    ensures DigitValue(DigitChar(d)) == Some(d) && DigitChar(d) != BAR
  {
  }

  lemma {:induction false} GluedSplits(a: string, b: string)
    requires BAR !in a
    ensures BAR in Glued(a, b) && Before(Glued(a, b)) == a && After(Glued(a, b)) == b
  {
    var text := Glued(a, b);
    assert text[|a|] == BAR;
    if a != [] {
      assert text[1..] == Glued(a[1..], b);
      GluedSplits(a[1..], b);
    }
    assert text[|a| + 1..] == b;
  }

  lemma {:induction false} SplitJoins(fields: seq<string>)
    requires fields != [] && forall i :: 0 <= i < |fields| - 1 ==> BAR !in fields[i]
    ensures Split(Join(fields), |fields| - 1) == fields
  {
    hide Glued, After, Before;
    if |fields| > 1 {
      var rest := fields[1..];
      forall i | 0 <= i < |rest| - 1 ensures BAR !in rest[i] {
        assert rest[i] == fields[i + 1];
      }
      GluedSplits(fields[0], Join(rest));
      SplitJoins(rest);
      assert fields == [fields[0]] + rest;
    }
  }

  lemma LabelStrips(tag: string, text: string)
    ensures Stripped(tag, tag + text) == Some(text)
  {
    assert (tag + text)[..|tag|] == tag;
  }

  // Neither the tenant nor the catalog fingerprint contains a bar.
  predicate Separable(r: Request) {
    BAR !in r.tenant && BAR !in r.fingerprint
  }

  /** The round trip: without bars in tenant and fingerprint the material determines the request,
      the whole prompt included, which may hold bars of its own. */
  lemma MaterialDecodes(r: Request)
    requires Separable(r)
    ensures Decode(Material(r)) == Some(r)
  {
    hide Join, Split, Decimal, ParseDecimal, Stripped;
    var f := Fields(r);
    DecimalParses(r.maxTokens);
    FieldsHaveNoBar(r);
    SplitJoins(f);
    LabelStrips(MAX_TOKENS, Decimal(r.maxTokens));
    LabelStrips(TEMPERATURE, r.temperature);
    LabelStrips(PRIVACY, PrivacyText(r.privacy));
    PrivacyParses(r.privacy);
  }

  lemma PrivacyParses(p: Privacy)
    ensures ParsePrivacy(PrivacyText(p)) == Some(p) && BAR !in PrivacyText(p)
  {
  }

  lemma FieldsHaveNoBar(r: Request)
    requires Separable(r)
    ensures forall i :: 0 <= i < 5 ==> BAR !in Fields(r)[i]
  {
    hide Decimal;
    DecimalParses(r.maxTokens);
    PrivacyParses(r.privacy);
    assert BAR !in MAX_TOKENS && BAR !in TEMPERATURE && BAR !in PRIVACY;
  }

  /** And it holds for those requests only. */
  lemma MaterialDecodesIff(r: Request)
    ensures Decode(Material(r)) == Some(r) <==> Separable(r)
  {
    if Separable(r) {
      MaterialDecodes(r);
    } else {
      SplitFieldsHaveNoBar(Material(r), 5);
      var f := Split(Material(r), 5);
      assert |f| == 6 ==> BAR !in f[0] && BAR !in f[1];
    }
  }

  lemma {:induction false} BeforeHasNoBar(text: string)
    ensures BAR !in Before(text)
  {
    if text != [] && text[0] != BAR {
      BeforeHasNoBar(text[1..]);
    }
  }

  lemma {:induction false} SplitFieldsHaveNoBar(text: string, n: nat)
    ensures forall i :: 0 <= i < |Split(text, n)| - 1 ==> BAR !in Split(text, n)[i]
  {
    if n > 0 && BAR in text {
      BeforeHasNoBar(text);
      var rest := Split(After(text), n - 1);
      SplitFieldsHaveNoBar(After(text), n - 1);
      forall i | 0 <= i < |Split(text, n)| - 1 ensures BAR !in Split(text, n)[i] {
        if i > 0 { assert Split(text, n)[i] == rest[i - 1]; }
      }
    }
  }

  ghost predicate Injective(hash: string -> string) {
    forall a, b :: hash(a) == hash(b) ==> a == b
  }

  function BuildCacheKey(hash: string -> string, r: Request): string {
    hash(Material(r))
  }

  /** Two requests that share a key are the same request, tenant and prompt included. */
  lemma KeysSeparateRequests(hash: string -> string, a: Request, b: Request)
    requires Injective(hash) && Separable(a) && Separable(b)
    requires BuildCacheKey(hash, a) == BuildCacheKey(hash, b)
    ensures a == b
  {
    MaterialDecodes(a);
    MaterialDecodes(b);
  }

  lemma {:induction false} JoinLast(fields: seq<string>, last: string)
    ensures Join(fields + [last]) == Join(fields + [""]) + last
  {
    if fields != [] {
      assert (fields + [last])[1..] == fields[1..] + [last];
      assert (fields + [""])[1..] == fields[1..] + [""];
      JoinLast(fields[1..], last);
    }
  }

  lemma MaterialEndsWithPrompt(r: Request)
    ensures Material(r) == Material(r.(prompt := "")) + r.prompt
  {
    var f := Fields(r);
    assert f == f[..5] + [r.prompt];
    assert Fields(r.(prompt := "")) == f[..5] + [""];
    JoinLast(f[..5], r.prompt);
  }

  /** The condition is needed: for any two requests and any text x, extending the first one's
      prompt and giving the second one a tenant with bars makes them share one key. */
  lemma BarInTenantIsAmbiguous(hash: string -> string, a: Request, b: Request, x: string)
    ensures var first := a.(prompt := Glued(x, Join(Fields(b)[1..])));
      var second := b.(tenant := Material(a.(prompt := "")) + x);
      BuildCacheKey(hash, first) == BuildCacheKey(hash, second)
  {
    var rest := Join(Fields(b)[1..]);
    var first := a.(prompt := Glued(x, rest));
    var second := b.(tenant := Material(a.(prompt := "")) + x);
    MaterialEndsWithPrompt(first);
    assert first.(prompt := "") == a.(prompt := "");
    assert Fields(second)[1..] == Fields(b)[1..];
    assert Material(second) == Glued(second.tenant, rest);
    assert Material(first) == Material(second);
  }

  // ------------------------------------------- when two requests share a key

  predicate OfTenant(r: Request, tenant: string, fingerprint: string) {
    r.tenant == tenant && r.fingerprint == fingerprint
  }

  // A catalog fingerprint is a run of hexadecimal digits.
  predicate PlainFingerprint(f: string) {
    BAR !in f && !(MAX_TOKENS <= f) && !(TEMPERATURE <= f) && !(PRIVACY <= f)
  }

  // One tenant's name, ended by its bar, runs through the whole key material that
  // some request of another tenant has in front of its prompt.
  ghost predicate Absorbs(tenant: string, other: string, fingerprint: string) {
    exists r :: OfTenant(r, other, fingerprint) && r.prompt == "" && Material(r) <= tenant + [BAR]
  }

  // Where a bar-free field meets another text that starts the same line: the
  // other text is that field, or runs past its bar.
  lemma FirstBar(u: string, x: string, v: string, y: string)
    requires BAR !in u && Glued(u, x) == Glued(v, y)
    ensures (v == u && x == y) || (|u| < |v| && Glued(u, []) <= v && x == Glued(v[|u| + 1..], y))
  {
    var text := Glued(u, x);
    assert text == Glued(v, y) && text[|u|] == BAR && text[|v|] == BAR;
    assert forall i :: 0 <= i < |u| ==> text[i] == u[i];
    assert text[..|u|] == u && text[..|v|] == v && text[|u| + 1..] == x && text[|v| + 1..] == y;
    if |v| > |u| {
      assert v[..|u| + 1] == text[..|u| + 1] == Glued(u, []);
      assert x == text[|u| + 1..] == Glued(v, y)[|u| + 1..] == Glued(v[|u| + 1..], y);
    }
  }

  lemma SegmentsDiffer(u: string, x: string, g: string, y: string)
    requires BAR !in u && BAR !in g && u != g
    ensures Glued(u, x) != Glued(g, y)
  {
    assert Glued(u, x)[|u|] == BAR && Glued(g, y)[|g|] == BAR;
    assert Glued(u, x)[..|u|] == u && Glued(g, y)[..|g|] == g;
    assert |u| < |g| ==> Glued(g, y)[|u|] == g[|u|];
    assert |g| < |u| ==> Glued(u, x)[|g|] == u[|g|];
  }

  lemma JoinTail(fields: seq<string>, last: string)
    requires fields != []
    ensures Join(fields + [last]) == Glued(fields[0], Join(fields[1..] + [last]))
  {
    assert (fields + [last])[1..] == fields[1..] + [last];
  }

  // A text followed by a bar-free field that is none of these runs through all of them.
  lemma {:induction false} RunsThrough(fields: seq<string>, last: string, v: string, g: string, y: string)
    requires fields != [] && forall i :: 0 <= i < |fields| ==> BAR !in fields[i]
    requires BAR !in g && forall i :: 1 <= i < |fields| ==> fields[i] != g
    requires Join(fields + [last]) == Glued(v, Glued(g, y))
    ensures Join(fields + [""]) <= Glued(v, [])
    decreases |fields|
  {
    hide Glued, Join;
    var rest := fields[1..];
    JoinTail(fields, last);
    JoinTail(fields, "");
    FirstBar(fields[0], Join(rest + [last]), v, Glued(g, y));
    if rest == [] {
      JoinedAlone("");
      GluedPrefix(fields[0], v);
    } else {
      assert forall i :: 0 <= i < |rest| ==> rest[i] == fields[i + 1];
      JoinTail(rest, last);
      SegmentsDiffer(rest[0], Join(rest[1..] + [last]), g, y);
      RunsThrough(rest, last, v[|fields[0]| + 1..], g, y);
      GluedOnto(fields[0], v, Join(rest + [""]));
    }
  }

  lemma JoinedAlone(last: string)
    ensures Join([] + [last]) == last
  {
    assert [] + [last] == [last];
  }

  lemma GluedPrefix(u: string, v: string)
    ensures v == u || Glued(u, []) <= v ==> Glued(u, "") <= Glued(v, [])
  {
  }

  lemma GluedOnto(u: string, v: string, x: string)
    requires Glued(u, []) <= v && x <= Glued(v[|u| + 1..], [])
    ensures Glued(u, x) <= Glued(v, [])
  {
    assert v == Glued(u, []) + v[|u| + 1..];
    assert Glued(v, []) == Glued(u, []) + Glued(v[|u| + 1..], []);
    assert Glued(u, x) == Glued(u, []) + x;
  }

  // What a material looks like after its tenant.
  function Middle(r: Request): seq<string> {
    [r.fingerprint, MAX_TOKENS + Decimal(r.maxTokens), TEMPERATURE + r.temperature, PRIVACY + PrivacyText(r.privacy)]
  }

  lemma MaterialIsGlued(r: Request)
    ensures Material(r) == Glued(r.tenant, Join(Middle(r) + [r.prompt]))
  {
    assert Fields(r)[1..] == Middle(r) + [r.prompt];
  }

  lemma MiddleIsPlain(r: Request, g: string)
    requires BAR !in r.fingerprint && PlainFingerprint(g)
    ensures forall i :: 0 <= i < 4 ==> BAR !in Middle(r)[i]
    ensures forall i :: 1 <= i < 4 ==> Middle(r)[i] != g
  {
    var plain := r.(tenant := "");
    FieldsHaveNoBar(plain);
    assert forall i :: 0 <= i < 4 ==> Middle(r)[i] == Fields(plain)[i + 1];
    assert MAX_TOKENS <= Middle(r)[1] && TEMPERATURE <= Middle(r)[2] && PRIVACY <= Middle(r)[3];
  }

  lemma LongerAbsorbs(a: Request, b: Request)
    requires BAR !in a.fingerprint && PlainFingerprint(b.fingerprint)
    requires |a.tenant| < |b.tenant| && Material(a) == Material(b)
    ensures Absorbs(b.tenant, a.tenant, a.fingerprint)
  {
    hide Join, Middle, Decimal;
    var s, t, g := a.tenant, b.tenant, b.fingerprint;
    var x, y := Join(Middle(a) + [a.prompt]), Join(Middle(b) + [b.prompt]);
    MaterialIsGlued(a);
    MaterialIsGlued(b);
    assert Glued(s, x)[..|s| + 1] == Glued(s, []) && Glued(t, y)[..|s| + 1] == t[..|s| + 1];
    var w := t[|s| + 1..];
    assert x == Glued(s, x)[|s| + 1..] == Glued(t, y)[|s| + 1..] == Glued(w, y);
    MiddleStarts(b);
    SameMiddle(a);
    MiddleIsPlain(a, g);
    RunsThrough(Middle(a), a.prompt, w, g, y[|g| + 1..]);
    var r := a.(prompt := "");
    MaterialIsGlued(r);
    GluedOnto(s, t, Join(Middle(r) + [""]));
    assert OfTenant(r, s, a.fingerprint) && Material(r) <= t + [BAR];
  }

  lemma SameMiddle(a: Request)
    ensures Middle(a.(prompt := "")) == Middle(a) && |Middle(a)| == 4
  {
  }

  lemma MiddleStarts(b: Request)
    ensures var y := Join(Middle(b) + [b.prompt]);
      |y| > |b.fingerprint| && y == Glued(b.fingerprint, y[|b.fingerprint| + 1..])
  {
    JoinTail(Middle(b), b.prompt);
  }

  // An absorbing tenant shares a key on every one of its requests.
  lemma AbsorbedShares(a: Request, b: Request) returns (c: Request)
    requires a.prompt == "" && Material(a) <= b.tenant + [BAR]
    ensures OfTenant(c, a.tenant, a.fingerprint) && Material(c) == Material(b)
  {
    hide Join;
    MaterialIsGlued(b);
    var text := Material(b);
    assert b.tenant + [BAR] <= text;
    c := a.(prompt := text[|Material(a)|..]);
    MaterialEndsWithPrompt(c);
    assert c.(prompt := "") == a;
  }

  ghost predicate ShareAKey(hash: string -> string, s: string, f: string, t: string, g: string) {
    exists a, b :: OfTenant(a, s, f) && OfTenant(b, t, g) && BuildCacheKey(hash, a) == BuildCacheKey(hash, b)
  }

  /** Exactly when entries can cross a tenant boundary: two tenants share some key if and
      only if one's name runs through the key material of a request of the other. */
  lemma TenantsShareAKeyIff(hash: string -> string, s: string, f: string, t: string, g: string)
    requires Injective(hash) && PlainFingerprint(f) && PlainFingerprint(g) && s != t
    ensures ShareAKey(hash, s, f, t, g) <==> Absorbs(t, s, f) || Absorbs(s, t, g)
  {
    hide Material, PlainFingerprint;
    if a, b :| OfTenant(a, s, f) && OfTenant(b, t, g) && BuildCacheKey(hash, a) == BuildCacheKey(hash, b) {
      SharingAbsorbs(a, b);
    }
    if Absorbs(t, s, f) {
      var r :| OfTenant(r, s, f) && r.prompt == "" && Material(r) <= t + [BAR];
      var b := r.(tenant := t, fingerprint := g);
      var a := AbsorbedShares(r, b);
      assert OfTenant(b, t, g) && BuildCacheKey(hash, a) == BuildCacheKey(hash, b);
    }
    if Absorbs(s, t, g) {
      var r :| OfTenant(r, t, g) && r.prompt == "" && Material(r) <= s + [BAR];
      var a := r.(tenant := s, fingerprint := f);
      var b := AbsorbedShares(r, a);
      assert OfTenant(a, s, f) && BuildCacheKey(hash, a) == BuildCacheKey(hash, b);
    }
  }

  lemma SharingAbsorbs(a: Request, b: Request)
    requires PlainFingerprint(a.fingerprint) && PlainFingerprint(b.fingerprint)
    requires a.tenant != b.tenant && Material(a) == Material(b)
    ensures Absorbs(b.tenant, a.tenant, a.fingerprint) || Absorbs(a.tenant, b.tenant, b.fingerprint)
  {
    StartsWithTenant(a);
    StartsWithTenant(b);
    if |a.tenant| < |b.tenant| {
      LongerAbsorbs(a, b);
    } else {
      LongerAbsorbs(b, a);
    }
  }

  lemma StartsWithTenant(r: Request)
    ensures |r.tenant| < |Material(r)| && Material(r)[..|r.tenant|] == r.tenant
  {
    MaterialIsGlued(r);
  }

  /** Within one tenant, whatever its name, requests that share a key are the same. */
  lemma TenantKeysSeparate(hash: string -> string, a: Request, b: Request)
    requires Injective(hash) && a.tenant == b.tenant && BAR !in a.fingerprint && BAR !in b.fingerprint
    ensures BuildCacheKey(hash, a) == BuildCacheKey(hash, b) <==> a == b
  {
    if BuildCacheKey(hash, a) == BuildCacheKey(hash, b) {
      var c, d := a.(tenant := ""), b.(tenant := "");
      MaterialIsGlued(a);
      MaterialIsGlued(b);
      MaterialIsGlued(c);
      MaterialIsGlued(d);
      assert Middle(c) == Middle(a) && Middle(d) == Middle(b);
      hide Join, Middle;
      assert Material(a)[|a.tenant| + 1..] == Join(Middle(a) + [a.prompt]);
      assert Material(b)[|b.tenant| + 1..] == Join(Middle(b) + [b.prompt]);
      KeysSeparateRequests(hash, c, d);
    }
  }

  /** Keys are digests: whatever the prompt, they have the length that the hash gives them. */
  lemma KeyHasDigestLength(hash: string -> string, r: Request, length: nat)
    requires forall text :: |hash(text)| == length
    ensures |BuildCacheKey(hash, r)| == length
  {
  }
}
