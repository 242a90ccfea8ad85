/** Tenant AI provider credentials: the key ring, the envelope an API key is stored in, and the checks a
    stored configuration passes before it is used. The cipher is ideal: a sealed box opens under the key,
    nonce and associated data it was sealed with and under nothing else (sections 7.1 and 7.2 of
    NIST SP 800-38D), and different master keys derive different cipher keys. */
module Credentials {
  import opened Text

  type Bytes = seq<bv8>

  datatype Error =
    | KeyIdInvalid | KeyRingInvalid | KeyInvalid | KeysDiffer | ActiveKeyMissing | KeyRequired
    | NotConfigured | TenantInvalid | ProviderRequired | ApiKeyRequired | RandomFailed
    | KeyUnavailable | FormatInvalid | NonceInvalid | PayloadInvalid | AuthenticationFailed | PlaintextInvalid
    | ConfigurationInvalid | Inactive | NotYetEffective | Expired

  datatype Result<+T> = Ok(value: T) | Err(error: Error)

  // ----- Key material -----

  predicate IsKeyIdCharacter(c: char) {
    'A' <= c <= 'Z' || 'a' <= c <= 'z' || '0' <= c <= '9' || c == '.' || c == '_' || c == '-'
  }

  predicate ValidKeyId(id: string) {
    1 <= |id| <= 64 && forall i :: 0 <= i < |id| ==> IsKeyIdCharacter(id[i])
  }

  /** ParseEncryptionKey. `decode` tries the hex and base64 encodings; blank text means no key. */
  function ParseKey(text: string, decode: string -> Option<Bytes>): Result<Bytes> {
    var value := TrimSpace(text);
    if value == "" then Ok([])
    else if decode(value).Some? && |decode(value).value| == 32 then Ok(decode(value).value)
    else Err(KeyInvalid)
  }

  /** What the text of a key ring is: blank, not a JSON object of strings, or an object. */
  datatype RingText = Blank | NotAnObject | Object(entries: map<string, string>)

  ghost predicate Lists(order: seq<string>, entries: map<string, string>) {
    && (forall id :: id in order <==> id in entries)
    && forall i, j :: 0 <= i < j < |order| ==> order[i] != order[j]
  }

  predicate ValidEntry(id: string, text: string, decode: string -> Option<Bytes>) {
    ValidKeyId(TrimSpace(id)) && ParseKey(text, decode).Ok? && |ParseKey(text, decode).value| == 32
  }

  ghost predicate ValidEntries(entries: map<string, string>, decode: string -> Option<Bytes>) {
    forall id :: id in entries ==> ValidEntry(id, entries[id], decode)
  }

  function KeyOf(text: string, decode: string -> Option<Bytes>): Bytes {
    match ParseKey(text, decode)
    case Ok(key) => key
    case Err(_) => []
  }

  /** The ring that going through the entries in this order leaves: of two ids that differ in white space
      only, the later one. */
  ghost function RingOf(order: seq<string>, entries: map<string, string>, decode: string -> Option<Bytes>): map<string, Bytes>
    requires forall id :: id in order ==> id in entries
  {
    if order == [] then map[]
    else
      var last := order[|order| - 1];
      RingOf(order[..|order| - 1], entries, decode)[TrimSpace(last) := KeyOf(entries[last], decode)]
  }

  /** ParseEncryptionKeyRing. A map is gone through in an order of the runtime's choosing. */
  method ParseKeyRing(text: RingText, order: seq<string>, decode: string -> Option<Bytes>)
    returns (r: Result<map<string, Bytes>>)
    requires text.Object? ==> Lists(order, text.entries)
    ensures text.Blank? ==> r == Ok(map[])
    ensures r.Ok? <==> text.Blank? || (text.Object? && text.entries != map[] && ValidEntries(text.entries, decode))
    ensures r.Ok? && text.Object? ==> r.value == RingOf(order, text.entries, decode)
  {
    if text.Blank? {
      return Ok(map[]);
    }
    if text.NotAnObject? || |text.entries| == 0 {
      assert text.Object? ==> text.entries == map[];
      return Err(KeyRingInvalid);
    }
    r := FillRing(text.entries, order, decode);
  }

  method FillRing(entries: map<string, string>, order: seq<string>, decode: string -> Option<Bytes>)
    returns (r: Result<map<string, Bytes>>)
    requires Lists(order, entries)
    ensures r.Ok? <==> ValidEntries(entries, decode)
    ensures r.Ok? ==> r.value == RingOf(order, entries, decode)
  {
    hide ValidEntry, KeyOf, ParseKey, ValidKeyId, TrimSpace, ValidEntries;
    var ring: map<string, Bytes> := map[];
    for i := 0 to |order|
      invariant ValidAmong(order[..i], entries, decode)
      invariant ring == RingOf(order[..i], entries, decode)
    {
      assert order[..i + 1][..i] == order[..i] && order[..i + 1] == order[..i] + [order[i]];
      assert order[i] in order;
      var id, raw := TrimSpace(order[i]), entries[order[i]];
      EntryChecks(order[i], raw, decode);
      AllMustBeValid(entries, order[i], decode);
      if !ValidKeyId(id) {
        return Err(KeyRingInvalid);
      }
      var key := ParseKey(raw, decode);
      if key.Err? || |key.value| != 32 {
        return Err(KeyRingInvalid);
      }
      ring := ring[id := key.value];
    }
    assert order[..|order|] == order;
    AllAreValid(order, entries, decode);
    r := Ok(ring);
  }

  ghost predicate ValidAmong(order: seq<string>, entries: map<string, string>, decode: string -> Option<Bytes>) {
    forall id :: id in order && id in entries ==> ValidEntry(id, entries[id], decode)
  }

  lemma AllMustBeValid(entries: map<string, string>, id: string, decode: string -> Option<Bytes>)
    requires id in entries
    ensures ValidEntries(entries, decode) ==> ValidEntry(id, entries[id], decode)
  {
  }

  lemma AllAreValid(order: seq<string>, entries: map<string, string>, decode: string -> Option<Bytes>)
    requires Lists(order, entries) && ValidAmong(order, entries, decode)
    ensures ValidEntries(entries, decode)
  {
    hide ValidEntry;
  }

  lemma EntryChecks(id: string, text: string, decode: string -> Option<Bytes>)
    ensures ValidEntry(id, text, decode) <==>
      ValidKeyId(TrimSpace(id)) && ParseKey(text, decode).Ok? && |ParseKey(text, decode).value| == 32
    ensures ParseKey(text, decode).Ok? ==> KeyOf(text, decode) == ParseKey(text, decode).value
  {
  }

  /** No two ids that differ in white space only stand for different keys. */
  ghost predicate IdsAgree(entries: map<string, string>, decode: string -> Option<Bytes>) {
    forall a, b :: a in entries && b in entries && TrimSpace(a) == TrimSpace(b) ==>
      KeyOf(entries[a], decode) == KeyOf(entries[b], decode)
  }

  ghost predicate OrderDoesNotMatter(entries: map<string, string>, decode: string -> Option<Bytes>) {
    forall a, b :: Lists(a, entries) && Lists(b, entries) ==> RingOf(a, entries, decode) == RingOf(b, entries, decode)
  }

  /** The ring depends on the order of the entries exactly when two ids clash after trimming. */
  lemma RingIsOrderFreeExactlyWhenIdsAgree(entries: map<string, string>, decode: string -> Option<Bytes>)
    ensures OrderDoesNotMatter(entries, decode) <==> IdsAgree(entries, decode)
  {
    hide TrimSpace, KeyOf;
    if IdsAgree(entries, decode) {
      forall a, b | Lists(a, entries) && Lists(b, entries)
        ensures RingOf(a, entries, decode) == RingOf(b, entries, decode)
      {
        SameRing(a, b, entries, decode);
      }
    }
    if OrderDoesNotMatter(entries, decode) {
      forall a, b | a in entries && b in entries && TrimSpace(a) == TrimSpace(b)
        ensures KeyOf(entries[a], decode) == KeyOf(entries[b], decode)
      {
        var lastA := OrderEndingWith(entries, a);
        var lastB := OrderEndingWith(entries, b);
        assert RingOf(lastA, entries, decode)[TrimSpace(a)] == KeyOf(entries[a], decode);
        assert RingOf(lastB, entries, decode)[TrimSpace(b)] == KeyOf(entries[b], decode);
        assert RingOf(lastA, entries, decode) == RingOf(lastB, entries, decode);
      }
    }
  }

  /** Each id of the ring is a trimmed id of the entries, with the key of one of those. */
  lemma {:induction false} RingContents(order: seq<string>, entries: map<string, string>, decode: string -> Option<Bytes>)
    requires forall id :: id in order ==> id in entries
    ensures forall id :: id in order ==> TrimSpace(id) in RingOf(order, entries, decode)
    ensures forall key :: key in RingOf(order, entries, decode) ==> exists id ::
              id in order && TrimSpace(id) == key && RingOf(order, entries, decode)[key] == KeyOf(entries[id], decode)
  {
    hide TrimSpace, KeyOf;
    if order != [] {
      var before, last := order[..|order| - 1], order[|order| - 1];
      assert order == before + [last];
      RingContents(before, entries, decode);
      forall key | key in RingOf(order, entries, decode)
        ensures exists id :: id in order && TrimSpace(id) == key && RingOf(order, entries, decode)[key] == KeyOf(entries[id], decode)
      {
        if key == TrimSpace(last) {
          assert last in order;
        } else {
          var id :| id in before && TrimSpace(id) == key && RingOf(before, entries, decode)[key] == KeyOf(entries[id], decode);
          assert id in order;
        }
      }
    }
  }

  lemma SameRing(a: seq<string>, b: seq<string>, entries: map<string, string>, decode: string -> Option<Bytes>)
    requires IdsAgree(entries, decode) && Lists(a, entries) && Lists(b, entries)
    ensures RingOf(a, entries, decode) == RingOf(b, entries, decode)
  {
    hide TrimSpace, KeyOf, RingOf;
    var ringA, ringB := RingOf(a, entries, decode), RingOf(b, entries, decode);
    forall key
      ensures key in ringA ==> key in ringB && ringA[key] == ringB[key]
      ensures key in ringB ==> key in ringA
    {
      if key in ringA {
        SameEntry(a, b, entries, decode, key);
      }
      if key in ringB {
        SameEntry(b, a, entries, decode, key);
      }
    }
  }

  lemma SameEntry(a: seq<string>, b: seq<string>, entries: map<string, string>, decode: string -> Option<Bytes>, key: string)
    requires IdsAgree(entries, decode) && Lists(a, entries) && Lists(b, entries)
    requires key in RingOf(a, entries, decode)
    ensures key in RingOf(b, entries, decode) && RingOf(a, entries, decode)[key] == RingOf(b, entries, decode)[key]
  {
    hide TrimSpace, KeyOf, RingOf;
    RingContents(a, entries, decode);
    RingContents(b, entries, decode);
    var x :| x in a && TrimSpace(x) == key && RingOf(a, entries, decode)[key] == KeyOf(entries[x], decode);
    assert x in b;
    var y :| y in b && TrimSpace(y) == key && RingOf(b, entries, decode)[key] == KeyOf(entries[y], decode);
  }

  lemma OrderEndingWith(entries: map<string, string>, id: string) returns (order: seq<string>)
    requires id in entries
    ensures Lists(order, entries) && order[|order| - 1] == id
  {
    var others := OrderOf(entries.Keys - {id});
    order := others + [id];
  }

  lemma {:induction false} OrderOf(ids: set<string>) returns (order: seq<string>)
    ensures forall id :: id in order <==> id in ids
    ensures forall i, j :: 0 <= i < j < |order| ==> order[i] != order[j]
    decreases |ids|
  {
    order := [];
    if ids != {} {
      var id :| id in ids;
      var others := OrderOf(ids - {id});
      order := others + [id];
    }
  }

  // ----- The manager -----

  datatype Config = Config(key: string, keys: RingText, keyId: string, requireEncryption: bool)

  datatype Manager = Manager(keys: map<string, Bytes>, activeKeyId: string, requireEncryption: bool)

  function ActiveKeyId(config: Config): string {
    if TrimSpace(config.keyId) == "" then "primary" else TrimSpace(config.keyId)
  }

  /** A manager either has no key at all or can encrypt with its active key, and every id is well formed. */
  ghost predicate Ready(m: Manager) {
    && ValidKeyId(m.activeKeyId)
    && (m.keys != map[] ==> m.activeKeyId in m.keys)
    && (m.requireEncryption ==> m.keys != map[])
    && forall id :: id in m.keys ==> ValidKeyId(id) && |m.keys[id]| == 32
  }

  /** The single key and the ring say the same about the active key. */
  predicate Compatible(ring: map<string, Bytes>, single: Bytes, active: string) {
    single != [] && active in ring ==> ring[active] == single
  }

  function Merged(ring: map<string, Bytes>, single: Bytes, active: string): map<string, Bytes> {
    if single == [] then ring else ring[active := single]
  }

  ghost predicate RingAccepted(config: Config, decode: string -> Option<Bytes>) {
    config.keys.Blank? || (config.keys.Object? && config.keys.entries != map[] && ValidEntries(config.keys.entries, decode))
  }

  ghost function RingFor(config: Config, order: seq<string>, decode: string -> Option<Bytes>): map<string, Bytes>
    requires config.keys.Object? ==> Lists(order, config.keys.entries)
  {
    if config.keys.Object? then RingOf(order, config.keys.entries, decode) else map[]
  }

  /** NewManager: the manager holds the ring and the single key, and it is ready to encrypt or holds no key. */
  method NewManager(config: Config, order: seq<string>, decode: string -> Option<Bytes>) returns (r: Result<Manager>)
    requires config.keys.Object? ==> Lists(order, config.keys.entries)
    ensures r.Ok? ==> Ready(r.value)
    ensures r.Ok? ==> ParseKey(config.key, decode).Ok?
    ensures r.Ok? ==>
      r.value == Manager(Merged(RingFor(config, order, decode), ParseKey(config.key, decode).value, ActiveKeyId(config)),
                         ActiveKeyId(config), config.requireEncryption)
    ensures r.Ok? <==>
      && ValidKeyId(ActiveKeyId(config)) && RingAccepted(config, decode) && ParseKey(config.key, decode).Ok?
      && Compatible(RingFor(config, order, decode), ParseKey(config.key, decode).value, ActiveKeyId(config))
      && var keys := Merged(RingFor(config, order, decode), ParseKey(config.key, decode).value, ActiveKeyId(config));
         if keys == map[] then !config.requireEncryption else ActiveKeyId(config) in keys
  {
    hide TrimSpace, ValidKeyId, RingOf, ValidEntries, Lists;
    var active := TrimSpace(config.keyId);
    if active == "" {
      active := "primary";
    }
    if !ValidKeyId(active) {
      return Err(KeyIdInvalid);
    }
    var ring := ParseKeyRing(config.keys, order, decode);
    if ring.Err? {
      return Err(KeyRingInvalid);
    }
    var single := ParseKey(config.key, decode);
    if single.Err? {
      return Err(KeyInvalid);
    }
    var keys := ring.value;
    RingForIsWellFormed(config, order, decode);
    if |single.value| > 0 {
      if active in keys && keys[active] != single.value {
        return Err(KeysDiffer);
      }
      keys := keys[active := single.value];
    }
    assert |keys| > 0 <==> keys != map[];
    if |keys| > 0 && active !in keys {
      return Err(ActiveKeyMissing);
    }
    if config.requireEncryption && |keys| == 0 {
      return Err(KeyRequired);
    }
    r := Ok(Manager(keys, active, config.requireEncryption));
  }

  lemma RingForIsWellFormed(config: Config, order: seq<string>, decode: string -> Option<Bytes>)
    requires config.keys.Object? ==> Lists(order, config.keys.entries)
    requires RingAccepted(config, decode)
    ensures forall id :: id in RingFor(config, order, decode) ==>
              ValidKeyId(id) && |RingFor(config, order, decode)[id]| == 32
  {
    if config.keys.Object? {
      RingIsWellFormed(order, config.keys.entries, decode);
    }
  }

  lemma {:induction false} RingIsWellFormed(order: seq<string>, entries: map<string, string>, decode: string -> Option<Bytes>)
    requires ValidEntries(entries, decode) && forall id :: id in order ==> id in entries
    ensures forall id :: id in RingOf(order, entries, decode) ==>
              ValidKeyId(id) && |RingOf(order, entries, decode)[id]| == 32
  {
    hide TrimSpace, ValidKeyId, ParseKey;
    if order != [] {
      var before, last := order[..|order| - 1], order[|order| - 1];
      assert order == before + [last];
      RingIsWellFormed(before, entries, decode);
    }
  }

  // ----- The envelope -----

  type Nonce = n: Bytes | |n| == 12 witness seq(12, _ => 0)

  datatype CipherKey = Derived(master: Bytes)

  datatype Box = Sealed(key: CipherKey, nonce: Bytes, plaintext: string, associated: string) | Forged(id: int)

  function Open(key: CipherKey, nonce: Bytes, box: Box, associated: string): Option<string> {
    if box.Sealed? && box == Sealed(key, nonce, box.plaintext, associated) then Some(box.plaintext) else None
  }

  /** The stored text: what its JSON and base64 layers hold, as far as they can be decoded. */
  datatype Encoded = NotAnEnvelope | Envelope(version: int, nonce: Option<Bytes>, payload: Option<Box>)

  datatype Credential = Credential(encoded: Encoded, keyId: string, hint: string)

  function ValidateContext(tenantId: int, provider: string): Result<string> {
    if tenantId <= 0 then Err(TenantInvalid)
    else if TrimSpace(provider) == "" then Err(ProviderRequired)
    else Ok(TrimSpace(provider))
  }

  function AdditionalData(keyId: string, tenantId: nat, provider: string): string {
    TrimSpace(keyId) + ['\0'] + (Decimal(tenantId) + ['\0'] + TrimSpace(provider))
  }

  function KeyHint(apiKey: string): string {
    if |apiKey| < 8 then "" else apiKey[|apiKey| - 4..]
  }

  function MasterKey(m: Manager, keyId: string): Bytes {
    if keyId in m.keys then m.keys[keyId] else []
  }

  /** `nonce` is what the random source delivers, if it does. */
  function Encrypt(m: Manager, tenantId: int, provider: string, apiKey: string, nonce: Option<Nonce>): Result<Credential> {
    if m.keys == map[] then Err(NotConfigured)
    else if ValidateContext(tenantId, provider).Err? then Err(ValidateContext(tenantId, provider).error)
    else if TrimSpace(apiKey) == "" then Err(ApiKeyRequired)
    else if nonce.None? then Err(RandomFailed)
    else
      var key, associated := Derived(MasterKey(m, m.activeKeyId)), AdditionalData(m.activeKeyId, tenantId, TrimSpace(provider));
      var box := Sealed(key, nonce.value, TrimSpace(apiKey), associated);
      Ok(Credential(Envelope(1, Some(nonce.value), Some(box)), m.activeKeyId, KeyHint(TrimSpace(apiKey))))
  }

  function Decrypt(m: Manager, tenantId: int, provider: string, keyId: string, encoded: Encoded): Result<string> {
    if ValidateContext(tenantId, provider).Err? then Err(ValidateContext(tenantId, provider).error)
    else if TrimSpace(keyId) !in m.keys then Err(KeyUnavailable)
    else if !encoded.Envelope? || encoded.version != 1 then Err(FormatInvalid)
    else if encoded.nonce.None? then Err(NonceInvalid)
    else if encoded.payload.None? then Err(PayloadInvalid)
    else if |encoded.nonce.value| != 12 then Err(NonceInvalid)
    else
      var key, associated := Derived(m.keys[TrimSpace(keyId)]), AdditionalData(TrimSpace(keyId), tenantId, TrimSpace(provider));
      var plaintext := Open(key, encoded.nonce.value, encoded.payload.value, associated);
      if plaintext.None? then Err(AuthenticationFailed)
      else if TrimSpace(plaintext.value) == "" then Err(PlaintextInvalid)
      else Ok(TrimSpace(plaintext.value))
  }

  lemma ValidKeyIdIsPlain(id: string)
    requires ValidKeyId(id)
    ensures TrimSpace(id) == id && '\0' !in id
  {
    assert IsKeyIdCharacter(id[0]) && IsKeyIdCharacter(id[|id| - 1]);
    TrimSpaceTrims(id);
  }

  /** The associated data tells key, tenant and provider apart. */
  lemma AdditionalDataIsInjective(keyA: string, tenantA: nat, providerA: string, keyB: string, tenantB: nat, providerB: string)
    requires ValidKeyId(keyA) && ValidKeyId(keyB)
    ensures AdditionalData(keyA, tenantA, providerA) == AdditionalData(keyB, tenantB, providerB) <==>
      keyA == keyB && tenantA == tenantB && TrimSpace(providerA) == TrimSpace(providerB)
  {
    hide TrimSpace, ValidKeyId, Decimal;
    ValidKeyIdIsPlain(keyA);
    ValidKeyIdIsPlain(keyB);
    if AdditionalData(keyA, tenantA, providerA) == AdditionalData(keyB, tenantB, providerB) {
      var restA, restB := Decimal(tenantA) + ['\0'] + TrimSpace(providerA), Decimal(tenantB) + ['\0'] + TrimSpace(providerB);
      FirstSeparatorCancels(keyA, restA, keyB, restB, '\0');
      assert !IsDigit('\0');
      FirstSeparatorCancels(Decimal(tenantA), TrimSpace(providerA), Decimal(tenantB), TrimSpace(providerB), '\0');
      DecimalInjective(tenantA, tenantB);
    }
  }

  /** What was encrypted is decrypted, by this or any later manager, exactly for the same tenant, the same
      trimmed provider and the key id it was stored with, as long as that id still stands for the same key.
      What comes back is the trimmed API key. */
  lemma DecryptUndoesEncrypt(m: Manager, later: Manager, tenantId: int, provider: string, apiKey: string, nonce: Option<Nonce>,
                             askedTenant: int, askedProvider: string, askedKeyId: string)
    requires Ready(m) && Ready(later)
    requires Encrypt(m, tenantId, provider, apiKey, nonce).Ok?
    ensures var stored := Encrypt(m, tenantId, provider, apiKey, nonce).value;
      var r := Decrypt(later, askedTenant, askedProvider, askedKeyId, stored.encoded);
      && (r.Ok? ==> r.value == TrimSpace(apiKey))
      && (r.Ok? <==>
            && askedTenant == tenantId && TrimSpace(askedProvider) == TrimSpace(provider)
            && TrimSpace(askedKeyId) == stored.keyId && stored.keyId in later.keys
            && later.keys[stored.keyId] == m.keys[stored.keyId])
  {
    hide TrimSpace, ValidKeyId, AdditionalData;
    var askedKey := TrimSpace(askedKeyId);
    TrimSpaceTrims(apiKey);
    TrimSpaceTrims(provider);
    TrimSpaceTrims(askedProvider);
    if askedTenant > 0 && TrimSpace(askedProvider) != "" && askedKey in later.keys {
      AdditionalDataIsInjective(m.activeKeyId, tenantId, TrimSpace(provider), askedKey, askedTenant, TrimSpace(askedProvider));
    }
  }

  // ----- Validity -----

  const STATUS_ACTIVE := "active"

  /** A stored row. Instants are numbers; a blank credential is None. */
  datatype StoredConfig = StoredConfig(tenantId: int, provider: string, baseUrl: string, model: string, credential: Option<Encoded>,
                                       keyId: string, effectiveAt: Option<int>, expiresAt: Option<int>, status: string, version: int)

  predicate RuntimeProviderAllowed(provider: string) {
    TrimSpace(provider) in {"deepseek", "openai", "dashscope", "custom"}
  }

  function ValidateForUse(c: StoredConfig, now: int): Option<Error> {
    if ValidateContext(c.tenantId, c.provider).Err? || !RuntimeProviderAllowed(c.provider) then Some(ConfigurationInvalid)
    else if TrimSpace(c.baseUrl) == "" || TrimSpace(c.model) == "" || c.credential.None?
         || !ValidKeyId(TrimSpace(c.keyId)) || c.version <= 0 then Some(ConfigurationInvalid)
    else if TrimSpace(c.status) != STATUS_ACTIVE then Some(Inactive)
    else if c.effectiveAt.None? || c.expiresAt.None? || c.effectiveAt.value >= c.expiresAt.value then Some(ConfigurationInvalid)
    else if now < c.effectiveAt.value then Some(NotYetEffective)
    else if now >= c.expiresAt.value then Some(Expired)
    else None
  }

  /** The reason the resolver gives for a configuration that failed validation. */
  function ResolveStoredValidationError(c: StoredConfig, now: int): Error {
    if c.status != STATUS_ACTIVE then Inactive
    else if c.effectiveAt.Some? && now < c.effectiveAt.value then NotYetEffective
    else if c.expiresAt.Some? && now >= c.expiresAt.value then Expired
    else ConfigurationInvalid
  }

  /** The instants that are given leave the present out. */
  predicate OutsideGivenWindow(c: StoredConfig, now: int) {
    (c.effectiveAt.Some? && now < c.effectiveAt.value) || (c.expiresAt.Some? && now >= c.expiresAt.value)
  }

  /** What validation asks for before it looks at status and window. */
  predicate Malformed(c: StoredConfig) {
    || c.tenantId <= 0 || TrimSpace(c.provider) == "" || !RuntimeProviderAllowed(c.provider)
    || TrimSpace(c.baseUrl) == "" || TrimSpace(c.model) == "" || c.credential.None?
    || !ValidKeyId(TrimSpace(c.keyId)) || c.version <= 0
  }

  /** The window is missing an end, or is inverted. */
  predicate WindowBroken(c: StoredConfig) {
    c.effectiveAt.None? || c.expiresAt.None? || c.effectiveAt.value >= c.expiresAt.value
  }

  predicate Usable(c: StoredConfig, now: int) {
    !Malformed(c) && TrimSpace(c.status) == STATUS_ACTIVE && !WindowBroken(c) && c.effectiveAt.value <= now < c.expiresAt.value
  }

  /** A configuration is refused exactly when it is not usable; the resolver then gives the reason validation
      failed for exactly in these cases: a row that is malformed, or whose window is broken, has the exact
      status and no instant that explains the failure away; a well-formed row is inactive even when trimmed;
      or it is outside a proper window under the exact status. */
  lemma ReasonsAgreeExactly(c: StoredConfig, now: int)
    ensures ValidateForUse(c, now).Some? <==> !Usable(c, now)
    ensures !Usable(c, now) ==>
      (ResolveStoredValidationError(c, now) == ValidateForUse(c, now).value <==>
         if Malformed(c) then c.status == STATUS_ACTIVE && !OutsideGivenWindow(c, now)
         else if TrimSpace(c.status) != STATUS_ACTIVE then true
         else if WindowBroken(c) then c.status == STATUS_ACTIVE && !OutsideGivenWindow(c, now)
         else c.status == STATUS_ACTIVE)
  {
    hide TrimSpace, ValidKeyId;
    ActiveIsTrimmed();
  }

  lemma ActiveIsTrimmed()
    ensures TrimSpace(STATUS_ACTIVE) == STATUS_ACTIVE
  {
    TrimSpaceTrims(STATUS_ACTIVE);
  }

  /** A row whose window is inverted is never reported as invalid, at any time. */
  lemma InvertedWindowIsNeverReportedInvalid(c: StoredConfig, now: int)
    requires c.effectiveAt.Some? && c.expiresAt.Some? && c.effectiveAt.value >= c.expiresAt.value
    ensures ValidateForUse(c, now) == Some(ConfigurationInvalid) || ValidateForUse(c, now) == Some(Inactive)
    ensures ResolveStoredValidationError(c, now) != ConfigurationInvalid
  {
    hide TrimSpace, ValidKeyId;
  }

  // ----- Resolving -----

  datatype ResolveError = ScopeInvalid | RowMissing | Rejected(reason: Error) | AddressInvalid | CredentialUnavailable | ProviderInvalid

  datatype Resolved = Provider(apiKey: string) | Refused(error: ResolveError)

  function DecryptStored(m: Manager, c: StoredConfig, now: int): Result<string> {
    if ValidateForUse(c, now).Some? then Err(ValidateForUse(c, now).value)
    else Decrypt(m, c.tenantId, c.provider, c.keyId, c.credential.value)
  }

  /** Resolve, after the request itself was found well formed. The database, the outbound guard and the
      provider's constructor are what they answer. */
  function Resolve(m: Manager, bound: bool, row: Option<StoredConfig>, addressOk: bool, built: bool, now: int): Resolved {
    if !bound then Refused(ScopeInvalid)
    else if row.None? then Refused(RowMissing)
    else if ValidateForUse(row.value, now).Some? then Refused(Rejected(ResolveStoredValidationError(row.value, now)))
    else if !addressOk then Refused(AddressInvalid)
    else
      match DecryptStored(m, row.value, now)
      case Err(_) => Refused(CredentialUnavailable)
      case Ok(apiKey) => if built then Provider(apiKey) else Refused(ProviderInvalid)
  }

  /** A provider is resolved only inside its window, from a credential that was encrypted for this very
      tenant and provider under the key the ring still holds; its key is the one that was encrypted. */
  lemma ResolvedKeyWasEncryptedForItsRow(m: Manager, origin: Manager, tenantId: int, provider: string, apiKey: string, nonce: Option<Nonce>,
                                         row: StoredConfig, bound: bool, addressOk: bool, built: bool, now: int)
    requires Ready(m) && Ready(origin)
    requires Encrypt(origin, tenantId, provider, apiKey, nonce).Ok?
    requires row.credential == Some(Encrypt(origin, tenantId, provider, apiKey, nonce).value.encoded)
    ensures Resolve(m, bound, Some(row), addressOk, built, now).Provider? <==>
      && bound && addressOk && built && ValidateForUse(row, now) == None
      && row.tenantId == tenantId && TrimSpace(row.provider) == TrimSpace(provider)
      && TrimSpace(row.keyId) == origin.activeKeyId && origin.activeKeyId in m.keys
      && m.keys[origin.activeKeyId] == origin.keys[origin.activeKeyId]
    ensures Resolve(m, bound, Some(row), addressOk, built, now).Provider? ==>
      Resolve(m, bound, Some(row), addressOk, built, now).apiKey == TrimSpace(apiKey) &&
      row.effectiveAt.Some? && row.expiresAt.Some? && row.effectiveAt.value <= now < row.expiresAt.value
  {
    hide TrimSpace, ValidKeyId, AdditionalData, Decrypt;
    DecryptUndoesEncrypt(origin, m, tenantId, provider, apiKey, nonce, row.tenantId, row.provider, row.keyId);
  }
}
