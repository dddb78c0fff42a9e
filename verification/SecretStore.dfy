/** The sealed secret store. The authenticated cipher (ChaCha20-Poly1305, section
    2.8 of RFC 8439) is symbolic: a box opens only under the key, nonce and
    associated data it was made with. */
module SecretStores {
  import opened Prelude
  import opened Rendering
  import opened Utf8
  import opened Approvals
  import opened LegacyCipher
  import opened Replacement

  /** Secret values are text. */
  type Text = b: Bytes | ValidUtf8(b)

  datatype InjectionGrant = InjectionGrant(applicationId: nat, environmentName: Name, production: bool)

  // ---------------------------------------------------------------------
  // Envelopes
  // ---------------------------------------------------------------------

  datatype AeadKey = Sha256(material: Bytes)

  datatype Box =
    | Box(key: AeadKey, nonce: Bytes, aad: Bytes, message: Bytes)
    | Tampered

  datatype Envelope =
    | Legacy(bytes: Bytes)
    | Current(nonce: Bytes, box: Box)
    | UnknownVersion(version: nat)

  datatype SealedSecret = SealedSecret(refId: Name, version: nat, scope: InjectionGrant, envelope: Envelope)

  type Secrets = map<Name, SealedSecret>

  const AAD_PREFIX: Bytes := [0x6C, 0x61, 0x62, 0x72, 0x79, 0x73, 0x2D, 0x73, 0x65, 0x63, 0x72, 0x65, 0x74, 0x20, 0x76, 0x31, 0x3A]
  const COLON: bv8 := 0x3A
  const LETTER_V: bv8 := 0x76
  const DIGIT_BYTES: Bytes := [0x30, 0x31, 0x32, 0x33, 0x34, 0x35, 0x36, 0x37, 0x38, 0x39]

  /** `labrys-secret v1:<ref>:v<version>`. */
  function EnvelopeAad(refId: Name, version: nat): Bytes {
    (AAD_PREFIX + refId.bytes) + [COLON] + ([LETTER_V] + Render(DIGIT_BYTES, version))
  }

  function SealBox(key: Bytes, refId: Name, version: nat, value: Bytes, nonce: Bytes): Envelope {
    Current(nonce, Box(Sha256(key), nonce, EnvelopeAad(refId, version), value))
  }

  /** `open`: dispatch on the envelope version; `None` on any failure. */
  function Open(key: Bytes, s: SealedSecret): (value: Option<Text>) {
    match s.envelope
    case Current(nonce, box) =>
      if box.Box? && box.key == Sha256(key) && box.nonce == nonce
         && box.aad == EnvelopeAad(s.refId, s.version) && ValidUtf8(box.message)
      then Some(box.message) else None
    case Legacy(bytes) => OpenLegacy(key, s.refId.bytes, bytes)
    case UnknownVersion(_) => None
  }

  lemma AadInjective(r1: Name, v1: nat, r2: Name, v2: nat)
    requires EnvelopeAad(r1, v1) == EnvelopeAad(r2, v2)
    ensures r1 == r2 && v1 == v2
  {
    var d1, d2 := Render(DIGIT_BYTES, v1), Render(DIGIT_BYTES, v2);
    assert COLON !in DIGIT_BYTES && COLON != LETTER_V;
    SplitAtLast(AAD_PREFIX + r1.bytes, [LETTER_V] + d1, AAD_PREFIX + r2.bytes, [LETTER_V] + d2, COLON);
    assert d1 == ([LETTER_V] + d1)[1..] && d2 == ([LETTER_V] + d2)[1..];
    RenderInjective(DIGIT_BYTES, v1, v2);
    assert r1.bytes == (AAD_PREFIX + r1.bytes)[|AAD_PREFIX|..] && r2.bytes == (AAD_PREFIX + r2.bytes)[|AAD_PREFIX|..];
  }

  /** A current envelope opens exactly under the key, reference and version it was
      sealed for; moved to another of either it opens to nothing. */
  lemma EnvelopeIsBound(key: Bytes, refId: Name, version: nat, value: Text, nonce: Bytes,
                        key': Bytes, refId': Name, version': nat, scope: InjectionGrant)
    ensures Open(key', SealedSecret(refId', version', scope, SealBox(key, refId, version, value, nonce)))
         == if key' == key && refId' == refId && version' == version then Some(value) else None
  {
    if EnvelopeAad(refId, version) == EnvelopeAad(refId', version') {
      AadInjective(refId, version, refId', version');
    }
  }

  /** A current envelope whose nonce or box was changed, and one of an unknown version,
      opens to nothing. */
  lemma TamperedOpensToNothing(key: Bytes, refId: Name, version: nat, scope: InjectionGrant, value: Text,
                               nonce: Bytes, nonce': Bytes, unknown: nat)
    ensures nonce' != nonce ==>
              Open(key, SealedSecret(refId, version, scope, Current(nonce', SealBox(key, refId, version, value, nonce).box))) == None
    ensures Open(key, SealedSecret(refId, version, scope, Current(nonce, Tampered))) == None
    ensures Open(key, SealedSecret(refId, version, scope, UnknownVersion(unknown))) == None
  {}

  /** An old envelope stays readable. */
  lemma LegacyOpens(key: Bytes, refId: Name, version: nat, scope: InjectionGrant, value: Text)
    ensures Open(key, SealedSecret(refId, version, scope, Legacy(SealLegacy(key, refId.bytes, value)))) == Some(value)
  {
    LegacyRoundTrip(key, refId.bytes, value);
  }

  // ---------------------------------------------------------------------
  // What the operations do to the secrets
  // ---------------------------------------------------------------------

  datatype StoreError = SecretNotFound | NotAuthorized | ApprovalRequired | Verification | SecretLeak

  /** `inject`: what a reader with this grant sees. */
  function Injected(key: Bytes, secrets: Secrets, grant: InjectionGrant, refId: Name): Result<Text, StoreError> {
    if refId !in secrets then Err(SecretNotFound)
    else
      var s := secrets[refId];
      if s.scope.applicationId != grant.applicationId || s.scope.environmentName != grant.environmentName
      then Err(NotAuthorized)
      else if Open(key, s).None? then Err(Verification)
      else Ok(Open(key, s).value)
  }

  function NextVersion(secrets: Secrets, refId: Name): nat {
    if refId in secrets then secrets[refId].version + 1 else 1
  }

  function Stored(key: Bytes, secrets: Secrets, refId: Name, value: Text, scope: InjectionGrant, nonce: Bytes): Secrets {
    var version := NextVersion(secrets, refId);
    secrets[refId := SealedSecret(refId, version, scope, SealBox(key, refId, version, value, nonce))]
  }

  function Resealed(key: Bytes, refId: Name, s: SealedSecret, value: Text, nonce: Bytes): SealedSecret {
    SealedSecret(refId, s.version + 1, s.scope, SealBox(key, refId, s.version + 1, value, nonce))
  }

  predicate CanRotate(key: Bytes, secrets: Secrets, refId: Name, approval: Approval) {
    refId in secrets && (secrets[refId].scope.production ==> Granted(approval)) && Open(key, secrets[refId]).Some?
  }

  function Rotated(key: Bytes, secrets: Secrets, refId: Name, nonce: Bytes): Secrets
    requires refId in secrets && Open(key, secrets[refId]).Some?
  {
    var s := secrets[refId];
    secrets[refId := Resealed(key, refId, s, Open(key, s).value, nonce)]
  }

  predicate AllOpen(key: Bytes, secrets: Secrets) {
    forall r :: r in secrets ==> Open(key, secrets[r]).Some?
  }

  predicate HasProduction(secrets: Secrets) {
    exists r :: r in secrets && secrets[r].scope.production
  }

  function AllResealed(key: Bytes, secrets: Secrets, newKey: Bytes, nonces: Name -> Bytes): Secrets
    requires AllOpen(key, secrets)
  {
    map r | r in secrets :: Resealed(newKey, r, secrets[r], Open(key, secrets[r]).value, nonces(r))
  }

  lemma ResealedOpens(key: Bytes, refId: Name, s: SealedSecret, value: Text, nonce: Bytes)
    ensures Open(key, Resealed(key, refId, s, value, nonce)) == Some(value)
  {}

  lemma RotateStep(key: Bytes, secrets: Secrets, refId: Name, approval: Approval, nonce: Bytes)
    ensures CanRotate(key, secrets, refId, approval) ==>
              && Open(key, Rotated(key, secrets, refId, nonce)[refId]) == Open(key, secrets[refId])
              && Next(State(key, secrets), RotateOp(refId, approval, nonce)) == State(key, Rotated(key, secrets, refId, nonce))
    ensures !CanRotate(key, secrets, refId, approval) ==>
              Next(State(key, secrets), RotateOp(refId, approval, nonce)) == State(key, secrets)
  {
    if CanRotate(key, secrets, refId, approval) {
      ResealedOpens(key, refId, secrets[refId], Open(key, secrets[refId]).value, nonce);
    }
  }

  lemma AllResealedOpen(key: Bytes, secrets: Secrets, newKey: Bytes, nonces: Name -> Bytes)
    requires AllOpen(key, secrets)
    ensures var after := AllResealed(key, secrets, newKey, nonces);
            after.Keys == secrets.Keys && forall r :: r in secrets ==> Open(newKey, after[r]) == Open(key, secrets[r])
  {
    var after := AllResealed(key, secrets, newKey, nonces);
    forall r | r in secrets ensures Open(newKey, after[r]) == Open(key, secrets[r]) {
      ResealedOpens(newKey, r, secrets[r], Open(key, secrets[r]).value, nonces(r));
    }
  }

  /** Key rotation changes no reader's view, raises every version by one and keeps
      every scope, whatever envelopes the store held before. */
  lemma RotationKeepsMeaning(key: Bytes, secrets: Secrets, newKey: Bytes, nonces: Name -> Bytes,
                             grant: InjectionGrant, refId: Name)
    requires AllOpen(key, secrets)
    ensures var after := AllResealed(key, secrets, newKey, nonces);
            && Injected(newKey, after, grant, refId) == Injected(key, secrets, grant, refId)
            && after.Keys == secrets.Keys && AllOpen(newKey, after)
            && (refId in secrets ==>
                  && after[refId].version == secrets[refId].version + 1
                  && after[refId].scope == secrets[refId].scope
                  && after[refId].envelope.Current?)
  {
    AllResealedOpen(key, secrets, newKey, nonces);
  }

  // ---------------------------------------------------------------------
  // The store object
  // ---------------------------------------------------------------------

  datatype SecretAction = Store | Rotate | Replace | Delete

  datatype SecretAudit = SecretAudit(
    refId: Name, action: SecretAction, version: nat, actor: Name, at: Instant, approvedBy: Option<Name>)

  function Approver(a: Approval): Option<Name> {
    if Granted(a) then Some(a.approver) else None
  }

  function RotateEntry(secrets: Secrets, refId: Name, approval: Approval, actor: Name, at: Instant): SecretAudit
    requires refId in secrets
  {
    SecretAudit(refId, Rotate, secrets[refId].version + 1, actor, at, Approver(approval))
  }

  /** A walk over the store's map meets no reference twice. */
  ghost predicate Walk(order: seq<Name>, secrets: Secrets) {
    && (forall i :: 0 <= i < |order| ==> order[i] in secrets)
    && (forall i, j :: 0 <= i < j < |order| ==> order[i] != order[j])
  }

  /** A complete walk: each reference exactly once. */
  ghost predicate Listing(order: seq<Name>, secrets: Secrets) {
    Walk(order, secrets) && forall r :: r in secrets ==> r in order
  }

  /** The entries for the first `n` references of the walk. */
  function RotateEntries(secrets: Secrets, order: seq<Name>, n: nat, approval: Approval, actor: Name, at: Instant): seq<SecretAudit>
    requires n <= |order| && forall i :: 0 <= i < |order| ==> order[i] in secrets
  {
    if n == 0 then []
    else RotateEntries(secrets, order, n - 1, approval, actor, at) + [RotateEntry(secrets, order[n - 1], approval, actor, at)]
  }

  lemma {:induction false} EntryAt(secrets: Secrets, order: seq<Name>, n: nat, approval: Approval, actor: Name, at: Instant)
    requires Walk(order, secrets) && n <= |order|
    ensures var es := RotateEntries(secrets, order, n, approval, actor, at);
            && |es| == n
            && forall i :: 0 <= i < n ==> es[i] == RotateEntry(secrets, order[i], approval, actor, at)
  {
    if n > 0 {
      EntryAt(secrets, order, n - 1, approval, actor, at);
    }
  }

  lemma ListingCounts(order: seq<Name>, secrets: Secrets)
    requires Listing(order, secrets)
    ensures |order| == |secrets|
  {
    DistinctCount(order);
    assert Elements(order) == secrets.Keys;
  }

  /** A complete walk writes exactly one entry per live reference, with its new
      version, and no other entry. */
  lemma OneEntryEach(secrets: Secrets, order: seq<Name>, approval: Approval, actor: Name, at: Instant)
    requires Listing(order, secrets)
    ensures var es := RotateEntries(secrets, order, |order|, approval, actor, at);
            && |es| == |secrets|
            && (forall i :: 0 <= i < |es| ==> es[i].refId in secrets)
            && (forall r :: r in secrets ==>
                  exists i :: 0 <= i < |es| && es[i] == SecretAudit(r, Rotate, secrets[r].version + 1, actor, at, Approver(approval)))
            && (forall i, j :: 0 <= i < j < |es| ==> es[i].refId != es[j].refId)
  {
    ListingCounts(order, secrets);
    EntryAt(secrets, order, |order|, approval, actor, at);
    var es := RotateEntries(secrets, order, |order|, approval, actor, at);
    forall r | r in secrets
      ensures exists i :: 0 <= i < |es| && es[i] == SecretAudit(r, Rotate, secrets[r].version + 1, actor, at, Approver(approval))
    {
      var i :| 0 <= i < |order| && order[i] == r;
      assert es[i] == RotateEntry(secrets, order[i], approval, actor, at);
    }
  }

  /** The first `n` references of the walk are sealed anew, the others untouched. */
  ghost predicate ResealedUpTo(before: Secrets, now: Secrets, order: seq<Name>, plaintexts: seq<Text>, n: nat,
                               newKey: Bytes, nonces: Name -> Bytes)
    requires |plaintexts| == |order|
  {
    && now.Keys == before.Keys
    && forall k :: 0 <= k < |order| ==>
         && order[k] in before
         && now[order[k]] == if k < n then Resealed(newKey, order[k], before[order[k]], plaintexts[k], nonces(order[k]))
                             else before[order[k]]
  }

  lemma OneMoreResealed(before: Secrets, now: Secrets, order: seq<Name>, plaintexts: seq<Text>, n: nat,
                        newKey: Bytes, nonces: Name -> Bytes)
    requires |plaintexts| == |order| && n < |order| && Walk(order, before)
    requires ResealedUpTo(before, now, order, plaintexts, n, newKey, nonces)
    ensures ResealedUpTo(before, now[order[n] := Resealed(newKey, order[n], now[order[n]], plaintexts[n], nonces(order[n]))],
                         order, plaintexts, n + 1, newKey, nonces)
  {
    assert order[n] in before;
  }

  /** The values opened so far are those of the first references of the walk. */
  ghost predicate OpenedUpTo(key: Bytes, secrets: Secrets, order: seq<Name>, plaintexts: seq<Text>) {
    && |plaintexts| <= |order|
    && forall i :: 0 <= i < |plaintexts| ==> order[i] in secrets && Open(key, secrets[order[i]]) == Some(plaintexts[i])
  }

  lemma OneMoreOpened(key: Bytes, secrets: Secrets, order: seq<Name>, plaintexts: seq<Text>, value: Text)
    requires OpenedUpTo(key, secrets, order, plaintexts) && |plaintexts| < |order|
    requires order[|plaintexts|] in secrets && Open(key, secrets[order[|plaintexts|]]) == Some(value)
    ensures OpenedUpTo(key, secrets, order, plaintexts + [value])
  {}

  lemma EverythingOpened(key: Bytes, secrets: Secrets, order: seq<Name>, plaintexts: seq<Text>)
    requires Listing(order, secrets) && OpenedUpTo(key, secrets, order, plaintexts) && |plaintexts| == |order|
    ensures AllOpen(key, secrets)
  {
    forall r | r in secrets ensures Open(key, secrets[r]).Some? {
      var i :| 0 <= i < |order| && order[i] == r;
    }
  }

  /** Phase two of a rotation after `n` references: the secrets and the trail. */
  ghost predicate Rotating(before: Secrets, now: Secrets, trail: seq<SecretAudit>, audit: seq<SecretAudit>,
                           order: seq<Name>, plaintexts: seq<Text>, n: nat, newKey: Bytes, nonces: Name -> Bytes,
                           approval: Approval, actor: Name, at: Instant)
  {
    && Walk(order, before) && |plaintexts| == |order| && n <= |order|
    && ResealedUpTo(before, now, order, plaintexts, n, newKey, nonces)
    && audit == trail + RotateEntries(before, order, n, approval, actor, at)
  }

  lemma OneMoreRotated(before: Secrets, now: Secrets, trail: seq<SecretAudit>, audit: seq<SecretAudit>,
                       order: seq<Name>, plaintexts: seq<Text>, n: nat, newKey: Bytes, nonces: Name -> Bytes,
                       approval: Approval, actor: Name, at: Instant)
    requires n < |order|
    requires Rotating(before, now, trail, audit, order, plaintexts, n, newKey, nonces, approval, actor, at)
    ensures order[n] in now
    ensures Rotating(before, now[order[n] := Resealed(newKey, order[n], now[order[n]], plaintexts[n], nonces(order[n]))],
                     trail, audit + [RotateEntry(now, order[n], approval, actor, at)],
                     order, plaintexts, n + 1, newKey, nonces, approval, actor, at)
  {
    OneMoreResealed(before, now, order, plaintexts, n, newKey, nonces);
    assert now[order[n]] == before[order[n]];
  }

  lemma EverythingResealed(key: Bytes, before: Secrets, now: Secrets, order: seq<Name>, plaintexts: seq<Text>,
                           newKey: Bytes, nonces: Name -> Bytes)
    requires |plaintexts| == |order| && Listing(order, before)
    requires ResealedUpTo(before, now, order, plaintexts, |order|, newKey, nonces)
    requires OpenedUpTo(key, before, order, plaintexts)
    ensures AllOpen(key, before) && now == AllResealed(key, before, newKey, nonces)
  {
    EverythingOpened(key, before, order, plaintexts);
    var expected := AllResealed(key, before, newKey, nonces);
    forall r | r in before ensures now[r] == expected[r] {
      var i :| 0 <= i < |order| && order[i] == r;
      assert Open(key, before[order[i]]) == Some(plaintexts[i]);
    }
  }

  // ---------------------------------------------------------------------
  // Redaction by the store
  // ---------------------------------------------------------------------

  const MARKER_START: Bytes := [0x5B, 0x72, 0x65, 0x64, 0x61, 0x63, 0x74, 0x65, 0x64, 0x3A]
  const MARKER_END: Bytes := [0x5D]

  /** `[redacted:<ref>]`. */
  function MarkerFor(refId: Name): Bytes {
    MARKER_START + refId.bytes + MARKER_END
  }

  /** The value if the envelope opens; an empty value is never replaced. */
  function Shown(key: Bytes, s: SealedSecret): Bytes {
    if Open(key, s).Some? then Open(key, s).value else []
  }

  function RuleFor(key: Bytes, s: SealedSecret): Rule<bv8> {
    Rule(Shown(key, s), MarkerFor(s.refId))
  }

  /** The replacements the store makes, in the order of its walk. */
  function StoreRules(key: Bytes, secrets: Secrets, order: seq<Name>): (rules: seq<Rule<bv8>>)
    requires forall i :: 0 <= i < |order| ==> order[i] in secrets
    ensures |rules| == |order| && forall i :: 0 <= i < |rules| ==> rules[i] == RuleFor(key, secrets[order[i]])
  {
    seq(|order|, i requires 0 <= i < |order| => RuleFor(key, secrets[order[i]]))
  }

  /** What `redact` makes of a text. */
  function StoreRedacted(key: Bytes, secrets: Secrets, order: seq<Name>, text: Bytes): Bytes
    requires forall i :: 0 <= i < |order| ==> order[i] in secrets
  {
    RedactedBy(text, StoreRules(key, secrets, order), |order|)
  }

  ghost predicate Shows(key: Bytes, s: SealedSecret, text: Bytes) {
    Shown(key, s) != [] && Contains(text, Shown(key, s))
  }

  /** No live secret is readable in the text. */
  ghost predicate ShowsNone(key: Bytes, secrets: Secrets, text: Bytes) {
    forall r :: r in secrets ==> !Shows(key, secrets[r], text)
  }

  lemma ShowsNoneIsClean(key: Bytes, secrets: Secrets, order: seq<Name>, text: Bytes)
    requires Listing(order, secrets)
    ensures ShowsNone(key, secrets, text) <==> CleanOf(text, StoreRules(key, secrets, order), |order|)
  {
    var rules := StoreRules(key, secrets, order);
    assert forall i :: 0 <= i < |order| ==> rules[i] == RuleFor(key, secrets[order[i]]);
    if CleanOf(text, rules, |order|) {
      forall r | r in secrets ensures !Shows(key, secrets[r], text) {
        var i :| 0 <= i < |order| && order[i] == r;
        assert rules[i].secret == Shown(key, secrets[r]);
      }
    }
  }

  class SecretStore {
    var masterKey: Bytes
    var secrets: Secrets
    var audit: seq<SecretAudit>

    constructor (masterKey: Bytes)
      ensures this.masterKey == masterKey && secrets == map[] && audit == []
    {
      this.masterKey, secrets, audit := masterKey, map[], [];
    }

    method Put(refId: Name, value: Text, scope: InjectionGrant, actor: Name, at: Instant, nonce: Bytes)
      returns (r: Result<SealedSecret, StoreError>)
      modifies this`secrets, this`audit
      ensures r.Ok? <==> !IsBlank(refId)
      ensures r.Err? ==> secrets == old(secrets) && audit == old(audit)
      ensures r.Ok? ==>
                && secrets == Stored(masterKey, old(secrets), refId, value, scope, nonce)
                && r.value == secrets[refId] && Open(masterKey, r.value) == Some(value)
                && r.value.version == (if refId in old(secrets) then old(secrets)[refId].version + 1 else 1)
                && r.value.refId == refId && r.value.scope == scope && r.value.envelope.Current?
                && audit == old(audit) + [SecretAudit(refId, Store, r.value.version, actor, at, None)]
      ensures State(masterKey, secrets) == Next(State(masterKey, old(secrets)), PutOp(refId, value, scope, nonce))
    {
      if IsBlank(refId) {
        return Err(SecretNotFound);
      }
      var version := if refId in secrets then secrets[refId].version + 1 else 1;
      var sealed := SealedSecret(refId, version, scope, SealBox(masterKey, refId, version, value, nonce));
      secrets := secrets[refId := sealed];
      audit := audit + [SecretAudit(refId, Store, version, actor, at, None)];
      return Ok(sealed);
    }

    method Inject(grant: InjectionGrant, refId: Name) returns (r: Result<Text, StoreError>)
      ensures r == Injected(masterKey, secrets, grant, refId)
      ensures r.Ok? ==> refId in secrets && Open(masterKey, secrets[refId]) == Some(r.value)
      ensures r.Err? && refId in secrets && r != Err(NotAuthorized) ==>
                r == Err(Verification) && Open(masterKey, secrets[refId]).None?
      ensures r == Err(SecretNotFound) <==> refId !in secrets
      ensures r == Err(NotAuthorized) <==>
                refId in secrets && (secrets[refId].scope.applicationId != grant.applicationId
                                     || secrets[refId].scope.environmentName != grant.environmentName)
    {
      if refId !in secrets {
        return Err(SecretNotFound);
      }
      var sealed := secrets[refId];
      if sealed.scope.applicationId != grant.applicationId || sealed.scope.environmentName != grant.environmentName {
        return Err(NotAuthorized);
      }
      var value := Open(masterKey, sealed);
      return if value.None? then Err(Verification) else Ok(value.value);
    }

    method Rotate(refId: Name, approval: Approval, actor: Name, at: Instant, nonce: Bytes)
      returns (r: Result<nat, StoreError>)
      modifies this`secrets, this`audit
      ensures r.Ok? <==> CanRotate(masterKey, old(secrets), refId, approval)
      ensures r.Err? ==> secrets == old(secrets) && audit == old(audit)
      ensures r.Ok? ==>
                && r.value == old(secrets)[refId].version + 1
                && secrets == Rotated(masterKey, old(secrets), refId, nonce)
                && Open(masterKey, secrets[refId]) == Open(masterKey, old(secrets)[refId])
                && audit == old(audit) + [RotateEntry(old(secrets), refId, approval, actor, at)]
      ensures State(masterKey, secrets) == Next(State(masterKey, old(secrets)), RotateOp(refId, approval, nonce))
    {
      RotateStep(masterKey, secrets, refId, approval, nonce);
      if refId !in secrets {
        return Err(SecretNotFound);
      }
      if secrets[refId].scope.production && !Granted(approval) {
        return Err(ApprovalRequired);
      }
      r := Reseal(refId, Approver(approval), actor, at, nonce);
    }

    /** The rest of `rotate`, once the approval is settled. */
    method Reseal(refId: Name, approvedBy: Option<Name>, actor: Name, at: Instant, nonce: Bytes)
      returns (r: Result<nat, StoreError>)
      requires refId in secrets
      modifies this`secrets, this`audit
      ensures r.Ok? <==> Open(masterKey, old(secrets)[refId]).Some?
      ensures r.Err? ==> secrets == old(secrets) && audit == old(audit)
      ensures r.Ok? ==>
                && r.value == old(secrets)[refId].version + 1
                && secrets == Rotated(masterKey, old(secrets), refId, nonce)
                && audit == old(audit) + [SecretAudit(refId, SecretAction.Rotate, r.value, actor, at, approvedBy)]
    {
      var sealed := secrets[refId];
      var value := Open(masterKey, sealed);
      if value.None? {
        return Err(Verification);
      }
      var version := sealed.version + 1;
      secrets := secrets[refId := SealedSecret(refId, version, sealed.scope,
                                               SealBox(masterKey, refId, version, value.value, nonce))];
      audit := audit + [SecretAudit(refId, SecretAction.Rotate, version, actor, at, approvedBy)];
      return Ok(version);
    }

    /** Phase one of a key rotation: open everything, touch nothing. */
    method OpenAll(order: seq<Name>) returns (r: Result<seq<Text>, StoreError>)
      requires Listing(order, secrets)
      ensures if r.Ok? then AllOpen(masterKey, secrets) else !AllOpen(masterKey, secrets) && r.error == Verification
      ensures r.Ok? ==> OpenedUpTo(masterKey, secrets, order, r.value) && |r.value| == |order|
    {
      var plaintexts: seq<Text> := [];
      while |plaintexts| < |order|
        invariant |plaintexts| <= |order|
        invariant OpenedUpTo(masterKey, secrets, order, plaintexts)
        decreases |order| - |plaintexts|
      {
        var sealed := secrets[order[|plaintexts|]];
        var value := Open(masterKey, sealed);
        if value.None? {
          assert !AllOpen(masterKey, secrets);
          return Err(Verification);
        }
        OneMoreOpened(masterKey, secrets, order, plaintexts, value.value);
        plaintexts := plaintexts + [value.value];
      }
      EverythingOpened(masterKey, secrets, order, plaintexts);
      return Ok(plaintexts);
    }

    /** One turn of phase two: seal the next reference anew and record it. */
    method ResealNext(ghost before: Secrets, ghost trail: seq<SecretAudit>, order: seq<Name>, plaintexts: seq<Text>,
                      i: nat, newKey: Bytes, nonces: Name -> Bytes, approval: Approval, actor: Name, at: Instant)
      requires i < |order|
      requires Rotating(before, secrets, trail, audit, order, plaintexts, i, newKey, nonces, approval, actor, at)
      modifies this`secrets, this`audit
      ensures Rotating(before, secrets, trail, audit, order, plaintexts, i + 1, newKey, nonces, approval, actor, at)
    {
      OneMoreRotated(before, secrets, trail, audit, order, plaintexts, i, newKey, nonces, approval, actor, at);
      var refId := order[i];
      var version := secrets[refId].version + 1;
      audit := audit + [SecretAudit(refId, SecretAction.Rotate, version, actor, at, Approver(approval))];
      secrets := secrets[refId := SealedSecret(refId, version, secrets[refId].scope,
                                               SealBox(newKey, refId, version, plaintexts[i], nonces(refId)))];
    }

    /** Phase two: seal every opened value under the new key. */
    method ResealAll(order: seq<Name>, plaintexts: seq<Text>, newKey: Bytes, nonces: Name -> Bytes,
                     approval: Approval, actor: Name, at: Instant)
      requires Walk(order, secrets) && |plaintexts| == |order|
      modifies this`secrets, this`audit
      ensures Rotating(old(secrets), secrets, old(audit), audit, order, plaintexts, |order|,
                       newKey, nonces, approval, actor, at)
    {
      ghost var before, trail := secrets, audit;
      var i := 0;
      while i < |order|
        invariant 0 <= i <= |order|
        invariant Rotating(before, secrets, trail, audit, order, plaintexts, i, newKey, nonces, approval, actor, at)
      {
        ResealNext(before, trail, order, plaintexts, i, newKey, nonces, approval, actor, at);
        i := i + 1;
      }
    }

    /** `rotate_key`: all or nothing, one audit entry per live reference. */
    method RotateKey(newKey: Bytes, approval: Approval, actor: Name, at: Instant, nonces: Name -> Bytes, order: seq<Name>)
      returns (r: Result<nat, StoreError>)
      requires Listing(order, secrets)
      modifies this
      ensures r.Ok? <==> (HasProduction(old(secrets)) ==> Granted(approval)) && AllOpen(old(masterKey), old(secrets))
      ensures r.Err? ==> masterKey == old(masterKey) && secrets == old(secrets) && audit == old(audit)
      ensures r == Err(ApprovalRequired) <==> HasProduction(old(secrets)) && !Granted(approval)
      ensures r.Ok? ==> masterKey == newKey && r.value == |old(secrets)|
      ensures r.Ok? ==> secrets == AllResealed(old(masterKey), old(secrets), newKey, nonces)
      ensures r.Ok? ==> audit == old(audit) + RotateEntries(old(secrets), order, |order|, approval, actor, at)
      ensures State(masterKey, secrets) == Next(State(old(masterKey), old(secrets)), RotateKeyOp(newKey, approval, nonces))
    {
      if HasProduction(secrets) && !Granted(approval) {
        return Err(ApprovalRequired);
      }
      var plaintexts := OpenAll(order);
      if plaintexts.Err? {
        return Err(plaintexts.error);
      }
      ghost var before := secrets;
      ResealAll(order, plaintexts.value, newKey, nonces, approval, actor, at);
      EverythingResealed(masterKey, before, secrets, order, plaintexts.value, newKey, nonces);
      masterKey := newKey;
      ListingCounts(order, before);
      return Ok(|order|);
    }

    /** `replace` asks for approval by the new grant, not by the stored scope. */
    method Replace(refId: Name, value: Text, grant: InjectionGrant, approval: Approval, actor: Name, at: Instant,
                   nonce: Bytes)
      returns (r: Result<SecretAudit, StoreError>)
      modifies this`secrets, this`audit
      ensures r.Ok? <==> (grant.production ==> Granted(approval)) && refId in old(secrets) && !IsBlank(refId)
      ensures r.Err? ==> secrets == old(secrets) && audit == old(audit)
      ensures r.Ok? ==>
                && secrets == Stored(masterKey, old(secrets), refId, value, grant, nonce)
                && r.value == SecretAudit(refId, SecretAction.Replace, secrets[refId].version, actor, at, Approver(approval))
                && audit == old(audit)
                            + [SecretAudit(refId, Store, secrets[refId].version, actor, at, None), r.value]
      ensures State(masterKey, secrets) == Next(State(masterKey, old(secrets)), ReplaceOp(refId, value, grant, approval, nonce))
    {
      if grant.production && !Granted(approval) {
        return Err(ApprovalRequired);
      }
      if refId !in secrets {
        return Err(SecretNotFound);
      }
      var stored := Put(refId, value, grant, actor, at, nonce);
      if stored.Err? {
        return Err(stored.error);
      }
      var entry := SecretAudit(refId, SecretAction.Replace, secrets[refId].version, actor, at, Approver(approval));
      audit := audit + [entry];
      return Ok(entry);
    }

    /** `redact`: every live value is replaced by a marker that names its reference. */
    method Redact(text: Bytes, order: seq<Name>) returns (out: Bytes)
      requires forall i :: 0 <= i < |order| ==> order[i] in secrets
      ensures out == StoreRedacted(masterKey, secrets, order, text)
    {
      var rules := StoreRules(masterKey, secrets, order);
      out := ApplyRules(text, rules);
    }

    /** `guard_text`: the redacted text, unless a live value is still readable in it. */
    method GuardText(text: Bytes, order: seq<Name>) returns (r: Result<Bytes, StoreError>)
      requires Listing(order, secrets)
      ensures var redacted := StoreRedacted(masterKey, secrets, order, text);
              r == if ShowsNone(masterKey, secrets, redacted) then Ok(redacted) else Err(SecretLeak)
    {
      var redacted := Redact(text, order);
      var leak := FindSecret(redacted, StoreRules(masterKey, secrets, order));
      ShowsNoneIsClean(masterKey, secrets, order, redacted);
      return if leak then Err(SecretLeak) else Ok(redacted);
    }

    method Delete(refId: Name, actor: Name, at: Instant) returns (r: Result<(), StoreError>)
      modifies this`secrets, this`audit
      ensures secrets == old(secrets) - {refId}
      ensures State(masterKey, secrets) == Next(State(masterKey, old(secrets)), DeleteOp(refId))
      ensures r.Ok? <==> refId in old(secrets)
      ensures audit == if r.Ok? then old(audit) + [SecretAudit(refId, SecretAction.Delete, 0, actor, at, None)]
                       else old(audit)
    {
      if refId !in secrets {
        return Err(SecretNotFound);
      }
      secrets := secrets - {refId};
      audit := audit + [SecretAudit(refId, SecretAction.Delete, 0, actor, at, None)];
      return Ok(());
    }
  }

  // ---------------------------------------------------------------------
  // Every run of the public operations
  // ---------------------------------------------------------------------

  datatype Op =
    | PutOp(refId: Name, value: Text, scope: InjectionGrant, nonce: Bytes)
    | RotateOp(refId: Name, approval: Approval, nonce: Bytes)
    | RotateKeyOp(newKey: Bytes, approval: Approval, nonces: Name -> Bytes)
    | ReplaceOp(refId: Name, value: Text, grant: InjectionGrant, approval: Approval, nonce: Bytes)
    | DeleteOp(refId: Name)

  datatype State = State(key: Bytes, secrets: Secrets)

  /** The method contracts above, as one transition function. */
  function Next(s: State, op: Op): State {
    match op
    case PutOp(refId, value, scope, nonce) =>
      if IsBlank(refId) then s else s.(secrets := Stored(s.key, s.secrets, refId, value, scope, nonce))
    case RotateOp(refId, approval, nonce) =>
      if CanRotate(s.key, s.secrets, refId, approval) then s.(secrets := Rotated(s.key, s.secrets, refId, nonce)) else s
    case RotateKeyOp(newKey, approval, nonces) =>
      if (HasProduction(s.secrets) ==> Granted(approval)) && AllOpen(s.key, s.secrets)
      then State(newKey, AllResealed(s.key, s.secrets, newKey, nonces))
      else s
    case ReplaceOp(refId, value, grant, approval, nonce) =>
      if (grant.production ==> Granted(approval)) && refId in s.secrets && !IsBlank(refId)
      then s.(secrets := Stored(s.key, s.secrets, refId, value, grant, nonce))
      else s
    case DeleteOp(refId) => s.(secrets := s.secrets - {refId})
  }

  /** A plain dictionary: no keys, no ciphers. */
  datatype Plain = Plain(value: Text, scope: InjectionGrant, version: nat)

  type Dictionary = map<Name, Plain>

  function PlainStored(d: Dictionary, refId: Name, value: Text, scope: InjectionGrant): Dictionary {
    d[refId := Plain(value, scope, if refId in d then d[refId].version + 1 else 1)]
  }

  function Bumped(p: Plain): Plain {
    p.(version := p.version + 1)
  }

  predicate PlainProduction(d: Dictionary) {
    exists r :: r in d && d[r].scope.production
  }

  function AllBumped(d: Dictionary): Dictionary {
    map r | r in d :: Bumped(d[r])
  }

  function PlainNext(d: Dictionary, op: Op): Dictionary {
    match op
    case PutOp(refId, value, scope, _) => if IsBlank(refId) then d else PlainStored(d, refId, value, scope)
    case RotateOp(refId, approval, _) =>
      if refId in d && (d[refId].scope.production ==> Granted(approval)) then d[refId := Bumped(d[refId])] else d
    case RotateKeyOp(_, approval, _) =>
      if PlainProduction(d) && !Granted(approval) then d else AllBumped(d)
    case ReplaceOp(refId, value, grant, approval, _) =>
      if (grant.production ==> Granted(approval)) && refId in d && !IsBlank(refId)
      then PlainStored(d, refId, value, grant) else d
    case DeleteOp(refId) => d - {refId}
  }

  function PlainInjected(d: Dictionary, grant: InjectionGrant, refId: Name): Result<Text, StoreError> {
    if refId !in d then Err(SecretNotFound)
    else if d[refId].scope.applicationId != grant.applicationId
            || d[refId].scope.environmentName != grant.environmentName then Err(NotAuthorized)
    else Ok(d[refId].value)
  }

  predicate RowRepresents(key: Bytes, r: Name, sealed: SealedSecret, p: Plain) {
    && sealed.refId == r && sealed.version == p.version && sealed.scope == p.scope
    && Open(key, sealed) == Some(p.value)
  }

  /** Every entry opens under the active key to the dictionary's value. */
  ghost predicate Represents(s: State, d: Dictionary) {
    && s.secrets.Keys == d.Keys
    && forall r :: r in d ==> RowRepresents(s.key, r, s.secrets[r], d[r])
  }

  lemma FreshRowRepresents(key: Bytes, r: Name, version: nat, value: Text, scope: InjectionGrant, nonce: Bytes)
    ensures RowRepresents(key, r, SealedSecret(r, version, scope, SealBox(key, r, version, value, nonce)),
                          Plain(value, scope, version))
  {}

  lemma StoredRepresents(s: State, d: Dictionary, refId: Name, value: Text, scope: InjectionGrant, nonce: Bytes)
    requires Represents(s, d)
    ensures Represents(s.(secrets := Stored(s.key, s.secrets, refId, value, scope, nonce)),
                       PlainStored(d, refId, value, scope))
  {
    var after, plain := Stored(s.key, s.secrets, refId, value, scope, nonce), PlainStored(d, refId, value, scope);
    FreshRowRepresents(s.key, refId, NextVersion(s.secrets, refId), value, scope, nonce);
    assert refId in d ==> RowRepresents(s.key, refId, s.secrets[refId], d[refId]);
    forall r | r in plain ensures RowRepresents(s.key, r, after[r], plain[r]) {
      assert r != refId ==> after[r] == s.secrets[r] && plain[r] == d[r];
    }
  }

  lemma ResealedRepresents(key: Bytes, newKey: Bytes, r: Name, sealed: SealedSecret, p: Plain, nonce: Bytes)
    requires RowRepresents(key, r, sealed, p)
    ensures RowRepresents(newKey, r, Resealed(newKey, r, sealed, Open(key, sealed).value, nonce), Bumped(p))
  {}

  lemma RotateRepresents(s: State, d: Dictionary, op: Op)
    requires Represents(s, d) && op.RotateOp?
    ensures Represents(Next(s, op), PlainNext(d, op))
  {
    if op.refId in d {
      ResealedRepresents(s.key, s.key, op.refId, s.secrets[op.refId], d[op.refId], op.nonce);
    }
  }

  lemma SameProduction(s: State, d: Dictionary)
    requires Represents(s, d)
    ensures HasProduction(s.secrets) <==> PlainProduction(d)
  {
    forall r | r in d ensures s.secrets[r].scope == d[r].scope {
      assert RowRepresents(s.key, r, s.secrets[r], d[r]);
    }
  }

  lemma RepresentedOpens(s: State, d: Dictionary)
    requires Represents(s, d)
    ensures AllOpen(s.key, s.secrets)
  {
    forall r | r in s.secrets ensures Open(s.key, s.secrets[r]).Some? {
      assert RowRepresents(s.key, r, s.secrets[r], d[r]);
    }
  }

  lemma AllResealedRepresents(s: State, d: Dictionary, newKey: Bytes, nonces: Name -> Bytes)
    requires Represents(s, d) && AllOpen(s.key, s.secrets)
    ensures Represents(State(newKey, AllResealed(s.key, s.secrets, newKey, nonces)), AllBumped(d))
  {
    var after, bumped := AllResealed(s.key, s.secrets, newKey, nonces), AllBumped(d);
    forall r | r in bumped ensures RowRepresents(newKey, r, after[r], bumped[r]) {
      ResealedRepresents(s.key, newKey, r, s.secrets[r], d[r], nonces(r));
    }
  }

  lemma RotateKeyRepresents(s: State, d: Dictionary, op: Op)
    requires Represents(s, d) && op.RotateKeyOp?
    ensures Represents(Next(s, op), PlainNext(d, op))
  {
    RepresentedOpens(s, d);
    SameProduction(s, d);
    AllResealedRepresents(s, d, op.newKey, op.nonces);
  }

  lemma StepRepresents(s: State, d: Dictionary, op: Op)
    requires Represents(s, d)
    ensures Represents(Next(s, op), PlainNext(d, op))
  {
    match op
    case PutOp(refId, value, scope, nonce) => StoredRepresents(s, d, refId, value, scope, nonce);
    case ReplaceOp(refId, value, grant, _, nonce) => StoredRepresents(s, d, refId, value, grant, nonce);
    case RotateOp(_, _, _) => RotateRepresents(s, d, op);
    case RotateKeyOp(_, _, _) => RotateKeyRepresents(s, d, op);
    case DeleteOp(_) =>
  }

  function Run(s: State, ops: seq<Op>): State {
    if ops == [] then s else Next(Run(s, ops[..|ops| - 1]), ops[|ops| - 1])
  }

  function PlainRun(d: Dictionary, ops: seq<Op>): Dictionary {
    if ops == [] then d else PlainNext(PlainRun(d, ops[..|ops| - 1]), ops[|ops| - 1])
  }

  lemma {:induction false} RunRepresents(key: Bytes, ops: seq<Op>)
    ensures Represents(Run(State(key, map[]), ops), PlainRun(map[], ops))
  {
    if ops != [] {
      var n := |ops| - 1;
      RunRepresents(key, ops[..n]);
      StepRepresents(Run(State(key, map[]), ops[..n]), PlainRun(map[], ops[..n]), ops[n]);
    }
  }

  /** In every store reachable from a new one every live reference opens, and
      readers see exactly the plain dictionary, whatever keys came and went. */
  lemma ReachableStoreIsDictionary(key: Bytes, ops: seq<Op>, grant: InjectionGrant, refId: Name)
    ensures var s := Run(State(key, map[]), ops);
            && AllOpen(s.key, s.secrets)
            && Injected(s.key, s.secrets, grant, refId) == PlainInjected(PlainRun(map[], ops), grant, refId)
  {
    RunRepresents(key, ops);
    var s, d := Run(State(key, map[]), ops), PlainRun(map[], ops);
    assert forall r :: r in d ==> RowRepresents(s.key, r, s.secrets[r], d[r]);
  }

  /** Replacing a live production secret without approval goes through exactly when
      the new grant is not marked production, and the secret then leaves
      production scope. */
  lemma UnapprovedReplaceExactlyWhen(s: State, refId: Name, value: Text, grant: InjectionGrant, approval: Approval, nonce: Bytes)
    requires refId in s.secrets && s.secrets[refId].scope.production && !IsBlank(refId) && !Granted(approval)
    ensures Next(s, ReplaceOp(refId, value, grant, approval, nonce)) != s <==> !grant.production
    ensures !grant.production ==> !Next(s, ReplaceOp(refId, value, grant, approval, nonce)).secrets[refId].scope.production
  {
    var after := Next(s, ReplaceOp(refId, value, grant, approval, nonce));
    assert !grant.production ==> after.secrets[refId].version != s.secrets[refId].version;
  }

  // ---------------------------------------------------------------------
  // Who may touch production secrets
  // ---------------------------------------------------------------------

  /** Approved, and the approver's text is not white space throughout. */
  ghost predicate ApprovedByName(a: Approval) {
    a.approved && !OnlySpaces(a.approver.bytes)
  }

  /** With a live production secret a key rotation takes effect if and only if it is
      approved by name. */
  lemma KeyRotationNeedsApproval(s: State, newKey: Bytes, approval: Approval, nonces: Name -> Bytes, r: Name)
    requires AllOpen(s.key, s.secrets) && r in s.secrets && s.secrets[r].scope.production
    ensures var after := Next(s, RotateKeyOp(newKey, approval, nonces));
            && (after != s <==> ApprovedByName(approval))
            && (ApprovedByName(approval) ==> after.key == newKey)
  {
    GrantedExactlyWhen(approval);
    if Granted(approval) {
      var after := Next(s, RotateKeyOp(newKey, approval, nonces));
      assert after.secrets[r].version == s.secrets[r].version + 1;
    }
  }

  /** So does the rotation of a live production secret that opens. */
  lemma RotationNeedsApproval(s: State, refId: Name, approval: Approval, nonce: Bytes)
    requires refId in s.secrets && s.secrets[refId].scope.production && Open(s.key, s.secrets[refId]).Some?
    ensures Next(s, RotateOp(refId, approval, nonce)) != s <==> ApprovedByName(approval)
  {
    GrantedExactlyWhen(approval);
    if Granted(approval) {
      assert Next(s, RotateOp(refId, approval, nonce)).secrets[refId].version == s.secrets[refId].version + 1;
    }
  }

  /** And the replacement of a live reference under a production grant. */
  lemma ReplacementNeedsApproval(s: State, refId: Name, value: Text, grant: InjectionGrant, approval: Approval, nonce: Bytes)
    requires refId in s.secrets && !OnlySpaces(refId.bytes) && grant.production
    ensures Next(s, ReplaceOp(refId, value, grant, approval, nonce)) != s <==> ApprovedByName(approval)
  {
    GrantedExactlyWhen(approval);
    BlankExactlyWhen(refId.bytes);
    if Granted(approval) {
      assert Next(s, ReplaceOp(refId, value, grant, approval, nonce)).secrets[refId].version == s.secrets[refId].version + 1;
    }
  }

  /** What an audit entry says about the approver: a name exactly if it counted. */
  lemma ApproverIsOnRecord(a: Approval)
    ensures Approver(a) == if ApprovedByName(a) then Some(a.approver) else None
  {
    GrantedExactlyWhen(a);
  }

  /** A blank reference is never stored. */
  lemma BlankReferenceIsRefused(s: State, refId: Name, value: Text, scope: InjectionGrant, nonce: Bytes)
    ensures Next(s, PutOp(refId, value, scope, nonce)) == s <==> OnlySpaces(refId.bytes)
  {
    BlankExactlyWhen(refId.bytes);
    if !IsBlank(refId) {
      var after := Next(s, PutOp(refId, value, scope, nonce));
      assert after.secrets[refId].version == NextVersion(s.secrets, refId);
    }
  }

  /** "labrys-secret v1:a:v12" and "[redacted:a]", byte by byte. */
  lemma FormatExamples()
    ensures EnvelopeAad(Name([0x61]), 12)
         == [0x6C, 0x61, 0x62, 0x72, 0x79, 0x73, 0x2D, 0x73, 0x65, 0x63, 0x72, 0x65, 0x74, 0x20, 0x76, 0x31, 0x3A,
             0x61, 0x3A, 0x76, 0x31, 0x32]
    ensures MarkerFor(Name([0x61])) == [0x5B, 0x72, 0x65, 0x64, 0x61, 0x63, 0x74, 0x65, 0x64, 0x3A, 0x61, 0x5D]
  {
    assert Render(DIGIT_BYTES, 1) == [0x31];
    assert Render(DIGIT_BYTES, 12) == Render(DIGIT_BYTES, 1) + [0x32];
  }
}
