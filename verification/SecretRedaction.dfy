/** When the store's own redaction is complete. Its markers name the reference of the
    secret they replace, so they can carry other secrets back into the text. */
module SecretRedaction {
  import opened Prelude
  import opened Utf8
  import opened Approvals
  import opened Replacement
  import opened RuleLists
  import opened SecretStores

  /** The store lets no live value through, whatever the text. */
  ghost predicate ShowsNothing(key: Bytes, secrets: Secrets, order: seq<Name>)
    requires Listing(order, secrets)
  {
    forall text :: ShowsNone(key, secrets, StoreRedacted(key, secrets, order, text))
  }

  ghost predicate NoneStraddles(key: Bytes, secrets: Secrets) {
    forall r, q :: r in secrets && q in secrets && Shown(key, secrets[r]) != [] && Shown(key, secrets[q]) != [] ==>
                     !Straddles(Shown(key, secrets[r]), MarkerFor(secrets[q].refId))
  }

  lemma StoreMarkersAreInert(key: Bytes, secrets: Secrets, order: seq<Name>)
    requires Listing(order, secrets) && NoneStraddles(key, secrets)
    ensures InertMarkers(StoreRules(key, secrets, order))
  {
    var rules := StoreRules(key, secrets, order);
    forall i, k | 0 <= i < |rules| && 0 <= k < |rules| && rules[i].secret != [] && rules[k].secret != []
      ensures !Straddles(rules[i].secret, rules[k].marker)
    {
      assert order[i] in secrets && order[k] in secrets;
    }
  }

  lemma ShowsNothingIsComplete(key: Bytes, secrets: Secrets, order: seq<Name>)
    requires Listing(order, secrets)
    ensures ShowsNothing(key, secrets, order) <==> forall text :: CompleteOn(text, StoreRules(key, secrets, order))
  {
    forall text: Bytes
      ensures ShowsNone(key, secrets, StoreRedacted(key, secrets, order, text))
         <==> CompleteOn(text, StoreRules(key, secrets, order))
    {
      ShowsNoneIsClean(key, secrets, order, StoreRedacted(key, secrets, order, text));
    }
  }

  /** If no live value reaches over an end of a marker, the store lets nothing through
      if and only if each marker whose value contains no earlier value comes out
      clean of the replacements behind it. */
  lemma StoreRedactionIsComplete(key: Bytes, secrets: Secrets, order: seq<Name>)
    requires Listing(order, secrets) && NoneStraddles(key, secrets)
    ensures ShowsNothing(key, secrets, order)
       <==> forall i: nat :: i < |order| ==> MarkerHolds(StoreRules(key, secrets, order), i)
  {
    StoreMarkersAreInert(key, secrets, order);
    RulesCompleteExactlyWhen(StoreRules(key, secrets, order));
    ShowsNothingIsComplete(key, secrets, order);
  }

  /** In particular if the markers contain no live value. */
  lemma CleanMarkersShowNothing(key: Bytes, secrets: Secrets, order: seq<Name>)
    requires Listing(order, secrets) && NoneStraddles(key, secrets)
    requires forall q :: q in secrets && Shown(key, secrets[q]) != [] ==> ShowsNone(key, secrets, MarkerFor(secrets[q].refId))
    ensures ShowsNothing(key, secrets, order)
  {
    forall i: nat | i < |order| ensures MarkerHolds(StoreRules(key, secrets, order), i) {
      CleanMarkerHolds(key, secrets, order, i);
    }
    StoreRedactionIsComplete(key, secrets, order);
  }

  lemma CleanMarkerHolds(key: Bytes, secrets: Secrets, order: seq<Name>, i: nat)
    requires Listing(order, secrets) && i < |order|
    requires Shown(key, secrets[order[i]]) != [] ==> ShowsNone(key, secrets, MarkerFor(secrets[order[i]].refId))
    ensures MarkerHolds(StoreRules(key, secrets, order), i)
  {
    var rules := StoreRules(key, secrets, order);
    assert rules[i] == RuleFor(key, secrets[order[i]]);
    if rules[i].secret != [] {
      ShowsNoneIsClean(key, secrets, order, rules[i].marker);
      CleanStays(rules[i].marker, rules, i + 1);
    }
  }

  /** For a store with one secret the condition is exact without further ado: some
      text still shows it if and only if it can survive its own marker. */
  lemma OneSecretShowsExactlyWhen(key: Bytes, s: SealedSecret)
    requires Shown(key, s) != []
    ensures (exists text :: !ShowsNone(key, map[s.refId := s], StoreRedacted(key, map[s.refId := s], [s.refId], text)))
       <==> CanSurvive(Shown(key, s), MarkerFor(s.refId))
  {
    var secrets, order := map[s.refId := s], [s.refId];
    var value, marker := Shown(key, s), MarkerFor(s.refId);
    SurvivesExactlyWhen(value, marker);
    forall text: Bytes
      ensures !ShowsNone(key, secrets, StoreRedacted(key, secrets, order, text)) <==> SurvivesIn(text, value, marker)
    {
      var rules := StoreRules(key, secrets, order);
      assert rules[0] == Rule(value, marker);
      assert RedactedBy(text, rules, 0) == text;
      assert RedactedBy(text, rules, 1) == Replacement.Replace(text, value, marker);
    }
  }

  /** In any store, a marker that does not come out clean leaks from the value it
      replaces. */
  lemma MarkerWritesBack(key: Bytes, secrets: Secrets, order: seq<Name>, i: nat)
    requires Listing(order, secrets) && i < |order| && !MarkerHolds(StoreRules(key, secrets, order), i)
    ensures !ShowsNone(key, secrets, StoreRedacted(key, secrets, order, Shown(key, secrets[order[i]])))
  {
    var text := Shown(key, secrets[order[i]]);
    assert StoreRules(key, secrets, order)[i] == RuleFor(key, secrets[order[i]]);
    MarkerLeaks(StoreRules(key, secrets, order), i);
    ShowsNoneIsClean(key, secrets, order, StoreRedacted(key, secrets, order, text));
  }

  lemma TwoRows(key: Bytes, a: SealedSecret, b: SealedSecret)
    requires a.refId != b.refId
    ensures var secrets, order := map[a.refId := a, b.refId := b], [a.refId, b.refId];
            Listing(order, secrets) && StoreRules(key, secrets, order) == [RuleFor(key, a), RuleFor(key, b)]
  {
    var order := [a.refId, b.refId];
    assert order[0] == a.refId && order[1] == b.refId;
  }

  lemma SecondMarkerFails(a: Rule<bv8>, b: Rule<bv8>)
    requires a.secret != [] && b.secret != [] && Contains(b.marker, a.secret) && !Contains(b.secret, a.secret)
    ensures !MarkerHolds([a, b], 1)
  {
    var rules := [a, b];
    assert rules[0] == a && rules[1] == b;
    assert RedactedFrom(b.marker, rules, 2) == b.marker;
    assert !CleanOf(b.marker, rules, 2);
  }

  /** So a value that the reference id of a later secret spells out is written back by
      the redaction of that secret. */
  lemma LaterMarkerWritesBack(key: Bytes, a: SealedSecret, b: SealedSecret)
    requires a.refId != b.refId && Shown(key, a) != [] && Shown(key, b) != []
    requires Contains(MarkerFor(b.refId), Shown(key, a)) && !Contains(Shown(key, b), Shown(key, a))
    ensures var secrets, order := map[a.refId := a, b.refId := b], [a.refId, b.refId];
            && Listing(order, secrets)
            && !ShowsNone(key, secrets, StoreRedacted(key, secrets, order, Shown(key, b)))
  {
    var secrets, order := map[a.refId := a, b.refId := b], [a.refId, b.refId];
    TwoRows(key, a, b);
    SecondMarkerFails(RuleFor(key, a), RuleFor(key, b));
    assert order[1] == b.refId && secrets[b.refId] == b;
    MarkerWritesBack(key, secrets, order, 1);
  }

  const LETTER_A: Bytes := [0x61]
  const LETTER_B: Bytes := [0x62]
  const LETTER_X: Bytes := [0x78]

  lemma OneByteIsText(b: bv8)
    requires b <= 0x7F
    ensures ValidUtf8([b])
  {
    assert FirstChar([b]) == 1 && [b][1..] == [];
  }

  function RowA(key: Bytes, scope: InjectionGrant, nonce: Bytes): SealedSecret {
    SealedSecret(Name(LETTER_A), 1, scope, SealBox(key, Name(LETTER_A), 1, LETTER_B, nonce))
  }

  function RowB(key: Bytes, scope: InjectionGrant, nonce: Bytes): SealedSecret {
    SealedSecret(Name(LETTER_B), 1, scope, SealBox(key, Name(LETTER_B), 1, LETTER_X, nonce))
  }

  lemma RowsShow(key: Bytes, scope: InjectionGrant, nonce: Bytes)
    ensures ValidUtf8(LETTER_B) && ValidUtf8(LETTER_X)
    ensures Shown(key, RowA(key, scope, nonce)) == LETTER_B && Shown(key, RowB(key, scope, nonce)) == LETTER_X
  {
    OneByteIsText(0x62);
    OneByteIsText(0x78);
  }

  lemma MarkerSpellsB()
    ensures Contains(MarkerFor(Name(LETTER_B)), LETTER_B) && !Contains(LETTER_X, LETTER_B)
  {
    assert MarkerFor(Name(LETTER_B))[10..11] == LETTER_B;
    assert OccursAt(MarkerFor(Name(LETTER_B)), LETTER_B, 10);
    assert LETTER_X[0..1] == LETTER_X && LETTER_X != LETTER_B;
  }

  /** A reachable store that does: `a` holds "b", `b` holds "x", and the text "x" comes
      out with the value of `a` in it. */
  lemma WriteBackIsReachable(key: Bytes, scope: InjectionGrant, nonce: Bytes)
    ensures ValidUtf8(LETTER_B) && ValidUtf8(LETTER_X)
    ensures var a, b := Name(LETTER_A), Name(LETTER_B);
            var secrets := Run(State(key, map[]), [PutOp(a, LETTER_B, scope, nonce), PutOp(b, LETTER_X, scope, nonce)]).secrets;
            Listing([a, b], secrets) && !ShowsNone(key, secrets, StoreRedacted(key, secrets, [a, b], LETTER_X))
  {
    RowsShow(key, scope, nonce);
    MarkerSpellsB();
    TwoPuts(key, scope, nonce);
    LaterMarkerWritesBack(key, RowA(key, scope, nonce), RowB(key, scope, nonce));
  }

  lemma TwoPuts(key: Bytes, scope: InjectionGrant, nonce: Bytes)
    requires ValidUtf8(LETTER_B) && ValidUtf8(LETTER_X)
    ensures var a, b := Name(LETTER_A), Name(LETTER_B);
            Run(State(key, map[]), [PutOp(a, LETTER_B, scope, nonce), PutOp(b, LETTER_X, scope, nonce)]).secrets
            == map[a := RowA(key, scope, nonce), b := RowB(key, scope, nonce)]
  {
    var a, b := Name(LETTER_A), Name(LETTER_B);
    var first, second := PutOp(a, LETTER_B, scope, nonce), PutOp(b, LETTER_X, scope, nonce);
    assert [first, second][..1] == [first] && [first][..0] == [];
    assert Run(State(key, map[]), [first]) == Next(State(key, map[]), first);
    assert !IsBlank(a) && !IsBlank(b);
  }

  /** Rotating the key changes nothing about redaction. */
  lemma RotationKeepsRedaction(key: Bytes, secrets: Secrets, newKey: Bytes, nonces: Name -> Bytes, order: seq<Name>, text: Bytes)
    requires AllOpen(key, secrets) && Listing(order, secrets) && forall r :: r in secrets ==> secrets[r].refId == r
    ensures var after := AllResealed(key, secrets, newKey, nonces);
            Listing(order, after) && StoreRedacted(newKey, after, order, text) == StoreRedacted(key, secrets, order, text)
  {
    var after := AllResealed(key, secrets, newKey, nonces);
    AllResealedOpen(key, secrets, newKey, nonces);
    var old', new' := StoreRules(key, secrets, order), StoreRules(newKey, after, order);
    forall i | 0 <= i < |order| ensures old'[i] == new'[i] {
      assert order[i] in secrets;
    }
    assert old' == new';
  }
}
