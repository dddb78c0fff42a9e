/** Secret redaction: every secret of a list is replaced by one fixed marker, one
    after another, and the fail-closed guard stands behind it. */
module Redaction {
  import opened Prelude
  import opened Replacement
  import opened RuleLists

  const WORD: string := "redacted"
  const MARKER: string := "[redacted]"

  /** The list as replacement rules. */
  function Rules(secrets: seq<string>): (rules: seq<Rule<char>>)
    ensures |rules| == |secrets| && forall i :: 0 <= i < |rules| ==> rules[i] == Rule(secrets[i], MARKER)
  {
    seq(|secrets|, i requires 0 <= i < |secrets| => Rule(secrets[i], MARKER))
  }

  function Redacted(text: string, secrets: seq<string>): string {
    RedactedBy(text, Rules(secrets), |secrets|)
  }

  /** `redact_reason`: the loop over the secrets. */
  method RedactReason(reason: string, secrets: seq<string>) returns (out: string)
    ensures out == Redacted(reason, secrets)
  {
    out := reason;
    var i := 0;
    while i < |secrets|
      invariant 0 <= i <= |secrets|
      invariant out == RedactedBy(reason, Rules(secrets), i)
    {
      if secrets[i] != "" {
        out := Replace(out, secrets[i], MARKER);
      }
      i := i + 1;
    }
  }

  ghost predicate Clean(text: string, secrets: seq<string>) {
    forall s :: s in secrets && s != "" ==> !Contains(text, s)
  }

  lemma CleanIsCleanOf(text: string, secrets: seq<string>)
    ensures Clean(text, secrets) <==> CleanOf(text, Rules(secrets), |secrets|)
  {
    var rules := Rules(secrets);
    if CleanOf(text, rules, |secrets|) {
      forall s | s in secrets && s != "" ensures !Contains(text, s) {
        var j :| 0 <= j < |secrets| && secrets[j] == s;
        assert rules[j].secret == s;
      }
    } else {
      var j :| 0 <= j < |secrets| && rules[j].secret != [] && Contains(text, rules[j].secret);
      assert secrets[j] in secrets;
    }
  }

  // ---------------------------------------------------------------------
  // Completeness
  // ---------------------------------------------------------------------

  /** Secrets that share no character with a marker beside them. */
  ghost predicate Redactable(secret: string) {
    Apart(secret, MARKER)
  }

  ghost predicate AllRedactable(secrets: seq<string>) {
    forall s :: s in secrets && s != "" ==> Redactable(s)
  }

  predicate BracketFree(secret: string) {
    '[' !in secret && ']' !in secret
  }

  lemma CharOf(text: string, part: string, i: int, k: nat)
    requires OccursAt(text, part, i) && k < |part|
    ensures text[i + k] == part[k] && text[i + k] in part
  {
    assert text[i..i + |part|][k] == text[i + k];
  }

  /** What reaches over an end of the marker holds a bracket. */
  lemma StraddlersHoldBrackets(s: string)
    requires Straddles(s, MARKER)
    ensures !BracketFree(s)
  {
    if StartsInside(s, MARKER) {
      var k :| 0 <= k < |MARKER| && MARKER[k..] < s;
      assert s[|MARKER| - 1 - k] == MARKER[k..][|MARKER| - 1 - k] == ']';
    } else {
      var k :| RunsInto(s, MARKER, k);
      assert s[k] == s[k..][0] == MARKER[0];
    }
  }

  lemma InsideMarkerIsInsideWord(s: string)
    requires s != "" && BracketFree(s)
    ensures Contains(MARKER, s) <==> Contains(WORD, s)
  {
    assert MARKER == "[" + WORD + "]";
    if Contains(MARKER, s) {
      var i :| OccursAt(MARKER, s, i);
      assert i > 0 by {
        CharOf(MARKER, s, i, 0);
      }
      assert i + |s| < |MARKER| by {
        CharOf(MARKER, s, i, |s| - 1);
      }
      assert WORD[i - 1..i - 1 + |s|] == MARKER[i..i + |s|];
      assert OccursAt(WORD, s, i - 1);
    } else if Contains(WORD, s) {
      OccursInside("[", WORD, "]", s);
    }
  }

  /** A bracket-free secret is redactable exactly if it is no part of the word. */
  lemma BracketFreeIsRedactable(s: string)
    requires s != "" && BracketFree(s)
    ensures Redactable(s) <==> !Contains(WORD, s)
  {
    if Straddles(s, MARKER) {
      StraddlersHoldBrackets(s);
    }
    InsideMarkerIsInsideWord(s);
  }

  /** Completeness: no redactable secret survives, in any text. */
  lemma RedactionIsComplete(text: string, secrets: seq<string>)
    requires AllRedactable(secrets)
    ensures Clean(Redacted(text, secrets), secrets)
  {
    var rules := Rules(secrets);
    forall j, k | 0 <= j <= k < |rules| && rules[j].secret != [] && rules[k].secret != []
      ensures Apart(rules[j].secret, rules[k].marker)
    {
      assert secrets[j] in secrets;
    }
    RulesLeaveNothing(text, rules, |secrets|);
    CleanIsCleanOf(Redacted(text, secrets), secrets);
  }

  /** Redacting twice is redacting once. */
  lemma RedactionIsIdempotent(text: string, secrets: seq<string>)
    requires AllRedactable(secrets)
    ensures Redacted(Redacted(text, secrets), secrets) == Redacted(text, secrets)
  {
    RedactionIsComplete(text, secrets);
    CleanIsCleanOf(Redacted(text, secrets), secrets);
    CleanIsFixed(Redacted(text, secrets), Rules(secrets), |secrets|);
  }

  // ---------------------------------------------------------------------
  // Exactly when it is not complete
  // ---------------------------------------------------------------------

  /** One secret, brackets or not: some text keeps it if and only if the marker
      contains it, an end of the marker begins it, or it is rebuilt behind a front
      that the scan copies. */
  lemma OneSecretLeaksExactlyWhen(s: string)
    requires s != ""
    ensures (exists text :: Contains(Redacted(text, [s]), s)) <==> CanSurvive(s, MARKER)
  {
    SurvivesExactlyWhen(s, MARKER);
    forall text: string ensures Contains(Redacted(text, [s]), s) <==> SurvivesIn(text, s, MARKER) {
      assert RedactedBy(text, Rules([s]), 0) == text;
      assert Redacted(text, [s]) == Replace(text, s, MARKER);
    }
  }

  /** Either nothing matched or the marker is in the output. */
  lemma ReplaceKeepsOrMarks(text: string, pat: string)
    requires pat != ""
    ensures Replace(text, pat, MARKER) == text || Contains(Replace(text, pat, MARKER), MARKER)
  {
    if !Contains(text, pat) {
      ReplaceAbsent(text, pat, MARKER);
    } else {
      var p := FirstMatch(text, pat);
      CutAtMatch(text, pat, p);
      var front, tail := text[..p], text[p + |pat|..];
      ReplaceAtFirst(front, pat, tail, MARKER);
      MarkerOccurs(front, Replace(tail, pat, MARKER));
    }
  }

  lemma MarkerOccurs(front: string, tail: string)
    ensures Contains(front + (MARKER + tail), MARKER)
  {
    assert OccursAt(front + (MARKER + tail), MARKER, |front|);
  }

  lemma {:induction false} MarkerPartSurvives(secret: string, secrets: seq<string>, n: nat)
    requires n <= |secrets| && Contains(MARKER, secret)
    ensures Contains(RedactedBy(secret, Rules(secrets), n), secret)
  {
    if n == 0 {
      assert OccursAt(secret, secret, 0);
    } else {
      MarkerPartSurvives(secret, secrets, n - 1);
      if secrets[n - 1] != "" {
        var before := RedactedBy(secret, Rules(secrets), n - 1);
        ReplaceKeepsOrMarks(before, secrets[n - 1]);
        if Contains(RedactedBy(secret, Rules(secrets), n), MARKER) {
          ContainsTransitive(RedactedBy(secret, Rules(secrets), n), MARKER, secret);
        }
      }
    }
  }

  /** A secret that the marker contains, brackets included, survives every list it
      is redacted with. */
  lemma MarkerPartLeaks(s: string, secrets: seq<string>)
    requires s in secrets && s != "" && Contains(MARKER, s)
    ensures !Clean(Redacted(s, secrets), secrets)
  {
    MarkerPartSurvives(s, secrets, |secrets|);
  }

  /** For secrets that reach over no end of the marker, bracket-free ones among
      them, the condition is exact: a list redacts every text completely if and
      only if the marker contains none of its secrets. */
  lemma CompleteExactlyWhen(secrets: seq<string>)
    requires forall s :: s in secrets ==> !Straddles(s, MARKER)
    ensures (forall text :: Clean(Redacted(text, secrets), secrets))
       <==> (forall s :: s in secrets && s != "" ==> !Contains(MARKER, s))
  {
    var rules := Rules(secrets);
    assert InertMarkers(rules) by {
      forall i | 0 <= i < |rules| ensures rules[i].secret in secrets {}
    }
    RulesCompleteExactlyWhen(rules);
    forall text ensures Clean(Redacted(text, secrets), secrets) <==> CompleteOn(text, rules) {
      CleanIsCleanOf(Redacted(text, secrets), secrets);
    }
    if forall s :: s in secrets && s != "" ==> !Contains(MARKER, s) {
      CleanIsCleanOf(MARKER, secrets);
      forall i: nat | i < |rules| ensures MarkerHolds(rules, i) {
        CleanStays(MARKER, rules, i + 1);
      }
    } else {
      var s :| s in secrets && s != "" && Contains(MARKER, s);
      MarkerPartLeaks(s, secrets);
    }
  }

  /** A secret with a bracket that its own redaction rebuilds. */
  lemma BracketSecretLeaks()
    ensures Redacted("xx[re", ["x[re"]) == "x[redacted]"
    ensures !Clean(Redacted("xx[re", ["x[re"]), ["x[re"])
  {
    var p, t := "x[re", "xx[re";
    assert t[1] != p[1];
    assert t[1..] == p && p[|p|..] == "";
    calc {
      Redacted(t, [p]);
      { assert RedactedBy(t, Rules([p]), 0) == t; }
      Replace(t, p, MARKER);
      [t[0]] + Replace(p, p, MARKER);
      "x[redacted]";
    }
    assert OccursAt("x[redacted]", p, 0);
    assert p in [p];
  }

  // ---------------------------------------------------------------------
  // The guard
  // ---------------------------------------------------------------------

  datatype Leak = SecretLeak(field: string)

  /** `ensure_no_secret`: rejects a text that still holds a known secret. */
  method EnsureNoSecret(field: string, text: string, secrets: seq<string>)
    returns (r: Result<(), Leak>)
    ensures r == if Clean(text, secrets) then Ok(()) else Err(SecretLeak(field))
  {
    var i := 0;
    while i < |secrets|
      invariant 0 <= i <= |secrets|
      invariant Clean(text, secrets[..i])
    {
      if secrets[i] != "" {
        var found := ContainsText(text, secrets[i]);
        if found {
          assert secrets[i] in secrets;
          return Err(SecretLeak(field));
        }
      }
      i := i + 1;
    }
    assert secrets[..|secrets|] == secrets;
    return Ok(());
  }

  /** What the guard answers, as a function for callers. */
  ghost function Guarded(field: string, text: string, secrets: seq<string>): Result<string, Leak> {
    if Clean(Redacted(text, secrets), secrets) then Ok(Redacted(text, secrets)) else Err(SecretLeak(field))
  }

  /** `redact_guard`. */
  method RedactGuard(field: string, text: string, secrets: seq<string>)
    returns (r: Result<string, Leak>)
    ensures r == Guarded(field, text, secrets)
  {
    var out := RedactReason(text, secrets);
    var checked := EnsureNoSecret(field, out, secrets);
    if checked.Err? {
      return Err(checked.error);
    }
    return Ok(out);
  }

  /** The guard fails closed for every list and never fails for a redactable one. */
  lemma GuardFailsClosed(field: string, text: string, secrets: seq<string>)
    ensures Guarded(field, text, secrets).Ok? ==> Clean(Guarded(field, text, secrets).value, secrets)
    ensures AllRedactable(secrets) ==> Guarded(field, text, secrets).Ok?
  {
    if AllRedactable(secrets) {
      RedactionIsComplete(text, secrets);
    }
  }
}
