/** Leftmost, non-overlapping replacement of a pattern by a marker, and when the
    pattern can survive it. Texts are sequences of any symbols. */
module Replacement {

  // ---------------------------------------------------------------------
  // Occurrences
  // ---------------------------------------------------------------------

  ghost predicate OccursAt<T>(text: seq<T>, part: seq<T>, i: int) {
    0 <= i && i + |part| <= |text| && text[i..i + |part|] == part
  }

  ghost predicate Contains<T>(text: seq<T>, part: seq<T>) {
    exists i :: OccursAt(text, part, i)
  }

  lemma OccursInside<T>(pre: seq<T>, text: seq<T>, post: seq<T>, part: seq<T>)
    requires Contains(text, part)
    ensures Contains(pre + text + post, part)
  {
    var i :| OccursAt(text, part, i);
    assert (pre + text + post)[|pre| + i..|pre| + i + |part|] == part;
    assert OccursAt(pre + text + post, part, |pre| + i);
  }

  lemma OccursInSuffix<T>(pre: seq<T>, text: seq<T>, part: seq<T>)
    requires Contains(text, part)
    ensures Contains(pre + text, part)
  {
    OccursInside(pre, text, [], part);
    assert pre + text + [] == pre + text;
  }

  lemma ContainsTransitive<T>(text: seq<T>, mid: seq<T>, part: seq<T>)
    requires Contains(text, mid) && Contains(mid, part)
    ensures Contains(text, part)
  {
    var i :| OccursAt(text, mid, i);
    OccursInside(text[..i], mid, text[i + |mid|..], part);
    assert text[..i] + mid + text[i + |mid|..] == text;
  }

  lemma OccursBehind<T>(pre: seq<T>, text: seq<T>, part: seq<T>, i: int)
    requires OccursAt(pre + text, part, i) && i >= |pre|
    ensures OccursAt(text, part, i - |pre|)
  {
    assert text[i - |pre|..i - |pre| + |part|] == (pre + text)[i..i + |part|];
  }

  lemma PrefixesCompare<T>(a: seq<T>, b: seq<T>, c: seq<T>)
    requires a <= c && b <= c
    ensures a <= b || b <= a
  {
    if |a| <= |b| {
      assert a == c[..|a|] == b[..|a|];
    } else {
      assert b == c[..|b|] == a[..|b|];
    }
  }

  lemma PrefixOfJoin<T>(s: seq<T>, a: seq<T>, b: seq<T>)
    requires s <= a + b
    ensures if |s| <= |a| then s <= a else s[..|a|] == a && s[|a|..] <= b
  {
    if |s| <= |a| {
      assert s == (a + b)[..|s|] == a[..|s|];
    } else {
      assert s[..|a|] == (a + b)[..|a|] == a;
      assert s[|a|..] == (a + b)[|a|..|s|] == b[..|s| - |a|];
    }
  }

  /** `str::contains`: looks for `part` from the left. */
  method ContainsText<T(==)>(text: seq<T>, part: seq<T>) returns (found: bool)
    ensures found == Contains(text, part)
  {
    var i := 0;
    while i + |part| <= |text|
      invariant 0 <= i
      invariant forall k :: 0 <= k < i ==> !OccursAt(text, part, k)
    {
      if text[i..i + |part|] == part {
        assert OccursAt(text, part, i);
        return true;
      }
      i := i + 1;
    }
    return false;
  }

  // ---------------------------------------------------------------------
  // Replacement
  // ---------------------------------------------------------------------

  /** `str::replace(pat, marker)` for a non-empty pattern: scan from the left,
      replace a match and continue behind it, copy any other symbol. */
  function Replace<T(==)>(text: seq<T>, pat: seq<T>, marker: seq<T>): seq<T>
    requires pat != []
    decreases |text|
  {
    if text == [] then []
    else if pat <= text then marker + Replace(text[|pat|..], pat, marker)
    else [text[0]] + Replace(text[1..], pat, marker)
  }

  lemma {:induction false} ReplaceAbsent<T>(text: seq<T>, pat: seq<T>, marker: seq<T>)
    requires pat != [] && !Contains(text, pat)
    ensures Replace(text, pat, marker) == text
    decreases |text|
  {
    if text != [] {
      assert pat <= text ==> OccursAt(text, pat, 0);
      assert text == [text[0]] + text[1..];
      if Contains(text[1..], pat) {
        OccursInSuffix([text[0]], text[1..], pat);
      }
      ReplaceAbsent(text[1..], pat, marker);
    }
  }

  lemma TooShort<T>(text: seq<T>, pat: seq<T>)
    requires |text| < |pat|
    ensures !Contains(text, pat)
  {}

  ghost predicate FirstAt<T>(text: seq<T>, pat: seq<T>, p: nat) {
    OccursAt(text, pat, p) && forall i :: 0 <= i < p ==> !OccursAt(text, pat, i)
  }

  lemma FirstShifts<T>(text: seq<T>, pat: seq<T>, p: nat)
    requires FirstAt(text, pat, p) && p > 0
    ensures text != [] && !(pat <= text) && FirstAt(text[1..], pat, p - 1)
  {
    var rest := text[1..];
    assert text == [text[0]] + rest;
    OccursBehind([text[0]], rest, pat, p);
    assert !OccursAt(text, pat, 0);
    forall i | 0 <= i < p - 1 ensures !OccursAt(rest, pat, i) {
      if OccursAt(rest, pat, i) {
        assert text[i + 1..i + 1 + |pat|] == rest[i..i + |pat|];
        assert OccursAt(text, pat, i + 1);
      }
    }
  }

  lemma HeadAndTail<T>(front: seq<T>, x: seq<T>)
    requires front != []
    ensures front + x == [front[0]] + (front[1..] + x) && (front + x)[1..] == front[1..] + x
  {}

  /** Everything before the first match is copied, then comes the marker. */
  lemma {:induction false} ReplaceAtFirst<T>(front: seq<T>, pat: seq<T>, tail: seq<T>, marker: seq<T>)
    requires pat != [] && FirstAt(front + (pat + tail), pat, |front|)
    ensures Replace(front + (pat + tail), pat, marker) == front + (marker + Replace(tail, pat, marker))
    decreases |front|
  {
    var matched, replaced := pat + tail, marker + Replace(tail, pat, marker);
    if front == [] {
      assert front + matched == matched && front + replaced == replaced;
      assert matched[|pat|..] == tail;
    } else {
      FirstShifts(front + matched, pat, |front|);
      HeadAndTail(front, matched);
      HeadAndTail(front, replaced);
      ReplaceAtFirst(front[1..], pat, tail, marker);
    }
  }

  // ---------------------------------------------------------------------
  // How a string can touch a marker
  // ---------------------------------------------------------------------

  /** A non-empty end of the marker begins the string, which goes on behind it. */
  ghost predicate StartsInside<T>(s: seq<T>, marker: seq<T>) {
    exists k :: 0 <= k < |marker| && marker[k..] < s
  }

  /** Behind a non-empty front the string runs along the marker. */
  ghost predicate RunsInto<T>(s: seq<T>, marker: seq<T>, k: int) {
    0 < k < |s| && (s[k..] <= marker || marker <= s[k..])
  }

  ghost predicate Straddles<T>(s: seq<T>, marker: seq<T>) {
    StartsInside(s, marker) || exists k :: RunsInto(s, marker, k)
  }

  /** The string shares no symbol with any marker it occurs near. */
  ghost predicate Apart<T>(s: seq<T>, marker: seq<T>) {
    !Contains(marker, s) && !Straddles(s, marker)
  }

  lemma NotAcrossMarker<T>(marker: seq<T>, tail: seq<T>, s: seq<T>, i: int)
    requires OccursAt(marker + tail, s, i) && i < |marker|
    ensures Contains(marker, s) || StartsInside(s, marker)
  {
    var rest := marker[i..];
    assert (marker + tail)[i..] == rest + tail;
    assert s == (rest + tail)[..|s|];
    PrefixesCompare(s, rest, rest + tail);
    if s <= rest {
      assert marker[i..i + |s|] == rest[..|s|] == s;
      assert OccursAt(marker, s, i);
    }
  }

  /** An end of a string that starts the output started the input, or the string
      straddles the marker. */
  lemma {:induction false} EndWasThere<T>(text: seq<T>, pat: seq<T>, marker: seq<T>, q: seq<T>, k: nat)
    requires pat != [] && 0 < k <= |q| && q[k..] <= Replace(text, pat, marker)
    ensures q[k..] <= text || Straddles(q, marker)
    decreases |text|
  {
    if k < |q| && text != [] {
      if pat <= text {
        PrefixesCompare(q[k..], marker, Replace(text, pat, marker));
        assert RunsInto(q, marker, k);
      } else {
        assert q[k..] == [q[k]] + q[k + 1..];
        assert q[k + 1..] <= Replace(text[1..], pat, marker);
        EndWasThere(text[1..], pat, marker, q, k + 1);
        assert text == [text[0]] + text[1..];
      }
    }
  }

  /** Replacing `pat` creates no new occurrence of a string apart from the marker,
      and leaves none of `pat` itself. */
  lemma {:induction false} ReplaceAddsNothing<T>(text: seq<T>, pat: seq<T>, marker: seq<T>, q: seq<T>)
    requires pat != [] && q != [] && Apart(q, marker)
    requires Contains(Replace(text, pat, marker), q)
    ensures q != pat && Contains(text, q)
    decreases |text|
  {
    var out := Replace(text, pat, marker);
    var i :| OccursAt(out, q, i);
    if pat <= text {
      var rest := Replace(text[|pat|..], pat, marker);
      if i < |marker| {
        NotAcrossMarker(marker, rest, q, i);
      }
      OccursBehind(marker, rest, q, i);
      ReplaceAddsNothing(text[|pat|..], pat, marker, q);
      assert text == text[..|pat|] + text[|pat|..];
      OccursInSuffix(text[..|pat|], text[|pat|..], q);
    } else {
      var rest := Replace(text[1..], pat, marker);
      assert text == [text[0]] + text[1..];
      if i == 0 {
        assert q == [q[0]] + q[1..] && q[1..] <= rest;
        EndWasThere(text[1..], pat, marker, q, 1);
        assert OccursAt(text, q, 0);
      } else {
        OccursBehind([text[0]], rest, q, i);
        ReplaceAddsNothing(text[1..], pat, marker, q);
        OccursInSuffix([text[0]], text[1..], q);
      }
    }
  }

  // ---------------------------------------------------------------------
  // Exactly which patterns survive their own replacement
  // ---------------------------------------------------------------------

  /** The pattern runs into the marker behind a front that a scan copies: put in
      front of the pattern, the front starts no earlier match. */
  ghost predicate Rebuilt<T>(s: seq<T>, marker: seq<T>) {
    exists k :: RunsInto(s, marker, k) && forall i :: 0 <= i < k ==> !OccursAt(s[..k] + s, s, i)
  }

  ghost predicate CanSurvive<T>(s: seq<T>, marker: seq<T>) {
    Contains(marker, s) || StartsInside(s, marker) || Rebuilt(s, marker)
  }

  ghost predicate SurvivesIn<T>(text: seq<T>, s: seq<T>, marker: seq<T>) {
    s != [] && Contains(Replace(text, s, marker), s)
  }

  lemma FirstMatch<T>(text: seq<T>, pat: seq<T>) returns (p: nat)
    requires Contains(text, pat)
    ensures FirstAt(text, pat, p)
  {
    p := 0;
    while !OccursAt(text, pat, p)
      invariant p <= |text| && forall i :: 0 <= i < p ==> !OccursAt(text, pat, i)
      decreases |text| - p
    {
      var j :| OccursAt(text, pat, j);
      assert p < j;
      p := p + 1;
    }
  }

  lemma CutAtMatch<T>(text: seq<T>, s: seq<T>, p: nat)
    requires OccursAt(text, s, p)
    ensures text == text[..p] + (s + text[p + |s|..])
  {}

  lemma CopiedUpTo<T>(text: seq<T>, s: seq<T>, marker: seq<T>, p: nat)
    requires s != [] && s <= Replace(text, s, marker) && FirstAt(text, s, p)
    ensures s <= text || (p < |s| && s[..p] == text[..p] && (s[p..] <= marker || marker <= s[p..]))
  {
    var front, tail := text[..p], text[p + |s|..];
    CutAtMatch(text, s, p);
    ReplaceAtFirst(front, s, tail, marker);
    var behind := marker + Replace(tail, s, marker);
    PrefixOfJoin(s, front, behind);
    if |s| > p {
      PrefixesCompare(s[p..], marker, behind);
    }
  }

  lemma NoEarlierMatch<T>(text: seq<T>, s: seq<T>, p: nat)
    requires FirstAt(text, s, p)
    ensures forall i :: 0 <= i < p ==> !OccursAt(text[..p] + s, s, i)
  {
    var head := text[..p + |s|];
    assert text[..p] + s == head;
    forall i | 0 <= i < p ensures !OccursAt(head, s, i) {
      assert head[i..i + |s|] == text[i..i + |s|];
      assert !OccursAt(text, s, i);
    }
  }

  /** A surviving occurrence that starts on a copied symbol was rebuilt. */
  lemma StartIsRebuilt<T>(text: seq<T>, s: seq<T>, marker: seq<T>)
    requires s != [] && s <= Replace(text, s, marker)
    ensures s <= text || Rebuilt(s, marker)
  {
    if !Contains(text, s) {
      ReplaceAbsent(text, s, marker);
    } else {
      var p := FirstMatch(text, s);
      CopiedUpTo(text, s, marker, p);
      if !(s <= text) {
        assert p > 0;
        NoEarlierMatch(text, s, p);
        assert RunsInto(s, marker, p);
      }
    }
  }

  lemma {:induction false} SurvivorIsClassified<T>(text: seq<T>, s: seq<T>, marker: seq<T>)
    requires SurvivesIn(text, s, marker)
    ensures CanSurvive(s, marker)
    decreases |text|
  {
    var out := Replace(text, s, marker);
    var i :| OccursAt(out, s, i);
    if s <= text {
      if i < |marker| {
        NotAcrossMarker(marker, Replace(text[|s|..], s, marker), s, i);
      } else {
        OccursBehind(marker, Replace(text[|s|..], s, marker), s, i);
        SurvivorIsClassified(text[|s|..], s, marker);
      }
    } else if i == 0 {
      StartIsRebuilt(text, s, marker);
    } else {
      OccursBehind([text[0]], Replace(text[1..], s, marker), s, i);
      SurvivorIsClassified(text[1..], s, marker);
    }
  }

  lemma StillFirst<T>(front: seq<T>, s: seq<T>, rest: seq<T>)
    requires forall i :: 0 <= i < |front| ==> !OccursAt(front + s, s, i)
    ensures FirstAt(front + (s + rest), s, |front|)
  {
    var text := front + (s + rest);
    assert text[|front|..|front| + |s|] == s;
    forall i | 0 <= i < |front| ensures !OccursAt(text, s, i) {
      assert text[i..i + |s|] == (front + s)[i..i + |s|];
      assert !OccursAt(front + s, s, i);
    }
  }

  lemma ReplaceOnce<T>(front: seq<T>, s: seq<T>, rest: seq<T>, marker: seq<T>)
    requires |rest| < |s| && forall i :: 0 <= i < |front| ==> !OccursAt(front + s, s, i)
    ensures Replace(front + (s + rest), s, marker) == front + (marker + rest)
  {
    StillFirst(front, s, rest);
    ReplaceAtFirst(front, s, rest, marker);
    TooShort(rest, s);
    ReplaceAbsent(rest, s, marker);
  }

  lemma InsideSurvives<T>(s: seq<T>, marker: seq<T>)
    requires s != [] && Contains(marker, s)
    ensures SurvivesIn(s, s, marker)
  {
    ReplaceOnce([], s, [], marker);
    assert [] + (s + []) == s && [] + (marker + []) == marker;
  }

  lemma EndAndRest<T>(marker: seq<T>, k: nat, rest: seq<T>)
    requires k <= |marker|
    ensures OccursAt(marker + rest, marker[k..] + rest, k)
  {}

  /** The marker's end and the rest of the pattern, left over behind a match. */
  lemma StartsInsideSurvives<T>(s: seq<T>, marker: seq<T>) returns (text: seq<T>)
    requires s != [] && StartsInside(s, marker)
    ensures SurvivesIn(text, s, marker)
  {
    var k :| 0 <= k < |marker| && marker[k..] < s;
    var rest := s[|marker| - k..];
    assert s == marker[k..] + rest;
    text := [] + (s + rest);
    ReplaceOnce([], s, rest, marker);
    EndAndRest(marker, k, rest);
    assert [] + (marker + rest) == marker + rest;
  }

  lemma BackFits<T>(back: seq<T>, marker: seq<T>) returns (rest: seq<T>)
    requires back <= marker || marker <= back
    ensures back <= marker + rest && |rest| <= |back|
  {
    rest := if marker <= back then back[|marker|..] else [];
  }

  lemma FrontAndBack<T>(front: seq<T>, back: seq<T>, tail: seq<T>)
    requires back <= tail
    ensures OccursAt(front + tail, front + back, 0)
  {}

  /** The front, and behind the marker whatever of the pattern the marker lacks. */
  lemma RebuiltFrom<T>(front: seq<T>, s: seq<T>, back: seq<T>, marker: seq<T>) returns (text: seq<T>)
    requires front != [] && s == front + back && (back <= marker || marker <= back)
    requires forall i :: 0 <= i < |front| ==> !OccursAt(front + s, s, i)
    ensures SurvivesIn(text, s, marker)
  {
    var rest := BackFits(back, marker);
    text := front + (s + rest);
    ReplaceOnce(front, s, rest, marker);
    FrontAndBack(front, back, marker + rest);
  }

  lemma RebuiltSurvives<T>(s: seq<T>, marker: seq<T>) returns (text: seq<T>)
    requires Rebuilt(s, marker)
    ensures SurvivesIn(text, s, marker)
  {
    var k :| RunsInto(s, marker, k) && forall i :: 0 <= i < k ==> !OccursAt(s[..k] + s, s, i);
    assert s == s[..k] + s[k..];
    text := RebuiltFrom(s[..k], s, s[k..], marker);
  }

  /** Some text still holds the pattern after its replacement if and only if the
      marker contains the pattern, an end of the marker begins it, or it is
      rebuilt behind a copied front. */
  lemma SurvivesExactlyWhen<T(!new)>(s: seq<T>, marker: seq<T>)
    requires s != []
    ensures (exists text :: SurvivesIn(text, s, marker)) <==> CanSurvive(s, marker)
  {
    if text :| SurvivesIn(text, s, marker) {
      SurvivorIsClassified(text, s, marker);
    } else if Contains(marker, s) {
      InsideSurvives(s, marker);
    } else if StartsInside(s, marker) {
      var text := StartsInsideSurvives(s, marker);
    } else if Rebuilt(s, marker) {
      var text := RebuiltSurvives(s, marker);
    }
  }

  // ---------------------------------------------------------------------
  // Rules applied one after another
  // ---------------------------------------------------------------------

  datatype Rule<T> = Rule(secret: seq<T>, marker: seq<T>)

  /** One rule; an empty secret is skipped. */
  function ApplyRule<T(==)>(text: seq<T>, rule: Rule<T>): seq<T> {
    if rule.secret == [] then text else Replace(text, rule.secret, rule.marker)
  }

  /** The text after the first `n` rules. */
  function RedactedBy<T(==)>(text: seq<T>, rules: seq<Rule<T>>, n: nat): seq<T>
    requires n <= |rules|
  {
    if n == 0 then text else ApplyRule(RedactedBy(text, rules, n - 1), rules[n - 1])
  }

  /** The loop over the rules, which looks before it replaces. */
  method ApplyRules<T(==)>(text: seq<T>, rules: seq<Rule<T>>) returns (out: seq<T>)
    ensures out == RedactedBy(text, rules, |rules|)
  {
    out := text;
    var i := 0;
    while i < |rules|
      invariant 0 <= i <= |rules| && out == RedactedBy(text, rules, i)
    {
      if rules[i].secret != [] {
        var found := ContainsText(out, rules[i].secret);
        if found {
          out := Replace(out, rules[i].secret, rules[i].marker);
        } else {
          ReplaceAbsent(out, rules[i].secret, rules[i].marker);
        }
      }
      i := i + 1;
    }
  }

  ghost predicate CleanOf<T>(text: seq<T>, rules: seq<Rule<T>>, n: nat)
    requires n <= |rules|
  {
    forall j :: 0 <= j < n && rules[j].secret != [] ==> !Contains(text, rules[j].secret)
  }

  /** Looks for a secret that is left. */
  method FindSecret<T(==)>(text: seq<T>, rules: seq<Rule<T>>) returns (found: bool)
    ensures found <==> !CleanOf(text, rules, |rules|)
  {
    var i := 0;
    while i < |rules|
      invariant 0 <= i <= |rules| && CleanOf(text, rules, i)
    {
      if rules[i].secret != [] {
        found := ContainsText(text, rules[i].secret);
        if found {
          return;
        }
      }
      i := i + 1;
    }
    return false;
  }

  /** No secret touches its own marker or one written after its turn. */
  ghost predicate KeptApart<T>(rules: seq<Rule<T>>) {
    forall j, k :: 0 <= j <= k < |rules| && rules[j].secret != [] && rules[k].secret != [] ==>
                     Apart(rules[j].secret, rules[k].marker)
  }

  /** Then no secret survives, whatever the text. */
  lemma {:induction false} RulesLeaveNothing<T>(text: seq<T>, rules: seq<Rule<T>>, n: nat)
    requires n <= |rules| && KeptApart(rules)
    ensures CleanOf(RedactedBy(text, rules, n), rules, n)
  {
    if n > 0 {
      RulesLeaveNothing(text, rules, n - 1);
      var before, last := RedactedBy(text, rules, n - 1), rules[n - 1];
      if last.secret != [] {
        forall j | 0 <= j < n && rules[j].secret != []
          ensures !Contains(Replace(before, last.secret, last.marker), rules[j].secret)
        {
          if Contains(Replace(before, last.secret, last.marker), rules[j].secret) {
            ReplaceAddsNothing(before, last.secret, last.marker, rules[j].secret);
          }
        }
      }
    }
  }

  /** A text without the secrets is left alone. */
  lemma {:induction false} CleanIsFixed<T>(text: seq<T>, rules: seq<Rule<T>>, n: nat)
    requires n <= |rules| && CleanOf(text, rules, n)
    ensures RedactedBy(text, rules, n) == text
  {
    if n > 0 {
      CleanIsFixed(text, rules, n - 1);
      if rules[n - 1].secret != [] {
        ReplaceAbsent(text, rules[n - 1].secret, rules[n - 1].marker);
      }
    }
  }
}
