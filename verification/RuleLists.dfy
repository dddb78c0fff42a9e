/** Exactly which lists of replacement rules redact every text completely, when no
    secret reaches over an end of a marker. */
module RuleLists {
  import opened Replacement

  // ---------------------------------------------------------------------
  // A piece of text that no secret reaches into
  // ---------------------------------------------------------------------

  lemma TailStraddles<T>(s: seq<T>, w: seq<T>, j: nat)
    requires j <= |w| && StartsInside(s, w[j..])
    ensures StartsInside(s, w)
  {
    var k :| 0 <= k < |w[j..]| && w[j..][k..] < s;
    assert w[j + k..] == w[j..][k..];
  }

  lemma OccursBefore<T>(x: seq<T>, z: seq<T>, s: seq<T>, i: int)
    requires OccursAt(x + z, s, i) && i + |s| <= |x|
    ensures OccursAt(x, s, i)
  {
    assert x[i..i + |s|] == (x + z)[i..i + |s|];
  }

  lemma OccursOver<T>(x: seq<T>, w: seq<T>, y: seq<T>, s: seq<T>, i: int)
    requires OccursAt(x + (w + y), s, i) && i < |x| < i + |s|
    ensures RunsInto(s, w, |x| - i)
  {
    var k := |x| - i;
    assert s[k..] == (x + (w + y))[|x|..i + |s|] == (w + y)[..|s| - k];
    PrefixesCompare(s[k..], w, w + y);
  }

  /** What occurs around such a piece occurs before it, in it or behind it. */
  lemma OccursAround<T>(x: seq<T>, w: seq<T>, y: seq<T>, s: seq<T>)
    requires s != [] && Contains(x + (w + y), s)
    ensures Contains(x, s) || Contains(w, s) || Contains(y, s) || Straddles(s, w)
  {
    var i :| OccursAt(x + (w + y), s, i);
    if i >= |x| {
      OccursBehind(x, w + y, s, i);
      if i - |x| < |w| {
        NotAcrossMarker(w, y, s, i - |x|);
      } else {
        OccursBehind(w, y, s, i - |x|);
      }
    } else if i + |s| <= |x| {
      OccursBefore(x, w + y, s, i);
    } else {
      OccursOver(x, w, y, s, i);
    }
  }

  // ---------------------------------------------------------------------
  // Replacement goes piece by piece
  // ---------------------------------------------------------------------

  lemma CutBehind<T>(w: seq<T>, y: seq<T>, k: nat)
    requires k <= |w|
    ensures (w + y)[k..] == w[k..] + y
  {}

  /** A match at the front of `w + y` lies in `w`. */
  lemma MatchStaysIn<T>(w: seq<T>, y: seq<T>, pat: seq<T>)
    requires w != [] && pat <= w + y
    ensures pat <= w || StartsInside(pat, w)
  {
    PrefixesCompare(pat, w, w + y);
    if !(pat <= w) {
      assert w[0..] == w && w < pat;
    }
  }

  lemma Associates<T>(a: seq<T>, b: seq<T>, c: seq<T>)
    ensures a + (b + c) == (a + b) + c
  {}

  /** A match at the front of `w` is replaced, then the rest of `w + z` follows. */
  lemma ReplaceStep<T>(w: seq<T>, z: seq<T>, pat: seq<T>, m: seq<T>, rest: seq<T>)
    requires pat != [] && w != [] && (pat <= w || !(pat <= w + z))
    requires var k := if pat <= w then |pat| else 1;
             Replace((w + z)[k..], pat, m) == Replace(w[k..], pat, m) + rest
    ensures Replace(w + z, pat, m) == Replace(w, pat, m) + rest
  {
    var k := if pat <= w then |pat| else 1;
    Associates(if pat <= w then m else [w[0]], Replace(w[k..], pat, m), rest);
  }

  lemma {:induction false} ReplaceThrough<T>(w: seq<T>, y: seq<T>, pat: seq<T>, m: seq<T>)
    requires pat != []
    ensures Replace(w + y, pat, m) == Replace(w, pat, m) + Replace(y, pat, m) || StartsInside(pat, w)
    decreases |w|
  {
    if w == [] {
      assert w + y == y && [] + Replace(y, pat, m) == Replace(y, pat, m);
    } else if pat <= w + y && !(pat <= w) {
      MatchStaysIn(w, y, pat);
    } else {
      var k := if pat <= w then |pat| else 1;
      CutBehind(w, y, k);
      ReplaceThrough(w[k..], y, pat, m);
      if StartsInside(pat, w[k..]) {
        TailStraddles(pat, w, k);
      } else {
        ReplaceStep(w, y, pat, m, Replace(y, pat, m));
      }
    }
  }

  /** A match at the front of `x + (w + y)` lies in `x` or runs into `w`. */
  lemma MatchStaysBefore<T>(x: seq<T>, w: seq<T>, y: seq<T>, pat: seq<T>)
    requires x != [] && pat <= x + (w + y)
    ensures pat <= x || RunsInto(pat, w, |x|)
  {
    PrefixOfJoin(pat, x, w + y);
    if |pat| > |x| {
      PrefixesCompare(pat[|x|..], w, w + y);
    }
  }

  lemma {:induction false} ReplaceUpTo<T>(x: seq<T>, w: seq<T>, y: seq<T>, pat: seq<T>, m: seq<T>)
    requires pat != []
    ensures Replace(x + (w + y), pat, m) == Replace(x, pat, m) + Replace(w + y, pat, m) || Straddles(pat, w)
    decreases |x|
  {
    if x == [] {
      assert x + (w + y) == w + y && [] + Replace(w + y, pat, m) == Replace(w + y, pat, m);
    } else if pat <= x + (w + y) && !(pat <= x) {
      MatchStaysBefore(x, w, y, pat);
    } else {
      var k := if pat <= x then |pat| else 1;
      CutBehind(x, w + y, k);
      ReplaceUpTo(x[k..], w, y, pat, m);
      if !Straddles(pat, w) {
        ReplaceStep(x, w + y, pat, m, Replace(w + y, pat, m));
      }
    }
  }

  lemma ReplaceAround<T>(x: seq<T>, w: seq<T>, y: seq<T>, pat: seq<T>, m: seq<T>)
    requires pat != [] && !Straddles(pat, w)
    ensures Replace(x + (w + y), pat, m) == Replace(x, pat, m) + (Replace(w, pat, m) + Replace(y, pat, m))
  {
    ReplaceUpTo(x, w, y, pat, m);
    ReplaceThrough(w, y, pat, m);
  }

  // ---------------------------------------------------------------------
  // Replacement keeps such a piece such
  // ---------------------------------------------------------------------

  /** An output along which a string runs is the input, or the string straddles the
      marker. */
  lemma {:induction false} NothingReplaced<T>(v: seq<T>, pat: seq<T>, m: seq<T>, s: seq<T>, k: nat)
    requires pat != [] && m != [] && 0 < k <= |s| && Replace(v, pat, m) <= s[k..]
    ensures Replace(v, pat, m) == v || Straddles(s, m)
    decreases |v|
  {
    if v != [] {
      if pat <= v {
        assert m <= s[k..];
        assert RunsInto(s, m, k);
      } else {
        var rest := Replace(v[1..], pat, m);
        assert v == [v[0]] + v[1..];
        assert rest <= s[k + 1..] by {
          assert rest == ([v[0]] + rest)[1..] && s[k..][1..] == s[k + 1..];
        }
        NothingReplaced(v[1..], pat, m, s, k + 1);
      }
    }
  }

  /** An end of the output that begins a string was an end of the input. */
  lemma {:induction false} EndKept<T>(w: seq<T>, pat: seq<T>, m: seq<T>, s: seq<T>, j: nat)
    requires pat != [] && m != [] && j < |Replace(w, pat, m)| && Replace(w, pat, m)[j..] < s
    ensures StartsInside(s, w) || Straddles(s, m)
    decreases |w|
  {
    var out := Replace(w, pat, m);
    if pat <= w {
      var rest := Replace(w[|pat|..], pat, m);
      if j < |m| {
        assert m[j..] <= out[j..];
        assert m[j..] < s;
      } else {
        assert out[j..] == rest[j - |m|..];
        EndKept(w[|pat|..], pat, m, s, j - |m|);
        if StartsInside(s, w[|pat|..]) {
          TailStraddles(s, w, |pat|);
        }
      }
    } else {
      var rest := Replace(w[1..], pat, m);
      if j > 0 {
        assert out[j..] == rest[j - 1..];
        EndKept(w[1..], pat, m, s, j - 1);
        if StartsInside(s, w[1..]) {
          TailStraddles(s, w, 1);
        }
      } else {
        assert out[0..] == out && w == [w[0]] + w[1..];
        assert rest <= s[1..];
        NothingReplaced(w[1..], pat, m, s, 1);
        assert out == w ==> w[0..] < s;
      }
    }
  }

  lemma StraddlesReplaced<T>(w: seq<T>, pat: seq<T>, m: seq<T>, s: seq<T>)
    requires pat != [] && m != [] && Straddles(s, Replace(w, pat, m))
    ensures Straddles(s, w) || Straddles(s, m)
  {
    var out := Replace(w, pat, m);
    if StartsInside(s, out) {
      var j :| 0 <= j < |out| && out[j..] < s;
      EndKept(w, pat, m, s, j);
    } else {
      var k :| RunsInto(s, out, k);
      if s[k..] <= out {
        EndWasThere(w, pat, m, s, k);
        assert s[k..] <= w ==> RunsInto(s, w, k);
      } else {
        NothingReplaced(w, pat, m, s, k);
        assert out == w ==> RunsInto(s, w, k);
      }
    }
  }

  // ---------------------------------------------------------------------
  // The rules from one of them on
  // ---------------------------------------------------------------------

  /** No secret of the list straddles the piece. */
  ghost predicate Inert<T>(w: seq<T>, rules: seq<Rule<T>>) {
    forall i :: 0 <= i < |rules| && rules[i].secret != [] ==> !Straddles(rules[i].secret, w)
  }

  ghost predicate InertMarkers<T>(rules: seq<Rule<T>>) {
    forall k :: 0 <= k < |rules| && rules[k].secret != [] ==> rules[k].marker != [] && Inert(rules[k].marker, rules)
  }

  /** The text after the rules from `i` on. */
  function RedactedFrom<T(==)>(text: seq<T>, rules: seq<Rule<T>>, i: nat): seq<T>
    requires i <= |rules|
    decreases |rules| - i
  {
    if i == |rules| then text else RedactedFrom(ApplyRule(text, rules[i]), rules, i + 1)
  }

  lemma {:induction false} FromOnward<T>(text: seq<T>, rules: seq<Rule<T>>, i: nat)
    requires i <= |rules|
    ensures RedactedFrom(RedactedBy(text, rules, i), rules, i) == RedactedBy(text, rules, |rules|)
    decreases |rules| - i
  {
    if i < |rules| {
      FromOnward(text, rules, i + 1);
    }
  }

  lemma ApplyAround<T>(x: seq<T>, w: seq<T>, y: seq<T>, rules: seq<Rule<T>>, i: nat)
    requires i < |rules| && Inert(w, rules)
    ensures ApplyRule(x + (w + y), rules[i]) == ApplyRule(x, rules[i]) + (ApplyRule(w, rules[i]) + ApplyRule(y, rules[i]))
  {
    if rules[i].secret != [] {
      ReplaceAround(x, w, y, rules[i].secret, rules[i].marker);
    }
  }

  lemma ApplyInert<T>(w: seq<T>, rules: seq<Rule<T>>, i: nat)
    requires i < |rules| && Inert(w, rules) && InertMarkers(rules)
    ensures Inert(ApplyRule(w, rules[i]), rules)
  {
    var r := rules[i];
    if r.secret != [] {
      forall j | 0 <= j < |rules| && rules[j].secret != [] ensures !Straddles(rules[j].secret, Replace(w, r.secret, r.marker)) {
        if Straddles(rules[j].secret, Replace(w, r.secret, r.marker)) {
          StraddlesReplaced(w, r.secret, r.marker, rules[j].secret);
        }
      }
    }
  }

  lemma {:induction false} FromAround<T>(x: seq<T>, w: seq<T>, y: seq<T>, rules: seq<Rule<T>>, i: nat)
    requires i <= |rules| && Inert(w, rules) && InertMarkers(rules)
    ensures RedactedFrom(x + (w + y), rules, i)
         == RedactedFrom(x, rules, i) + (RedactedFrom(w, rules, i) + RedactedFrom(y, rules, i))
    ensures Inert(RedactedFrom(w, rules, i), rules)
    decreases |rules| - i
  {
    if i < |rules| {
      ApplyAround(x, w, y, rules, i);
      ApplyInert(w, rules, i);
      FromAround(ApplyRule(x, rules[i]), ApplyRule(w, rules[i]), ApplyRule(y, rules[i]), rules, i + 1);
    }
  }

  lemma CleanAround<T>(x: seq<T>, w: seq<T>, y: seq<T>, rules: seq<Rule<T>>)
    requires Inert(w, rules)
    requires CleanOf(x, rules, |rules|) && CleanOf(w, rules, |rules|) && CleanOf(y, rules, |rules|)
    ensures CleanOf(x + (w + y), rules, |rules|)
  {
    forall j | 0 <= j < |rules| && rules[j].secret != [] ensures !Contains(x + (w + y), rules[j].secret) {
      if Contains(x + (w + y), rules[j].secret) {
        OccursAround(x, w, y, rules[j].secret);
      }
    }
  }

  // ---------------------------------------------------------------------
  // The exact condition
  // ---------------------------------------------------------------------

  /** If the rule can be the first to match, that is its secret contains no earlier
      one, then its marker comes out clean of the rules behind it. */
  ghost predicate MarkerHolds<T>(rules: seq<Rule<T>>, i: nat)
    requires i < |rules|
  {
    rules[i].secret != [] && CleanOf(rules[i].secret, rules, i) ==>
      CleanOf(RedactedFrom(rules[i].marker, rules, i + 1), rules, |rules|)
  }

  ghost predicate CompleteOn<T>(text: seq<T>, rules: seq<Rule<T>>) {
    CleanOf(RedactedBy(text, rules, |rules|), rules, |rules|)
  }

  lemma PartIsClean<T>(text: seq<T>, part: seq<T>, rules: seq<Rule<T>>, n: nat)
    requires n <= |rules| && CleanOf(text, rules, n) && Contains(text, part)
    ensures CleanOf(part, rules, n)
  {
    forall j | 0 <= j < n && rules[j].secret != [] ensures !Contains(part, rules[j].secret) {
      if Contains(part, rules[j].secret) {
        ContainsTransitive(text, part, rules[j].secret);
      }
    }
  }

  lemma Parts<T>(x: seq<T>, s: seq<T>, y: seq<T>)
    ensures var t := x + (s + y); Contains(t, x) && Contains(t, s) && Contains(t, y)
  {
    var t := x + (s + y);
    assert OccursAt(t, x, 0) && OccursAt(t, s, |x|) && OccursAt(t, y, |x| + |s|);
  }

  lemma NotBeforeFirst<T>(front: seq<T>, s: seq<T>, tail: seq<T>)
    requires s != [] && FirstAt(front + (s + tail), s, |front|)
    ensures !Contains(front, s)
  {
    if i :| OccursAt(front, s, i) {
      assert (front + (s + tail))[i..i + |s|] == front[i..i + |s|];
      assert OccursAt(front + (s + tail), s, i);
    }
  }

  lemma PiecesAreClean<T>(front: seq<T>, tail: seq<T>, rules: seq<Rule<T>>, i: nat)
    requires i < |rules| && rules[i].secret != []
    requires var text := front + (rules[i].secret + tail);
             CleanOf(text, rules, i) && FirstAt(text, rules[i].secret, |front|)
    ensures CleanOf(front, rules, i + 1) && CleanOf(rules[i].secret, rules, i) && CleanOf(tail, rules, i)
  {
    var s := rules[i].secret;
    Parts(front, s, tail);
    PartIsClean(front + (s + tail), front, rules, i);
    PartIsClean(front + (s + tail), s, rules, i);
    PartIsClean(front + (s + tail), tail, rules, i);
    NotBeforeFirst(front, s, tail);
  }

  /** Around the first match: if the marker and what is before and behind it come out
      clean, so does the whole text. */
  lemma JoinAtMarker<T>(front: seq<T>, tail: seq<T>, rules: seq<Rule<T>>, i: nat)
    requires i < |rules| && InertMarkers(rules) && rules[i].secret != []
    requires FirstAt(front + (rules[i].secret + tail), rules[i].secret, |front|)
    requires CleanOf(RedactedFrom(front, rules, i + 1), rules, |rules|)
    requires CleanOf(RedactedFrom(rules[i].marker, rules, i + 1), rules, |rules|)
    requires CleanOf(RedactedFrom(tail, rules, i), rules, |rules|)
    ensures CleanOf(RedactedFrom(front + (rules[i].secret + tail), rules, i), rules, |rules|)
  {
    var m, rest := rules[i].marker, ApplyRule(tail, rules[i]);
    ReplaceAtFirst(front, rules[i].secret, tail, m);
    FromAround(front, m, rest, rules, i + 1);
    CleanAround(RedactedFrom(front, rules, i + 1), RedactedFrom(m, rules, i + 1), RedactedFrom(rest, rules, i + 1), rules);
  }

  /** A text without the secrets before `i` comes out clean of the rules from `i` on. */
  lemma {:induction false} HoldsFrom<T>(text: seq<T>, rules: seq<Rule<T>>, i: nat)
    requires i <= |rules| && InertMarkers(rules) && CleanOf(text, rules, i)
    requires forall k: nat :: k < |rules| ==> MarkerHolds(rules, k)
    ensures CleanOf(RedactedFrom(text, rules, i), rules, |rules|)
    decreases |rules| - i, |text|
  {
    if i < |rules| {
      var s := rules[i].secret;
      if s == [] {
        HoldsFrom(text, rules, i + 1);
      } else if !Contains(text, s) {
        ReplaceAbsent(text, s, rules[i].marker);
        HoldsFrom(text, rules, i + 1);
      } else {
        var p := FirstMatch(text, s);
        CutAtMatch(text, s, p);
        var front, tail := text[..p], text[p + |s|..];
        PiecesAreClean(front, tail, rules, i);
        HoldsFrom(front, rules, i + 1);
        HoldsFrom(tail, rules, i);
        assert MarkerHolds(rules, i);
        JoinAtMarker(front, tail, rules, i);
      }
    }
  }

  lemma {:induction false} CleanStays<T>(text: seq<T>, rules: seq<Rule<T>>, i: nat)
    requires i <= |rules| && CleanOf(text, rules, |rules|)
    ensures RedactedFrom(text, rules, i) == text
    decreases |rules| - i
  {
    if i < |rules| {
      if rules[i].secret != [] {
        ReplaceAbsent(text, rules[i].secret, rules[i].marker);
      }
      CleanStays(text, rules, i + 1);
    }
  }

  /** A marker that does not hold leaks from the secret it replaces; here secrets and
      markers may be any. */
  lemma MarkerLeaks<T>(rules: seq<Rule<T>>, i: nat)
    requires i < |rules| && !MarkerHolds(rules, i)
    ensures !CompleteOn(rules[i].secret, rules)
  {
    var s, m := rules[i].secret, rules[i].marker;
    CleanIsFixed(s, rules, i);
    ReplaceOnce([], s, [], m);
    assert [] + (s + []) == s && [] + (m + []) == m;
    FromOnward(s, rules, i + 1);
    assert RedactedBy(s, rules, i + 1) == m;
  }

  /** A list whose secrets straddle none of its markers redacts every text completely
      if and only if each marker whose rule can match first comes out clean of the
      rules behind it. */
  lemma RulesCompleteExactlyWhen<T(!new)>(rules: seq<Rule<T>>)
    requires InertMarkers(rules)
    ensures (forall text :: CompleteOn(text, rules)) <==> (forall i: nat :: i < |rules| ==> MarkerHolds(rules, i))
  {
    if forall i: nat :: i < |rules| ==> MarkerHolds(rules, i) {
      forall text ensures CompleteOn(text, rules) {
        HoldsFrom(text, rules, 0);
        FromOnward(text, rules, 0);
        assert RedactedBy(text, rules, 0) == text;
      }
    } else {
      var i: nat :| i < |rules| && !MarkerHolds(rules, i);
      MarkerLeaks(rules, i);
    }
  }
}
