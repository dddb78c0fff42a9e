/** Decimal numbers and separators in rendered keys. */
module Rendering {

  /** Decimal digits of `n`, written with the ten symbols of `alphabet`. */
  function Render<T>(alphabet: seq<T>, n: nat): (s: seq<T>)
    requires |alphabet| == 10
    ensures s != [] && forall c :: c in s ==> c in alphabet
  {
    if n < 10 then [alphabet[n]] else Render(alphabet, n / 10) + [alphabet[n % 10]]
  }

  /** Decimal notation: one digit for a number below ten, and appending a digit
      multiplies by ten and adds. */
  lemma RenderIsDecimal<T>(alphabet: seq<T>, n: nat, d: nat)
    requires |alphabet| == 10 && d < 10
    ensures Render(alphabet, d) == [alphabet[d]]
    ensures n > 0 ==> Render(alphabet, 10 * n + d) == Render(alphabet, n) + [alphabet[d]]
  {
    assert (10 * n + d) / 10 == n && (10 * n + d) % 10 == d;
  }

  ghost predicate Distinct<T>(alphabet: seq<T>) {
    forall i, j :: 0 <= i < j < |alphabet| ==> alphabet[i] != alphabet[j]
  }

  lemma {:induction false} RenderInjective<T>(alphabet: seq<T>, m: nat, n: nat)
    requires |alphabet| == 10 && Distinct(alphabet)
    requires Render(alphabet, m) == Render(alphabet, n)
    ensures m == n
  {
    var s := Render(alphabet, m);
    assert s[|s| - 1] == alphabet[m % 10] == alphabet[n % 10];
    if m >= 10 && n >= 10 {
      assert s[..|s| - 1] == Render(alphabet, m / 10) == Render(alphabet, n / 10);
      RenderInjective(alphabet, m / 10, n / 10);
    }
  }

  /** The last separator determines both sides of it. */
  lemma SplitAtLast<T>(a: seq<T>, b: seq<T>, c: seq<T>, d: seq<T>, sep: T)
    requires a + [sep] + b == c + [sep] + d
    requires sep !in b && sep !in d
    ensures a == c && b == d
  {
    var s := a + [sep] + b;
    assert s[|a|] == sep && s[|c|] == sep;
    assert forall k :: |a| < k < |s| ==> s[k] == b[k - |a| - 1];
    assert forall k :: |c| < k < |s| ==> s[k] == d[k - |c| - 1];
    assert |a| == |c|;
    assert s[..|a|] == a && s[..|c|] == c;
    assert s[|a| + 1..] == b && s[|c| + 1..] == d;
  }
}
