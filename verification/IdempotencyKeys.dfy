/** The deduplication key `target:action:vN` of a convergence action. */
module IdempotencyKeys {
  import opened Rendering

  datatype JobAction = Provision | Update | Rollout | Verify | Delete

  function ActionName(a: JobAction): string {
    match a
    case Provision => "provision"
    case Update => "update"
    case Rollout => "rollout"
    case Verify => "verify"
    case Delete => "delete"
  }

  const DIGITS: string := "0123456789"

  function Decimal(n: nat): string {
    Render(DIGITS, n)
  }

  /** `IdempotencyKey::new`. */
  function Key(target: string, action: JobAction, version: nat): string {
    target + ":" + ActionName(action) + ":v" + Decimal(version)
  }

  // ---------------------------------------------------------------------
  // Injectivity
  // ---------------------------------------------------------------------

  lemma ActionNameInjective(a: JobAction, b: JobAction)
    requires ActionName(a) == ActionName(b)
    ensures a == b
  {
    assert ActionName(a)[0] == ActionName(b)[0];
  }

  lemma KeyInTwoHalves(target: string, action: JobAction, version: nat)
    ensures Key(target, action, version) == (target + ":" + ActionName(action)) + ":" + ("v" + Decimal(version))
    ensures ':' !in ActionName(action) && ':' !in "v" + Decimal(version)
  {}

  /** Two actions share a key only if they are the same action on the same target
      at the same version, whatever characters the targets hold. */
  lemma KeyInjective(t1: string, a1: JobAction, v1: nat, t2: string, a2: JobAction, v2: nat)
    requires Key(t1, a1, v1) == Key(t2, a2, v2)
    ensures t1 == t2 && a1 == a2 && v1 == v2
  {
    KeyInTwoHalves(t1, a1, v1);
    KeyInTwoHalves(t2, a2, v2);
    var d1, d2 := "v" + Decimal(v1), "v" + Decimal(v2);
    SplitAtLast(t1 + ":" + ActionName(a1), d1, t2 + ":" + ActionName(a2), d2, ':');
    assert Decimal(v1) == d1[1..] && Decimal(v2) == d2[1..];
    RenderInjective(DIGITS, v1, v2);
    SplitAtLast(t1, ActionName(a1), t2, ActionName(a2), ':');
    ActionNameInjective(a1, a2);
  }

  /** The form of the keys, by example. */
  lemma KeyExamples()
    ensures Key("db:1", Provision, 12) == "db:1:provision:v12"
    ensures Key("a", Update, 0) == "a:update:v0" && Key("a", Rollout, 1) == "a:rollout:v1"
    ensures Key("a", Verify, 1) == "a:verify:v1" && Key("a", Delete, 7) == "a:delete:v7"
  {
    RenderIsDecimal(DIGITS, 1, 2);
    RenderIsDecimal(DIGITS, 0, 0);
    RenderIsDecimal(DIGITS, 0, 1);
    RenderIsDecimal(DIGITS, 0, 7);
    assert Decimal(12) == "1" + "2" == "12";
  }
}
