/**
 Idempotency keys.

 The services build keys by formatting strings. The rest of the project uses the structured
 `Key`; `RenderInjective` shows that nothing is lost, because distinct structured keys format to
 distinct strings whatever text the caller supplies.
 */
module Keys {
  datatype Key =
    | GrantKey(event: string)
    | ReverseKey(event: string)
    | HoldKey(job: string)
    | DebitKey(job: string)
    | RefundKey(job: string)
    | GuestKey(user: string)
    | AdminKey(stamp: string)
    | BootstrapKey(stamp: string)

  function Prefix(k: Key): string {
    match k
    case GrantKey(_) => "grant:"
    case ReverseKey(_) => "reverse:"
    case HoldKey(_) => "hold:"
    case DebitKey(_) => "debit:"
    case RefundKey(_) => "refund:"
    case GuestKey(_) => "guest:"
    case AdminKey(_) => "admin:"
    case BootstrapKey(_) => "bootstrap:"
  }

  function Subject(k: Key): string {
    match k
    case GrantKey(e) => e
    case ReverseKey(e) => e
    case HoldKey(j) => j
    case DebitKey(j) => j
    case RefundKey(j) => j
    case GuestKey(u) => u
    case AdminKey(s) => s
    case BootstrapKey(s) => s
  }

  function Render(k: Key): string { Prefix(k) + Subject(k) }

  lemma RenderInjective(a: Key, b: Key)
    requires Render(a) == Render(b)
    ensures a == b
  {
    var s := Render(a);
    assert s[..3] == Prefix(a)[..3] && s[..3] == Prefix(b)[..3];
    assert Prefix(a)[2] == s[2] == Prefix(b)[2] && Prefix(a)[0] == s[0] == Prefix(b)[0];
    assert Prefix(a)[1] == s[1] == Prefix(b)[1];
    assert Prefix(a) == Prefix(b);
    assert Subject(a) == s[|Prefix(a)|..] == Subject(b);
  }

  // ---------------------------------------------------------------------------------------------
  // Keys of the items of an avatar pack: "pack:{pack}:{slug}:{variant}"
  // ---------------------------------------------------------------------------------------------

  function Digit(n: nat): char
    requires n < 10
  {
    "0123456789"[n]
  }

  function Decimal(n: nat): (s: string)
    ensures s != [] && ':' !in s
  {
    if n < 10 then [Digit(n)] else Decimal(n / 10) + [Digit(n % 10)]
  }

  lemma {:induction false} DecimalInjective(m: nat, n: nat)
    requires Decimal(m) == Decimal(n)
    ensures m == n
  {
    var s := Decimal(m);
    assert s[|s| - 1] == Digit(m % 10) == Digit(n % 10);
    if m >= 10 && n >= 10 {
      assert Decimal(m / 10) == s[..|s| - 1] == Decimal(n / 10);
      DecimalInjective(m / 10, n / 10);
    }
  }

  function PackItemKey(pack: string, slug: string, variant: nat): string {
    "pack:" + pack + ":" + slug + ":" + Decimal(variant)
  }

  /** The text before and after a last colon is determined by the whole text. */
  lemma {:induction false} SplitAtLastColon(a: string, x: string, b: string, y: string)
    requires a + ":" + x == b + ":" + y
    requires ':' !in x && ':' !in y
    ensures a == b && x == y
  {
    var s := a + ":" + x;
    assert s[|a|] == ':' && s[|b|] == ':';
    assert forall i :: |a| < i < |s| ==> s[i] == x[i - |a| - 1];
    assert forall i :: |b| < i < |s| ==> s[i] == y[i - |b| - 1];
    assert a == s[..|a|] == b;
    assert x == s[|a| + 1..] == y;
  }

  /** Within one pack the item key identifies the item, even when slugs contain colons. */
  lemma PackItemKeyInjective(pack: string, slug1: string, v1: nat, slug2: string, v2: nat)
    requires PackItemKey(pack, slug1, v1) == PackItemKey(pack, slug2, v2)
    ensures slug1 == slug2 && v1 == v2
  {
    var head := "pack:" + pack + ":";
    SplitAtLastColon(head + slug1, Decimal(v1), head + slug2, Decimal(v2));
    assert slug1 == (head + slug1)[|head|..] == (head + slug2)[|head|..] == slug2;
    DecimalInjective(v1, v2);
  }

  /** Across packs, the keys of two items are the same exactly when the variant is, and pack id and
      slug read the same with their colon between them. */
  lemma PackItemKeysEqualIff(p1: string, s1: string, v1: nat, p2: string, s2: string, v2: nat)
    ensures PackItemKey(p1, s1, v1) == PackItemKey(p2, s2, v2) <==> v1 == v2 && p1 + ":" + s1 == p2 + ":" + s2
  {
    var h1, h2 := "pack:" + p1 + ":" + s1, "pack:" + p2 + ":" + s2;
    assert h1 == "pack:" + (p1 + ":" + s1) && h2 == "pack:" + (p2 + ":" + s2);
    if PackItemKey(p1, s1, v1) == PackItemKey(p2, s2, v2) {
      SplitAtLastColon(h1, Decimal(v1), h2, Decimal(v2));
      DecimalInjective(v1, v2);
      assert p1 + ":" + s1 == h1[5..] == h2[5..] == p2 + ":" + s2;
    }
  }

  /** So for style slugs without a colon the key identifies pack, style and variant, whatever text
      the caller sent as the pack id. */
  lemma PackItemKeyInjectiveAcrossPacks(p1: string, s1: string, v1: nat, p2: string, s2: string, v2: nat)
    requires ':' !in s1 && ':' !in s2
    requires PackItemKey(p1, s1, v1) == PackItemKey(p2, s2, v2)
    ensures p1 == p2 && s1 == s2 && v1 == v2
  {
    PackItemKeysEqualIff(p1, s1, v1, p2, s2, v2);
    SplitAtLastColon(p1, s1, p2, s2);
  }

  /** A slug with a colon always clashes with an item of another pack. */
  lemma PackItemKeyClashAcrossPacks(pack: string, a: string, b: string, v: nat)
    ensures PackItemKey(pack, a + ":" + b, v) == PackItemKey(pack + ":" + a, b, v)
  {
    assert pack + ":" + (a + ":" + b) == (pack + ":" + a) + ":" + b;
    PackItemKeysEqualIff(pack, a + ":" + b, v, pack + ":" + a, b, v);
  }
}
