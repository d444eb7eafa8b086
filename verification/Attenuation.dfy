/**
 The authority mask: nine action bits and one allow bit, met by integer AND.
 */
module Attenuation {

  const ACTIONS: seq<string> := ["create", "read", "update", "delete", "evict", "invoke", "add", "share", "admin"]

  type Mask = bv10

  const ALLOW: Mask := 0x200
  const TOP: Mask := 0x3FF
  const DENY: Mask := 0

  function Bit(i: nat): Mask
    requires i < 9
  {
    match i
    case 0 => 0x001 case 1 => 0x002 case 2 => 0x004 case 3 => 0x008 case 4 => 0x010
    case 5 => 0x020 case 6 => 0x040 case 7 => 0x080 case _ => 0x100
  }

  /** The position of an action name, if the build knows it. */
  function IndexOf(action: string): (i: nat)
    ensures i <= 9
    ensures i < 9 ==> ACTIONS[i] == action
    ensures i == 9 ==> action !in ACTIONS
  {
    if action == ACTIONS[0] then 0 else if action == ACTIONS[1] then 1 else if action == ACTIONS[2] then 2
    else if action == ACTIONS[3] then 3 else if action == ACTIONS[4] then 4 else if action == ACTIONS[5] then 5
    else if action == ACTIONS[6] then 6 else if action == ACTIONS[7] then 7 else if action == ACTIONS[8] then 8
    else 9
  }

  predicate Has(m: Mask, bit: Mask) { m & bit != 0 }

  predicate IsAllow(m: Mask) { Has(m, ALLOW) }

  predicate Carries(m: Mask, action: string) {
    var i := IndexOf(action);
    i < 9 && Has(m, Bit(i))
  }

  predicate Allows(m: Mask, action: string) { IsAllow(m) && Carries(m, action) }

  /** The layout of the mask: the nine actions in this order from the lowest bit, then the effect. */
  lemma Layout(m: Mask)
    ensures Carries(m, "create") <==> m & 1 != 0
    ensures Carries(m, "read") <==> m & 2 != 0
    ensures Carries(m, "update") <==> m & 4 != 0
    ensures Carries(m, "delete") <==> m & 8 != 0
    ensures Carries(m, "evict") <==> m & 16 != 0
    ensures Carries(m, "invoke") <==> m & 32 != 0
    ensures Carries(m, "add") <==> m & 64 != 0
    ensures Carries(m, "share") <==> m & 128 != 0
    ensures Carries(m, "admin") <==> m & 256 != 0
    ensures IsAllow(m) <==> m & 512 != 0
  {
    hide IndexOf, Has, Carries, IsAllow;
    At(m, 0); At(m, 1); At(m, 2); At(m, 3); At(m, 4); At(m, 5); At(m, 6); At(m, 7); At(m, 8);
    AllowBit(m);
  }

  lemma AllowBit(m: Mask)
    ensures IsAllow(m) <==> m & 512 != 0
  {
  }

  lemma At(m: Mask, i: nat)
    requires i < 9
    ensures Carries(m, ACTIONS[i]) <==> m & Bit(i) != 0
  {
    hide IndexOf, Bit;
    var j := IndexOf(ACTIONS[i]);
    assert ACTIONS[i] in ACTIONS;
    Distinct(i, j);
  }

  /** No two action names are the same: they differ in their first letter or in their length. */
  lemma Distinct(i: nat, j: nat)
    requires i < 9 && j < 9 && ACTIONS[i] == ACTIONS[j]
    ensures i == j
  {
    assert Head(i) == ACTIONS[i][0] && Head(j) == ACTIONS[j][0] && |ACTIONS[6]| == 3 && |ACTIONS[8]| == 5;
  }

  ghost function Head(i: nat): char
    requires i < 9
  {
    match i
    case 0 => 'c' case 1 => 'r' case 2 => 'u' case 3 => 'd' case 4 => 'e' case 5 => 'i' case 7 => 's' case _ => 'a'
  }

  // ── the meet and its order ───────────────────────────────────────────────────

  function Meet(a: Mask, b: Mask): Mask { a & b }

  predicate Below(a: Mask, b: Mask) { a & b == a }

  lemma MeetAssoc(a: Mask, b: Mask, c: Mask)
    ensures Meet(Meet(a, b), c) == Meet(a, Meet(b, c))
  {
    AndAssoc(a, b, c);
  }

  lemma AndAssoc(a: bv10, b: bv10, c: bv10)
    ensures (a & b) & c == a & (b & c)
  {
  }

  lemma MeetUnits(a: Mask, b: Mask)
    ensures Meet(a, a) == a && Meet(a, b) == Meet(b, a)
    ensures Meet(TOP, a) == a && Meet(a, TOP) == a && Meet(DENY, a) == DENY
  {
  }

  lemma MeetIsLower(a: Mask, b: Mask)
    ensures Below(Meet(a, b), a) && Below(Meet(a, b), b)
  {
  }

  lemma MeetIsGreatest(a: Mask, b: Mask, c: Mask)
    requires Below(c, a) && Below(c, b)
    ensures Below(c, Meet(a, b))
  {
    calc {
      c & (a & b);
      (c & a) & b;
      c & b;
      c;
    }
  }

  /** The meet is the greatest lower bound, with TOP its unit and DENY its zero. */
  lemma MeetLaws(a: Mask, b: Mask, c: Mask)
    ensures Meet(a, a) == a && Meet(a, b) == Meet(b, a) && Meet(Meet(a, b), c) == Meet(a, Meet(b, c))
    ensures Meet(TOP, a) == a && Meet(DENY, a) == DENY
    ensures Below(Meet(a, b), a) && Below(Meet(a, b), b)
    ensures Below(c, a) && Below(c, b) ==> Below(c, Meet(a, b))
  {
    hide Meet, Below;
    MeetAssoc(a, b, c);
    MeetUnits(a, b);
    MeetIsLower(a, b);
    if Below(c, a) && Below(c, b) { MeetIsGreatest(a, b, c); }
  }

  lemma MeetHas(a: Mask, b: Mask, i: nat)
    requires i < 9
    ensures Has(Meet(a, b), Bit(i)) <==> Has(a, Bit(i)) && Has(b, Bit(i))
  {
  }

  lemma MeetHasAllow(a: Mask, b: Mask)
    ensures Has(Meet(a, b), ALLOW) <==> Has(a, ALLOW) && Has(b, ALLOW)
  {
  }

  /** The meet authorizes exactly what both sides authorize. */
  lemma MeetAllows(a: Mask, b: Mask, action: string)
    ensures Allows(Meet(a, b), action) <==> Allows(a, action) && Allows(b, action)
  {
    hide Meet, Bit, Has, IndexOf;
    MeetHasAllow(a, b);
    if IndexOf(action) < 9 { MeetHas(a, b, IndexOf(action)); }
  }

  lemma TopHas(i: nat)
    requires i < 9
    ensures Has(TOP, Bit(i)) && Has(TOP, ALLOW)
  {
  }

  lemma TopAllows(action: string)
    ensures Allows(TOP, action) <==> action in ACTIONS
  {
    hide Bit, Has, IndexOf;
    var i := IndexOf(action);
    TopHas(0);
    if i < 9 { TopHas(i); assert ACTIONS[i] in ACTIONS; }
  }

  ghost function ComposeOf(masks: seq<Mask>): Mask {
    if masks == [] then TOP else Meet(ComposeOf(masks[..|masks| - 1]), masks[|masks| - 1])
  }

  /** Fold the meet along a path. */
  method Compose(masks: seq<Mask>) returns (out: Mask)
    ensures out == ComposeOf(masks)
    ensures forall m :: m in masks ==> Below(out, m)
    ensures forall action :: Allows(out, action) <==> action in ACTIONS && forall m :: m in masks ==> Allows(m, action)
  {
    out := TOP;
    for i := 0 to |masks|
      invariant out == ComposeOf(masks[..i])
    {
      assert masks[..i + 1][..i] == masks[..i];
      out := Meet(out, masks[i]);
    }
    assert masks[..|masks|] == masks;
    ComposeBelow(masks);
    forall action ensures Allows(out, action) <==> action in ACTIONS && forall m :: m in masks ==> Allows(m, action) {
      ComposeAllows(masks, action);
    }
  }

  lemma {:induction false} ComposeBelow(masks: seq<Mask>)
    ensures forall m :: m in masks ==> Below(ComposeOf(masks), m)
  {
    if masks != [] {
      var front, last := masks[..|masks| - 1], masks[|masks| - 1];
      ComposeBelow(front);
      assert masks == front + [last];
      forall m | m in masks ensures Below(ComposeOf(masks), m) { BelowMeet(ComposeOf(front), last, m); }
    }
  }

  lemma BelowMeet(a: Mask, b: Mask, m: Mask)
    ensures Below(a, m) || b == m ==> Below(Meet(a, b), m)
  {
  }

  /** A composed mask authorizes an action exactly when every mask on the path does. */
  lemma {:induction false} ComposeAllows(masks: seq<Mask>, action: string)
    ensures Allows(ComposeOf(masks), action) <==> action in ACTIONS && forall m :: m in masks ==> Allows(m, action)
  {
    hide Allows, Meet;
    if masks == [] {
      TopAllows(action);
    } else {
      var front, last := masks[..|masks| - 1], masks[|masks| - 1];
      ComposeAllows(front, action);
      assert masks == front + [last];
      MeetAllows(ComposeOf(front), last, action);
    }
  }

  /** The composed authority of two paths in a row is the meet of theirs. */
  lemma {:induction false} ComposeConcat(p: seq<Mask>, q: seq<Mask>)
    ensures ComposeOf(p + q) == Meet(ComposeOf(p), ComposeOf(q))
    decreases |q|
  {
    hide Meet;
    if q == [] {
      assert p + q == p;
      MeetUnits(ComposeOf(p), TOP);
    } else {
      var front, last := q[..|q| - 1], q[|q| - 1];
      ComposeConcat(p, front);
      assert (p + q)[..|p + q| - 1] == p + front;
      MeetAssoc(ComposeOf(p), ComposeOf(front), last);
    }
  }

  // ── the codecs ───────────────────────────────────────────────────────────────

  /** The value of an `edge.propagate` column: absent, a list of names, or any other text. */
  datatype Column = Absent | Names(names: seq<string>) | Bare(text: string)

  function Adds(code: Mask, action: string): Mask {
    var i := IndexOf(action);
    if i < 9 then code | Bit(i) else code
  }

  ghost function OfNames(names: seq<string>, code: Mask): Mask {
    if names == [] then code else Adds(OfNames(names[..|names| - 1], code), names[|names| - 1])
  }

  lemma AddsCarries(code: Mask, name: string, action: string)
    ensures Carries(Adds(code, name), action) <==> Carries(code, action) || (name == action && action in ACTIONS)
    ensures IsAllow(Adds(code, name)) == IsAllow(code)
  {
    hide Bit, Has, IndexOf;
    var i, j := IndexOf(name), IndexOf(action);
    if j < 9 { assert ACTIONS[j] in ACTIONS; }
    if i < 9 && j < 9 { OrBit(code, i, j); SameIndex(name, action); }
    if i < 9 { OrAllow(code, i); }
  }

  lemma SameIndex(a: string, b: string)
    requires IndexOf(a) < 9 && IndexOf(b) < 9
    ensures a == b <==> IndexOf(a) == IndexOf(b)
  {
    hide IndexOf;
  }

  lemma OrBit(code: Mask, i: nat, j: nat)
    requires i < 9 && j < 9
    ensures Has(code | Bit(i), Bit(j)) <==> Has(code, Bit(j)) || i == j
  {
  }

  lemma OrAllow(code: Mask, i: nat)
    requires i < 9
    ensures Has(code | Bit(i), ALLOW) == Has(code, ALLOW)
  {
  }

  lemma {:induction false} NamesCarry(names: seq<string>, code: Mask, action: string)
    ensures Carries(OfNames(names, code), action) <==> Carries(code, action) || (action in names && action in ACTIONS)
    ensures IsAllow(OfNames(names, code)) == IsAllow(code)
  {
    hide Carries, IsAllow, Adds;
    if names != [] {
      var front, last := names[..|names| - 1], names[|names| - 1];
      NamesCarry(front, code, action);
      AddsCarries(OfNames(front, code), last, action);
      assert names == front + [last];
    }
  }

  /** A mask carrying exactly the named actions; an unknown name confers nothing. */
  method Of(names: seq<string>, allow: bool) returns (code: Mask)
    ensures forall action :: Carries(code, action) <==> action in names && action in ACTIONS
    ensures IsAllow(code) == allow
    ensures code == OfNames(names, if allow then ALLOW else 0)
  {
    code := if allow then ALLOW else 0;
    ghost var start := code;
    for i := 0 to |names|
      invariant code == OfNames(names[..i], start)
    {
      assert names[..i + 1][..i] == names[..i];
      code := Adds(code, names[i]);
    }
    assert names[..|names|] == names;
    forall action ensures Carries(code, action) <==> action in names && action in ACTIONS {
      NamesCarry(names, start, action);
      NoneCarried(start, action);
    }
    NamesCarry(names, start, "read");
  }

  lemma NoneCarried(start: Mask, action: string)
    requires start == ALLOW || start == 0
    ensures !Carries(start, action) && IsAllow(start) == (start == ALLOW)
  {
    hide IndexOf;
  }

  /** Does `needle` occur in `text`? */
  predicate Occurs(needle: string, text: string) {
    exists i :: 0 <= i <= |text| && needle <= text[i..]
  }

  lemma OccursReads(needle: string, text: string)
    ensures Occurs(needle, text) <==> exists before, after :: text == before + needle + after
  {
    if Occurs(needle, text) {
      var i :| 0 <= i <= |text| && needle <= text[i..];
      assert text == text[..i] + needle + text[i + |needle|..];
    }
    forall before, after | text == before + needle + after
      ensures Occurs(needle, text)
    {
      assert text[|before|..] == needle + after;
    }
  }

  /** The column read through the mask says what the column itself says: absent lets every known
      action through, a list those it names, any other text those whose name occurs in it. */
  predicate Lets(c: Column, action: string) {
    action in ACTIONS &&
    match c
    case Absent => true
    case Names(names) => action in names
    case Bare(text) => Occurs(action, text)
  }

  /** The names of the actions among the first `n` that occur in a text. */
  ghost function Found(text: string, n: nat): seq<string>
    requires n <= 9
  {
    if n == 0 then [] else Found(text, n - 1) + if Occurs(ACTIONS[n - 1], text) then [ACTIONS[n - 1]] else []
  }

  lemma {:induction false} FoundIs(text: string, n: nat, action: string)
    requires n <= 9
    ensures action in Found(text, n) <==> action in ACTIONS[..n] && Occurs(action, text)
  {
    hide Occurs;
    if n > 0 {
      FoundIs(text, n - 1, action);
      assert ACTIONS[..n] == ACTIONS[..n - 1] + [ACTIONS[n - 1]];
    }
  }

  /** The mask of a column. */
  ghost function MaskOf(c: Column): Mask {
    match c
    case Absent => TOP
    case Names(names) => OfNames(names, ALLOW)
    case Bare(text) => OfNames(Found(text, 9), ALLOW)
  }

  lemma MaskLets(c: Column, action: string)
    ensures Allows(MaskOf(c), action) <==> Lets(c, action)
    ensures IsAllow(MaskOf(c))
  {
    hide IndexOf, Has, Bit, Occurs, Found;
    NoneCarried(ALLOW, action);
    TopHas(0);
    match c {
      case Absent => TopAllows(action);
      case Names(names) => NamesCarry(names, ALLOW, action);
      case Bare(text) =>
        NamesCarry(Found(text, 9), ALLOW, action);
        FoundIs(text, 9, action);
        assert ACTIONS[..9] == ACTIONS;
    }
  }

  method FromPropagate(c: Column) returns (m: Mask)
    ensures m == MaskOf(c) && IsAllow(m)
    ensures forall action :: Allows(m, action) <==> Lets(c, action)
  {
    hide IndexOf, Has, Bit, Allows, IsAllow, Lets, OfNames;
    match c {
      case Absent => m := TOP;
      case Names(names) => m := Of(names, true);
      case Bare(text) =>
        var found: seq<string> := [];
        for i := 0 to 9
          invariant found == Found(text, i)
        {
          if Occurs(ACTIONS[i], text) { found := found + [ACTIONS[i]]; }
        }
        m := Of(found, true);
    }
    MaskLets(c, "read");
    forall action ensures Allows(m, action) <==> Lets(c, action) { MaskLets(c, action); }
  }

  /** One test for the walk down and the walk up. */
  method Propagates(c: Column, action: string) returns (b: bool)
    ensures b == Lets(c, action)
  {
    var m := FromPropagate(c);
    b := Allows(m, action);
  }

  /** The names a mask carries, in order. */
  method NamesOf(m: Mask) returns (names: seq<string>)
    ensures forall a :: a in names <==> a in ACTIONS && Carries(m, a)
  {
    hide IndexOf, Has, Bit;
    names := [];
    for i := 0 to 9
      invariant forall a :: a in names <==> a in ACTIONS[..i] && Carries(m, a)
    {
      KnownIndex(i);
      assert ACTIONS[..i + 1] == ACTIONS[..i] + [ACTIONS[i]];
      if Has(m, Bit(i)) { names := names + [ACTIONS[i]]; }
    }
    assert ACTIONS[..9] == ACTIONS;
  }

  lemma KnownIndex(i: nat)
    requires i < 9
    ensures IndexOf(ACTIONS[i]) == i
  {
  }

  lemma SameMask(a: Mask, b: Mask)
    requires IsAllow(a) == IsAllow(b) && forall action :: action in ACTIONS ==> Carries(a, action) == Carries(b, action)
    ensures a == b
  {
    hide IndexOf, Has, Bit;
    forall i: nat | i < 9 ensures Has(a, Bit(i)) == Has(b, Bit(i)) {
      KnownIndex(i);
      assert ACTIONS[i] in ACTIONS && Carries(a, ACTIONS[i]) == Carries(b, ACTIONS[i]);
    }
    SameBits(a, b);
  }

  lemma SameBits(a: Mask, b: Mask)
    requires Has(a, ALLOW) == Has(b, ALLOW)
    requires forall i: nat :: i < 9 ==> Has(a, Bit(i)) == Has(b, Bit(i))
    ensures a == b
  {
    assert Has(a, Bit(0)) == Has(b, Bit(0)) && Has(a, Bit(1)) == Has(b, Bit(1)) && Has(a, Bit(2)) == Has(b, Bit(2));
    assert Has(a, Bit(3)) == Has(b, Bit(3)) && Has(a, Bit(4)) == Has(b, Bit(4)) && Has(a, Bit(5)) == Has(b, Bit(5));
    assert Has(a, Bit(6)) == Has(b, Bit(6)) && Has(a, Bit(7)) == Has(b, Bit(7)) && Has(a, Bit(8)) == Has(b, Bit(8));
  }

  /** Encoding an allow mask into the column and decoding it gives the mask back. */
  method ColumnRoundTrip(m: Mask) returns (c: Column, back: Mask)
    requires IsAllow(m)
    ensures back == m && (c.Absent? <==> m == TOP)
  {
    hide Allows, Carries, IsAllow;
    if m == TOP {
      c := Absent;
    } else {
      var names := NamesOf(m);
      c := Names(names);
    }
    back := FromPropagate(c);
    forall action | action in ACTIONS ensures Carries(back, action) == Carries(m, action) {
      AllowMask(back, action);
      AllowMask(m, action);
      if m == TOP { TopAllows(action); }
    }
    SameMask(back, m);
  }

  lemma AllowMask(m: Mask, action: string)
    requires IsAllow(m)
    ensures Allows(m, action) == Carries(m, action)
  {
  }
}
