/**
 * The shape of the stream ids the interceptor generates: the version-4 UUID
 * template `xxxxxxxx-xxxx-4xxx-yxxx-xxxxxxxxxxxx`, where each `x` becomes a
 * random hex digit and `y` one of `8`, `9`, `a`, `b` (the variant bits `10`,
 * section 4.1.1 of RFC 4122). The random nibbles are inputs here.
 */
module Uuid {

  type Nibble = x: int | 0 <= x < 16

  /** `xxxxxxxx-xxxx-4xxx-yxxx-xxxxxxxxxxxx`. */
  const Template := Xs(8) + "-" + Xs(4) + "-4" + Xs(3) + "-y" + Xs(3) + "-" + Xs(12)

  /** `v.toString(16)`: the lower-case hex digit of `v`. */
  function HexChar(v: Nibble): (c: char)
    ensures IsLowerHex(c)
    ensures c == "0123456789abcdef"[v]
  {
    if v < 10 then '0' + v as char else 'a' + (v - 10) as char
  }

  predicate IsLowerHex(c: char) {
    ('0' <= c <= '9') || ('a' <= c <= 'f')
  }

  predicate IsSlot(c: char) {
    c == 'x' || c == 'y'
  }

  /** How many template characters `/[xy]/g` replaces, each with one random nibble. */
  function Slots(t: string): nat {
    if t == [] then 0 else (if IsSlot(t[0]) then 1 else 0) + Slots(t[1..])
  }

  /** `r & 0x3 | 0x8`: keep the two low bits, set the high bit. */
  function VariantNibble(r: Nibble): (v: Nibble)
    ensures 8 <= v < 12
    ensures v % 4 == r % 4
  {
    r % 4 + 8
  }

  /** The template with its slots filled from `nibbles` left to right. */
  function Fill(t: string, nibbles: seq<Nibble>): (id: string)
    requires |nibbles| == Slots(t)
    ensures |id| == |t|
  {
    if t == [] then []
    else if t[0] == 'x' then [HexChar(nibbles[0])] + Fill(t[1..], nibbles[1..])
    else if t[0] == 'y' then [HexChar(VariantNibble(nibbles[0]))] + Fill(t[1..], nibbles[1..])
    else [t[0]] + Fill(t[1..], nibbles)
  }

  /**
   * Every template character other than `x` and `y` is kept where it is; the
   * slot at `i` takes the nibble numbered by the slots before it, an `x` as its
   * hex digit and a `y` as the digit of its variant nibble (one of `8`, `9`, `a`, `b`).
   */
  lemma {:induction false} FillShape(t: string, nibbles: seq<Nibble>)
    requires |nibbles| == Slots(t)
    ensures var id := Fill(t, nibbles);
      forall i :: 0 <= i < |t| ==>
        && (!IsSlot(t[i]) ==> id[i] == t[i])
        && (IsSlot(t[i]) ==> Slots(t[..i]) < |nibbles|)
        && (t[i] == 'x' ==> id[i] == HexChar(nibbles[Slots(t[..i])]))
        && (t[i] == 'y' ==> id[i] == HexChar(VariantNibble(nibbles[Slots(t[..i])])) && id[i] in "89ab")
  {
    if t != [] {
      var rest := if IsSlot(t[0]) then nibbles[1..] else nibbles;
      FillShape(t[1..], rest);
      var id := Fill(t, nibbles);
      assert id[1..] == Fill(t[1..], rest);
      if t[0] == 'y' {
        var v := VariantNibble(nibbles[0]);
        assert id[0] == HexChar(v);
        assert id[0] == "89ab"[v - 8];
      }
      forall i | 1 <= i < |t| {
        SlotsPrefixCons(t, i);
      }
      assert t[..0] == [];
    }
  }

  /** The slots before position `i` are the first character's, if it is one, and those before `i - 1` in the rest. */
  lemma SlotsPrefixCons(t: string, i: nat)
    requires 1 <= i <= |t|
    ensures Slots(t[..i]) == (if IsSlot(t[0]) then 1 else 0) + Slots(t[1..][..i - 1])
  {
    assert t[..i][1..] == t[1..][..i - 1];
  }

  lemma {:induction false} SlotsAppend(a: string, b: string)
    ensures Slots(a + b) == Slots(a) + Slots(b)
  {
    if a != [] {
      assert (a + b)[0] == a[0] && (a + b)[1..] == a[1..] + b;
      SlotsAppend(a[1..], b);
    } else {
      assert a + b == b;
    }
  }

  function Xs(n: nat): (t: string)
    ensures |t| == n && Slots(t) == n
  {
    if n == 0 then [] else "x" + Xs(n - 1)
  }

  /** The template has 31 slots: 30 `x` and one `y`. */
  lemma TemplateSlots()
    ensures Slots(Template) == 31
  {
    var p1 := Xs(8) + "-";
    SlotsAppend(Xs(8), "-");
    var p2 := p1 + Xs(4);
    SlotsAppend(p1, Xs(4));
    var p3 := p2 + "-4";
    SlotsAppend(p2, "-4");
    var p4 := p3 + Xs(3);
    SlotsAppend(p3, Xs(3));
    var p5 := p4 + "-y";
    SlotsAppend(p4, "-y");
    var p6 := p5 + Xs(3);
    SlotsAppend(p5, Xs(3));
    var p7 := p6 + "-";
    SlotsAppend(p6, "-");
    SlotsAppend(p7, Xs(12));
  }

  /** `generateUUID()`, given the 31 nibbles `Math.random` would draw. */
  function GenerateUuid(nibbles: seq<Nibble>): (id: string)
    requires |nibbles| == 31
    ensures |id| == 36
  {
    TemplateSlots();
    Fill(Template, nibbles)
  }

  lemma XsAt(n: nat, i: nat)
    requires i < n
    ensures Xs(n)[i] == 'x'
  {
    if i > 0 {
      XsAt(n - 1, i - 1);
    }
  }

  /** The template character at each of the 36 positions. */
  lemma TemplateAt(i: nat)
    requires i < 36
    ensures i == 8 || i == 13 || i == 18 || i == 23 ==> Template[i] == '-'
    ensures i == 14 ==> Template[i] == '4'
    ensures i == 19 ==> Template[i] == 'y'
    ensures i !in {8, 13, 14, 18, 19, 23} ==> Template[i] == 'x'
  {
    var p1 := Xs(8) + "-";
    var p2 := p1 + Xs(4);
    var p3 := p2 + "-4";
    var p4 := p3 + Xs(3);
    var p5 := p4 + "-y";
    var p6 := p5 + Xs(3);
    var p7 := p6 + "-";
    assert Template == p7 + Xs(12);
    assert |p1| == 9 && |p2| == 13 && |p3| == 15 && |p4| == 18 && |p5| == 20 && |p6| == 23 && |p7| == 24;
    if i < 8 {
      XsAt(8, i);
      assert Template[i] == p7[i] == p6[i] == p5[i] == p4[i] == p3[i] == p2[i] == p1[i] == Xs(8)[i];
    } else if 9 <= i < 13 {
      XsAt(4, i - 9);
      assert Template[i] == p7[i] == p6[i] == p5[i] == p4[i] == p3[i] == p2[i] == Xs(4)[i - 9];
    } else if 15 <= i < 18 {
      XsAt(3, i - 15);
      assert Template[i] == p7[i] == p6[i] == p5[i] == p4[i] == Xs(3)[i - 15];
    } else if 20 <= i < 23 {
      XsAt(3, i - 20);
      assert Template[i] == p7[i] == p6[i] == Xs(3)[i - 20];
    } else if 24 <= i {
      XsAt(12, i - 24);
      assert Template[i] == Xs(12)[i - 24];
    }
  }

  /**
   * A generated id is 36 characters: hyphens at 8, 13, 18 and 23, the version
   * digit `4` at 14, a variant digit in `89ab` at 19, lower-case hex elsewhere.
   */
  lemma UuidShape(nibbles: seq<Nibble>)
    requires |nibbles| == 31
    ensures var id := GenerateUuid(nibbles);
      && id[8] == '-' && id[13] == '-' && id[18] == '-' && id[23] == '-'
      && id[14] == '4'
      && id[19] in "89ab"
      && forall i :: 0 <= i < 36 && i !in {8, 13, 14, 18, 19, 23} ==> IsLowerHex(id[i])
  {
    TemplateSlots();
    FillShape(Template, nibbles);
    TemplateAt(8);
    TemplateAt(13);
    TemplateAt(14);
    TemplateAt(18);
    TemplateAt(19);
    TemplateAt(23);
    forall i | 0 <= i < 36 && i !in {8, 13, 14, 18, 19, 23}
      ensures Template[i] == 'x'
    {
      TemplateAt(i);
    }
  }

  /** How many of the template's positions before `i` are not slots (8, 13, 14, 18, 23). */
  function FixedBefore(i: nat): nat {
    (if i > 8 then 1 else 0) + (if i > 13 then 1 else 0) + (if i > 14 then 1 else 0) +
    (if i > 18 then 1 else 0) + (if i > 23 then 1 else 0)
  }

  /** One more template position counted. */
  lemma SlotsSnoc(t: string, i: nat)
    requires i < |t|
    ensures Slots(t[..i + 1]) == Slots(t[..i]) + (if IsSlot(t[i]) then 1 else 0)
  {
    assert t[..i + 1] == t[..i] + [t[i]];
    SlotsAppend(t[..i], [t[i]]);
  }

  /** The slots before position `i` of the template are the positions before it, less the fixed ones. */
  lemma {:induction false} TemplateSlotsBefore(i: nat)
    requires i <= 36
    ensures Slots(Template[..i]) == i - FixedBefore(i)
  {
    if i == 0 {
      assert Template[..0] == [];
    } else {
      TemplateSlotsBefore(i - 1);
      SlotsSnoc(Template, i - 1);
      TemplateAt(i - 1);
    }
  }

  /**
   * Each digit of a generated id is the digit of its own nibble, drawn in
   * template order: position `i` takes nibble `i - FixedBefore(i)`, and the
   * variant digit at 19 is made from nibble 15.
   */
  lemma UuidDigits(nibbles: seq<Nibble>)
    requires |nibbles| == 31
    ensures var id := GenerateUuid(nibbles);
      && id[19] == HexChar(VariantNibble(nibbles[15]))
      && forall i :: 0 <= i < 36 && i !in {8, 13, 14, 18, 19, 23} ==>
        i - FixedBefore(i) < 31 && id[i] == HexChar(nibbles[i - FixedBefore(i)])
  {
    TemplateSlots();
    FillShape(Template, nibbles);
    TemplateAt(19);
    TemplateSlotsBefore(19);
    forall i | 0 <= i < 36 && i !in {8, 13, 14, 18, 19, 23}
      ensures Template[i] == 'x' && Slots(Template[..i]) == i - FixedBefore(i)
    {
      TemplateAt(i);
      TemplateSlotsBefore(i);
    }
  }
}
