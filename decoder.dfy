/**
 * The panel's display decoder. `decodeUnicode` rewrites every `\uXXXX`
 * escape (a backslash, `u` in either case, four hex digits in either case) to
 * the one UTF-16 code unit it names, in a single left-to-right,
 * non-overlapping pass whose output is never rescanned. `safeJsonParseAndDecode`
 * applies that rewrite to every string of a parsed JSON value, or to the raw
 * text when it does not parse.
 *
 * JavaScript strings are sequences of UTF-16 code units; `String.fromCharCode`
 * can produce any of them, lone surrogates included, so text here is
 * `seq<CodeUnit>` rather than `string`.
 */
module Decoder {
  import opened Wrappers

  type CodeUnit = x: int | 0 <= x < 0x1_0000

  const Backslash: CodeUnit := 0x5C
  const LowerU: CodeUnit := 0x75
  const UpperU: CodeUnit := 0x55

  /** `[\dA-F]` under the `i` flag. */
  predicate IsHexDigit(c: CodeUnit) {
    (0x30 <= c <= 0x39) || (0x41 <= c <= 0x46) || (0x61 <= c <= 0x66)
  }

  function HexValue(c: CodeUnit): (v: nat)
    requires IsHexDigit(c)
    ensures v < 16
  {
    if c <= 0x39 then c - 0x30 else if c <= 0x46 then c - 0x41 + 10 else c - 0x61 + 10
  }

  /** An escape starts at `i`: `\`, `u` or `U`, then four hex digits. */
  predicate EscapeAt(s: seq<CodeUnit>, i: nat) {
    && i + 6 <= |s|
    && s[i] == Backslash
    && (s[i + 1] == LowerU || s[i + 1] == UpperU)
    && IsHexDigit(s[i + 2]) && IsHexDigit(s[i + 3]) && IsHexDigit(s[i + 4]) && IsHexDigit(s[i + 5])
  }

  /** `String.fromCharCode(parseInt(digits, 16))` for the escape at `i`. */
  function EscapedUnit(s: seq<CodeUnit>, i: nat): CodeUnit
    requires EscapeAt(s, i)
  {
    HexValue(s[i + 2]) * 0x1000 + HexValue(s[i + 3]) * 0x100 + HexValue(s[i + 4]) * 0x10 + HexValue(s[i + 5])
  }

  /** The global regex replacement: match at the front, or copy one unit and move on. */
  function Replace(s: seq<CodeUnit>): seq<CodeUnit>
    decreases |s|
  {
    if s == [] then []
    else if EscapeAt(s, 0) then [EscapedUnit(s, 0)] + Replace(s[6..])
    else [s[0]] + Replace(s[1..])
  }

  /** `decodeUnicode`: falsy (empty) text is returned as it is; anything else is rewritten. */
  function DecodeUnicode(s: seq<CodeUnit>): (r: seq<CodeUnit>)
    ensures s == [] ==> r == s
  {
    if s == [] then s else Replace(s)
  }

  /** The number of escapes the pass replaces. */
  function Escapes(s: seq<CodeUnit>): nat
    decreases |s|
  {
    if s == [] then 0
    else if EscapeAt(s, 0) then 1 + Escapes(s[6..])
    else Escapes(s[1..])
  }

  // ---------------------------------------------------------------------------
  // Properties of the rewrite
  // ---------------------------------------------------------------------------

  /** Each replaced escape shortens the text by five units; nothing else changes its length. */
  lemma {:induction false} DecodeLength(s: seq<CodeUnit>)
    ensures |DecodeUnicode(s)| == |s| - 5 * Escapes(s)
    ensures 5 * Escapes(s) <= |s|
    decreases |s|
  {
    if s != [] {
      var rest := if EscapeAt(s, 0) then s[6..] else s[1..];
      DecodeLength(rest);
      assert DecodeUnicode(rest) == Replace(rest);
    }
  }

  lemma EscapeAtShift(s: seq<CodeUnit>, k: nat, i: nat)
    requires k <= |s|
    ensures EscapeAt(s[k..], i) == EscapeAt(s, k + i)
  {
    if EscapeAt(s[k..], i) {
      assert s[k..][i..i + 6] == s[k + i..k + i + 6];
    }
  }

  /** Text with no escape anywhere is returned unchanged. */
  lemma {:induction false} NoEscapeUnchanged(s: seq<CodeUnit>)
    requires forall i :: 0 <= i < |s| ==> !EscapeAt(s, i)
    ensures DecodeUnicode(s) == s
    ensures Escapes(s) == 0
    decreases |s|
  {
    if s != [] {
      assert !EscapeAt(s, 0);
      forall i | 0 <= i < |s| - 1
        ensures !EscapeAt(s[1..], i)
      {
        EscapeAtShift(s, 1, i);
      }
      NoEscapeUnchanged(s[1..]);
    }
  }

  /** The upper-case hex digit of a nibble. */
  function HexDigit(v: nat): (c: CodeUnit)
    requires v < 16
    ensures IsHexDigit(c) && HexValue(c) == v
  {
    if v < 10 then 0x30 + v else 0x41 + v - 10
  }

  /**
   * `parseInt(c, 16)` of one digit: `c` is worth `v` exactly when it is the
   * digit of `v`, upper-case or (for 10 to 15) lower-case.
   */
  lemma HexValueIff(c: CodeUnit, v: nat)
    requires IsHexDigit(c) && v < 16
    ensures HexValue(c) == v <==> c == HexDigit(v) || (10 <= v && c == HexDigit(v) + 0x20)
  {
  }

  /** `\uXXXX` naming one code unit. */
  function Escape(u: CodeUnit): (e: seq<CodeUnit>)
    ensures |e| == 6
  {
    [Backslash, LowerU, HexDigit(u / 16 / 16 / 16), HexDigit(u / 16 / 16 % 16), HexDigit(u / 16 % 16), HexDigit(u % 16)]
  }

  /** The four nibbles of a code unit, most significant first, put back together. */
  lemma NibblesRecompose(u: CodeUnit)
    ensures u / 16 / 16 / 16 < 16
    ensures u == (u / 16 / 16 / 16) * 0x1000 + (u / 16 / 16 % 16) * 0x100 + (u / 16 % 16) * 0x10 + u % 16
  {
    var a := u / 16;
    var b := a / 16;
    assert u == 16 * a + u % 16;
    assert a == 16 * b + a % 16;
    assert b == 16 * (b / 16) + b % 16;
  }

  /** Every code unit written as its escape. */
  function EscapeAll(us: seq<CodeUnit>): seq<CodeUnit> {
    if us == [] then [] else Escape(us[0]) + EscapeAll(us[1..])
  }

  lemma EscapeDecodes(u: CodeUnit, rest: seq<CodeUnit>)
    ensures EscapeAt(Escape(u) + rest, 0)
    ensures EscapedUnit(Escape(u) + rest, 0) == u
    ensures (Escape(u) + rest)[6..] == rest
  {
    NibblesRecompose(u);
  }

  /** Escaping every unit and decoding gives the units back: each escape names the unit it replaced. */
  lemma {:induction false} EscapeAllRoundTrip(us: seq<CodeUnit>)
    ensures Replace(EscapeAll(us)) == us
    ensures Escapes(EscapeAll(us)) == |us|
  {
    if us != [] {
      var rest := EscapeAll(us[1..]);
      EscapeDecodes(us[0], rest);
      EscapeAllRoundTrip(us[1..]);
    }
  }

  /** `\u005cu0041`: the escape for a backslash, then the text `u0041`. */
  const Nested: seq<CodeUnit> := [0x5C, 0x75, 0x30, 0x30, 0x35, 0x63, 0x75, 0x30, 0x30, 0x34, 0x31]

  /** `\u0041`. */
  const Produced: seq<CodeUnit> := [0x5C, 0x75, 0x30, 0x30, 0x34, 0x31]

  /** Produced text is not rescanned: one pass turns `\u005cu0041` into `\u0041`, not into `A`. */
  lemma NestedDecodesOnce()
    ensures DecodeUnicode(Nested) == Produced
  {
    assert EscapeAt(Nested, 0) && EscapedUnit(Nested, 0) == Backslash;
    assert Nested[6..] == Produced[1..];
    NoEscapeUnchanged(Produced[1..]);
  }

  /** The decoder is not idempotent: a second pass turns `\u0041` into `A`. */
  lemma NotIdempotent()
    ensures DecodeUnicode(DecodeUnicode(Nested)) == [0x41]
    ensures DecodeUnicode(DecodeUnicode(Nested)) != DecodeUnicode(Nested)
  {
    NestedDecodesOnce();
    assert EscapeAt(Produced, 0) && EscapedUnit(Produced, 0) == 0x41;
    assert Produced[6..] == [];
  }

  /** The `i` flag: `\U00e9` and `\u00E9` both decode to U+00E9. */
  lemma EitherCase()
    ensures DecodeUnicode([Backslash, UpperU, 0x30, 0x30, 0x65, 0x39]) == [0xE9]
    ensures DecodeUnicode([Backslash, LowerU, 0x30, 0x30, 0x45, 0x39]) == [0xE9]
  {
    var upper: seq<CodeUnit> := [Backslash, UpperU, 0x30, 0x30, 0x65, 0x39];
    var lower: seq<CodeUnit> := [Backslash, LowerU, 0x30, 0x30, 0x45, 0x39];
    assert EscapeAt(upper, 0) && upper[6..] == [] && EscapedUnit(upper, 0) == 0xE9;
    assert Replace(upper) == [EscapedUnit(upper, 0)] + Replace(upper[6..]);
    assert EscapeAt(lower, 0) && lower[6..] == [] && EscapedUnit(lower, 0) == 0xE9;
    assert Replace(lower) == [EscapedUnit(lower, 0)] + Replace(lower[6..]);
  }

  // ---------------------------------------------------------------------------
  // JSON values
  // ---------------------------------------------------------------------------

  /**
   * A value `JSON.parse` returns. Numbers are kept as given; they are never
   * inspected. An object's properties are listed in enumeration order.
   */
  datatype Json =
    | JNull
    | JBool(b: bool)
    | JNumber(n: int)
    | JString(s: seq<CodeUnit>)
    | JArray(items: seq<Json>)
    | JObject(props: seq<Property>)

  datatype Property = Property(key: seq<CodeUnit>, value: Json)

  /** `traverse`: decode strings, map over arrays, rewrite each property value in place. */
  function Traverse(j: Json): Json
    decreases j
  {
    match j
    case JString(s) => JString(DecodeUnicode(s))
    case JArray(items) => JArray(seq(|items|, i requires 0 <= i < |items| => Traverse(items[i])))
    case JObject(props) =>
      JObject(seq(|props|, i requires 0 <= i < |props| => Property(props[i].key, Traverse(props[i].value))))
    case _ => j
  }

  /**
   * `safeJsonParseAndDecode(text)`, given what `JSON.parse(text)` returned
   * (`None` when it threw): the decoded tree, or the decoded raw text.
   */
  function SafeJsonParseAndDecode(text: seq<CodeUnit>, parsed: Option<Json>): (r: Json)
    ensures parsed.None? ==> r == JString(DecodeUnicode(text))
  {
    match parsed
    case None => JString(DecodeUnicode(text))
    case Some(j) => Traverse(j)
  }

  /**
   * `b` is `a` with every string, at any depth, decoded: the same constructors,
   * array lengths, property keys in the same order, and the same null, boolean
   * and number values.
   */
  predicate DecodedFrom(b: Json, a: Json)
    decreases a
  {
    match a
    case JString(s) => b == JString(DecodeUnicode(s))
    case JArray(xs) =>
      && b.JArray? && |b.items| == |xs|
      && forall i :: 0 <= i < |xs| ==> DecodedFrom(b.items[i], xs[i])
    case JObject(ps) =>
      && b.JObject? && |b.props| == |ps|
      && forall i :: 0 <= i < |ps| ==> b.props[i].key == ps[i].key && DecodedFrom(b.props[i].value, ps[i].value)
    case _ => b == a
  }

  /** `traverse` decodes every string of the tree and changes nothing else. */
  lemma {:induction false} TraverseDecodes(j: Json)
    ensures DecodedFrom(Traverse(j), j)
    decreases j
  {
    match j
    case JArray(xs) =>
      forall i | 0 <= i < |xs|
        ensures DecodedFrom(Traverse(j).items[i], xs[i])
      {
        TraverseDecodes(xs[i]);
      }
    case JObject(ps) =>
      forall i | 0 <= i < |ps|
        ensures DecodedFrom(Traverse(j).props[i].value, ps[i].value)
      {
        TraverseDecodes(ps[i].value);
      }
    case _ =>
  }

  /** No string of the tree holds an escape. */
  predicate Clean(j: Json)
    decreases j
  {
    match j
    case JString(s) => forall i :: 0 <= i < |s| ==> !EscapeAt(s, i)
    case JArray(xs) => forall i :: 0 <= i < |xs| ==> Clean(xs[i])
    case JObject(ps) => forall i :: 0 <= i < |ps| ==> Clean(ps[i].value)
    case _ => true
  }

  /** A tree without escapes comes back unchanged. */
  lemma {:induction false} CleanTreeUnchanged(j: Json)
    requires Clean(j)
    ensures Traverse(j) == j
    decreases j
  {
    match j
    case JString(s) =>
      NoEscapeUnchanged(s);
    case JArray(xs) =>
      forall i | 0 <= i < |xs|
        ensures Traverse(xs[i]) == xs[i]
      {
        CleanTreeUnchanged(xs[i]);
      }
      assert Traverse(j).items == xs;
    case JObject(ps) =>
      forall i | 0 <= i < |ps|
        ensures Traverse(ps[i].value) == ps[i].value
      {
        CleanTreeUnchanged(ps[i].value);
      }
      assert Traverse(j).props == ps;
    case _ =>
  }

  /** A parsed value is decoded as a tree; unparsable text is decoded as text. */
  lemma ParsedOrRaw(text: seq<CodeUnit>, parsed: Option<Json>)
    ensures parsed.Some? ==> DecodedFrom(SafeJsonParseAndDecode(text, parsed), parsed.value)
    ensures parsed.None? ==> DecodedFrom(SafeJsonParseAndDecode(text, parsed), JString(text))
  {
    if parsed.Some? {
      TraverseDecodes(parsed.value);
    }
  }
}
