/**
 * The JavaScript string operations the extension relies on, over `string`:
 * `indexOf`/`includes`, `split` on a non-empty literal separator, `join`,
 * `startsWith`, `trim`/`trimEnd` (ECMAScript white space and line terminators)
 * and `toLowerCase` restricted to ASCII letters.
 */
module JsString {
  import opened Wrappers

  /** `sep` occurs in `s` starting at index `i`. */
  ghost predicate OccursAt(s: string, sep: string, i: int) {
    0 <= i && i + |sep| <= |s| && s[i..i + |sep|] == sep
  }

  /** `s` contains no occurrence of `sep`. */
  ghost predicate Free(s: string, sep: string) {
    forall i :: !OccursAt(s, sep, i)
  }

  /**
   * `sep` does not occur in `r + sep` before the appended copy: splitting
   * `r + sep + rest` on `sep` therefore cuts exactly after `r`.
   */
  ghost predicate Clean(r: string, sep: string) {
    forall i :: 0 <= i < |r| ==> !OccursAt(r + sep, sep, i)
  }

  lemma OccursShift(s: string, sep: string)
    requires |s| > 0
    ensures forall i :: 0 <= i ==> (OccursAt(s, sep, i + 1) <==> OccursAt(s[1..], sep, i))
  {
    forall i | 0 <= i
      ensures OccursAt(s, sep, i + 1) <==> OccursAt(s[1..], sep, i)
    {
      if 0 <= i && i + 1 + |sep| <= |s| {
        assert s[1..][i..i + |sep|] == s[i + 1..i + 1 + |sep|];
      }
    }
  }

  /** An occurrence that ends inside `s` is an occurrence in `s + t` and back. */
  lemma OccursInPrefix(s: string, t: string, sep: string, j: int)
    requires j + |sep| <= |s|
    ensures OccursAt(s + t, sep, j) <==> OccursAt(s, sep, j)
  {
    if 0 <= j {
      assert (s + t)[j..j + |sep|] == s[j..j + |sep|];
    }
  }

  /** `String.prototype.indexOf`: the leftmost occurrence of `sep` in `s`. */
  function IndexOf(s: string, sep: string): (r: Option<nat>)
    ensures r.Some? ==> r.value + |sep| <= |s|
    decreases |s|
  {
    if |s| < |sep| then None
    else if s[..|sep|] == sep then Some(0)
    else
      match IndexOf(s[1..], sep)
      case None => None
      case Some(k) => Some(k + 1)
  }

  /** `IndexOf` finds an occurrence, none before it, and fails only when there is none. */
  lemma {:induction false} IndexOfSpec(s: string, sep: string)
    ensures var r := IndexOf(s, sep);
      && (r.Some? ==> OccursAt(s, sep, r.value))
      && (r.Some? ==> forall j :: 0 <= j < r.value ==> !OccursAt(s, sep, j))
      && (r.None? <==> Free(s, sep))
    decreases |s|
  {
    if |s| < |sep| {
    } else if s[..|sep|] == sep {
    } else {
      IndexOfSpec(s[1..], sep);
      OccursShift(s, sep);
      assert !OccursAt(s, sep, 0);
      assert forall i :: OccursAt(s, sep, i) ==> i == 0 || OccursAt(s[1..], sep, i - 1);
    }
  }

  /** The leftmost occurrence is determined by the occurrences alone. */
  lemma IndexOfIsLeftmost(s: string, sep: string, k: nat)
    requires OccursAt(s, sep, k)
    requires forall j :: 0 <= j < k ==> !OccursAt(s, sep, j)
    ensures IndexOf(s, sep) == Some(k)
  {
    IndexOfSpec(s, sep);
  }

  /** `String.prototype.includes`. */
  predicate Includes(s: string, sub: string) {
    IndexOf(s, sub).Some?
  }

  lemma IncludesIffOccurs(s: string, sub: string)
    ensures Includes(s, sub) <==> exists i :: OccursAt(s, sub, i)
  {
    IndexOfSpec(s, sub);
  }

  /** `String.prototype.startsWith`. */
  predicate StartsWith(s: string, prefix: string) {
    |prefix| <= |s| && s[..|prefix|] == prefix
  }

  /** `Array.prototype.join` on strings. */
  function Join(parts: seq<string>, sep: string): string
  {
    if |parts| == 0 then ""
    else if |parts| == 1 then parts[0]
    else parts[0] + sep + Join(parts[1..], sep)
  }

  /** Every string of `rs` followed by `sep`, concatenated in order. */
  function Frame(rs: seq<string>, sep: string): string
  {
    if rs == [] then "" else rs[0] + sep + Frame(rs[1..], sep)
  }

  lemma {:induction false} JoinAsFrame(parts: seq<string>, sep: string)
    requires |parts| >= 1
    ensures Join(parts, sep) == Frame(parts[..|parts| - 1], sep) + parts[|parts| - 1]
  {
    if |parts| > 1 {
      JoinAsFrame(parts[1..], sep);
      assert parts[1..][..|parts| - 2] == parts[..|parts| - 1][1..];
    }
  }

  lemma {:induction false} FrameAppend(rs: seq<string>, more: seq<string>, sep: string)
    ensures Frame(rs + more, sep) == Frame(rs, sep) + Frame(more, sep)
  {
    if rs != [] {
      FrameAppend(rs[1..], more, sep);
      assert (rs + more)[1..] == rs[1..] + more;
    } else {
      assert rs + more == more;
    }
  }

  /**
   * `String.prototype.split` with a non-empty literal separator: the pieces
   * between the leftmost non-overlapping occurrences of `sep`.
   */
  function Split(s: string, sep: string): (parts: seq<string>)
    requires |sep| > 0
    ensures |parts| >= 1
    decreases |s|
  {
    match IndexOf(s, sep)
    case None => [s]
    case Some(k) => [s[..k]] + Split(s[k + |sep|..], sep)
  }

  /** One step of `Split`: cut at the leftmost occurrence. */
  lemma SplitAt(s: string, sep: string, k: nat)
    requires |sep| > 0 && IndexOf(s, sep) == Some(k)
    ensures Split(s, sep) == [s[..k]] + Split(s[k + |sep|..], sep)
  {
  }

  /** A string without the separator splits into itself alone. */
  lemma SplitFree(s: string, sep: string)
    requires |sep| > 0 && Free(s, sep)
    ensures Split(s, sep) == [s]
  {
    IndexOfSpec(s, sep);
  }

  /** Joining the pieces with the separator gives back the split text. */
  lemma {:induction false} SplitRejoins(s: string, sep: string)
    requires |sep| > 0
    ensures Join(Split(s, sep), sep) == s
    decreases |s|
  {
    IndexOfSpec(s, sep);
    match IndexOf(s, sep)
    case None =>
    case Some(k) =>
      SplitAt(s, sep, k);
      SplitRejoins(s[k + |sep|..], sep);
      assert s == s[..k] + sep + s[k + |sep|..];
  }

  /** No piece of a split contains the separator. */
  lemma {:induction false} SplitPiecesFree(s: string, sep: string)
    requires |sep| > 0
    ensures forall i :: 0 <= i < |Split(s, sep)| ==> Free(Split(s, sep)[i], sep)
    decreases |s|
  {
    IndexOfSpec(s, sep);
    match IndexOf(s, sep)
    case None =>
    case Some(k) =>
      SplitAt(s, sep, k);
      SplitPiecesFree(s[k + |sep|..], sep);
      assert Free(s[..k], sep) by {
        forall i ensures !OccursAt(s[..k], sep, i) {
          if 0 <= i && i + |sep| <= k {
            assert s[..k][i..i + |sep|] == s[i..i + |sep|];
            assert !OccursAt(s, sep, i);
          }
        }
      }
  }

  /** A clean piece followed by the separator is cut off as the first piece. */
  lemma CutClean(r: string, u: string, sep: string)
    requires |sep| > 0 && Clean(r, sep)
    ensures Split(r + sep + u, sep) == [r] + Split(u, sep)
  {
    var s := (r + sep) + u;
    assert OccursAt(s, sep, |r|) by {
      assert s[|r|..|r| + |sep|] == sep;
    }
    forall j | 0 <= j < |r|
      ensures !OccursAt(s, sep, j)
    {
      OccursInPrefix(r + sep, u, sep, j);
    }
    IndexOfIsLeftmost(s, sep, |r|);
    SplitAt(s, sep, |r|);
    assert s[..|r|] == r;
    assert s[|r| + |sep|..] == u;
  }

  /**
   * Splitting text made of clean pieces, each followed by the separator,
   * gives back exactly those pieces, then the pieces of the remainder.
   */
  lemma {:induction false} SplitFrame(rs: seq<string>, t: string, sep: string)
    requires |sep| > 0
    requires forall i :: 0 <= i < |rs| ==> Clean(rs[i], sep)
    ensures Split(Frame(rs, sep) + t, sep) == rs + Split(t, sep)
  {
    if rs == [] {
      assert Frame(rs, sep) + t == t;
    } else {
      TailClean(rs, sep);
      SplitFrame(rs[1..], t, sep);
      FrameStep(rs, t, sep);
    }
  }

  lemma FrameStep(rs: seq<string>, t: string, sep: string)
    requires |sep| > 0 && rs != [] && Clean(rs[0], sep)
    requires Split(Frame(rs[1..], sep) + t, sep) == rs[1..] + Split(t, sep)
    ensures Split(Frame(rs, sep) + t, sep) == rs + Split(t, sep)
  {
    FrameCut(rs, t, sep);
    ConsAppend(rs, Split(t, sep));
  }

  lemma ConsAppend<T>(xs: seq<T>, ys: seq<T>)
    requires xs != []
    ensures [xs[0]] + (xs[1..] + ys) == xs + ys
  {
    assert xs == [xs[0]] + xs[1..];
  }

  lemma TailClean(rs: seq<string>, sep: string)
    requires rs != [] && forall i :: 0 <= i < |rs| ==> Clean(rs[i], sep)
    ensures forall i :: 0 <= i < |rs[1..]| ==> Clean(rs[1..][i], sep)
  {
    forall i | 0 <= i < |rs[1..]|
      ensures Clean(rs[1..][i], sep)
    {
      assert rs[1..][i] == rs[i + 1];
    }
  }

  /** The first clean piece of a frame is cut off first. */
  lemma FrameCut(rs: seq<string>, t: string, sep: string)
    requires |sep| > 0 && rs != [] && Clean(rs[0], sep)
    ensures Split(Frame(rs, sep) + t, sep) == [rs[0]] + Split(Frame(rs[1..], sep) + t, sep)
  {
    var u := Frame(rs[1..], sep) + t;
    assert Frame(rs, sep) + t == rs[0] + sep + u;
    CutClean(rs[0], u, sep);
  }

  /** Appending text never moves an occurrence that is already leftmost. */
  lemma IndexOfExtends(s: string, t: string, sep: string, k: nat)
    requires IndexOf(s, sep) == Some(k)
    ensures IndexOf(s + t, sep) == Some(k)
  {
    IndexOfSpec(s, sep);
    forall j | 0 <= j < k
      ensures !OccursAt(s + t, sep, j)
    {
      OccursInPrefix(s, t, sep, j);
    }
    OccursInPrefix(s, t, sep, k);
    IndexOfIsLeftmost(s + t, sep, k);
  }

  /** Appending text after `s` leaves the first cut of `s` where it was. */
  lemma SplitAppendCut(s: string, t: string, sep: string, k: nat)
    requires |sep| > 0 && IndexOf(s, sep) == Some(k)
    ensures Split(s + t, sep) == [s[..k]] + Split(s[k + |sep|..] + t, sep)
  {
    IndexOfExtends(s, t, sep, k);
    SplitAt(s + t, sep, k);
    assert (s + t)[..k] == s[..k];
    assert (s + t)[k + |sep|..] == s[k + |sep|..] + t;
  }

  /**
   * Splitting `s + t` keeps every complete piece of `s` and continues from the
   * last, possibly partial, piece of `s` followed by `t`.
   */
  lemma {:induction false} SplitAppend(s: string, t: string, sep: string)
    requires |sep| > 0
    ensures var ps := Split(s, sep);
      Split(s + t, sep) == ps[..|ps| - 1] + Split(ps[|ps| - 1] + t, sep)
    decreases |s|
  {
    match IndexOf(s, sep)
    case None =>
      IndexOfSpec(s, sep);
      SplitFree(s, sep);
    case Some(k) =>
      var rest := s[k + |sep|..];
      var ps, qs := Split(s, sep), Split(rest, sep);
      SplitAppendCut(s, t, sep, k);
      SplitAt(s, sep, k);
      SplitAppend(rest, t, sep);
      InitOfCons(s[..k], qs);
  }

  lemma InitOfCons(r: string, qs: seq<string>)
    requires qs != []
    ensures var ps := [r] + qs; ps[..|ps| - 1] == [r] + qs[..|qs| - 1] && ps[|ps| - 1] == qs[|qs| - 1]
  {
  }

  /** For a one-character separator, every piece without it is clean. */
  lemma FreeIsClean(r: string, sep: string)
    requires |sep| == 1 && Free(r, sep)
    ensures Clean(r, sep)
  {
    forall i | 0 <= i < |r|
      ensures !OccursAt(r + sep, sep, i)
    {
      assert !OccursAt(r, sep, i);
      assert (r + sep)[i..i + 1] == r[i..i + 1];
    }
  }

  /** The last piece of a split has no separator in it. */
  lemma LastPieceFree(p: string, sep: string)
    requires |sep| > 0
    ensures var ps := Split(p, sep); Free(ps[|ps| - 1], sep)
  {
    SplitPiecesFree(p, sep);
  }

  /** The last piece of a split, for a one-character separator, is cut off cleanly. */
  lemma LastPieceCut(p: string, sep: string, q: string)
    requires |sep| == 1
    ensures var ps := Split(p, sep);
      Split(ps[|ps| - 1] + (sep + q), sep) == [ps[|ps| - 1]] + Split(q, sep)
  {
    var ps := Split(p, sep);
    var last := ps[|ps| - 1];
    LastPieceFree(p, sep);
    FreeIsClean(last, sep);
    CutClean(last, q, sep);
    Assoc(last, sep, q);
  }

  /** For a one-character separator, splitting distributes over `p + sep + q`. */
  lemma SplitAround(p: string, sep: string, q: string)
    requires |sep| == 1
    ensures Split(p + sep + q, sep) == Split(p, sep) + Split(q, sep)
  {
    var ps := Split(p, sep);
    calc {
      Split(p + sep + q, sep);
    == { Assoc(p, sep, q); }
      Split(p + (sep + q), sep);
    == { SplitAppend(p, sep + q, sep); }
      ps[..|ps| - 1] + Split(ps[|ps| - 1] + (sep + q), sep);
    == { LastPieceCut(p, sep, q); }
      ps[..|ps| - 1] + ([ps[|ps| - 1]] + Split(q, sep));
    == { InitLastAppend(ps, Split(q, sep)); }
      ps + Split(q, sep);
    }
  }

  lemma Assoc<T>(a: seq<T>, b: seq<T>, c: seq<T>)
    ensures a + b + c == a + (b + c)
  {
  }

  lemma InitLastAppend<T>(xs: seq<T>, ys: seq<T>)
    requires xs != []
    ensures xs[..|xs| - 1] + ([xs[|xs| - 1]] + ys) == xs + ys
  {
    assert xs[..|xs| - 1] + [xs[|xs| - 1]] == xs;
  }

  /** Round trip for a one-character separator: split undoes join. */
  lemma {:induction false} SplitJoin(parts: seq<string>, sep: string)
    requires |sep| == 1 && |parts| >= 1
    requires forall i :: 0 <= i < |parts| ==> Free(parts[i], sep)
    ensures Split(Join(parts, sep), sep) == parts
  {
    if |parts| == 1 {
      SplitFree(parts[0], sep);
    } else {
      SplitJoin(parts[1..], sep);
      SplitFree(parts[0], sep);
      SplitAround(parts[0], sep, Join(parts[1..], sep));
    }
  }

  /** A string in which the separator's first character never appears does not contain it. */
  lemma FreeOfFirstChar(s: string, sep: string)
    requires |sep| > 0 && forall i :: 0 <= i && i + |sep| <= |s| ==> s[i] != sep[0]
    ensures Free(s, sep)
    ensures !Includes(s, sep)
  {
    IndexOfSpec(s, sep);
    forall i | 0 <= i && i + |sep| <= |s|
      ensures !OccursAt(s, sep, i)
    {
      assert s[i..i + |sep|][0] == s[i];
    }
  }

  /** Text without the separator's first character does not contain the separator. */
  lemma FreeOfAbsentChar(s: string, sep: string)
    requires |sep| > 0 && sep[0] !in s
    ensures Free(s, sep)
    ensures !Includes(s, sep)
  {
    forall i | 0 <= i && i + |sep| <= |s|
      ensures s[i] != sep[0]
    {
      assert s[i] in s;
    }
    FreeOfFirstChar(s, sep);
  }

  /** A string without a one-character separator has no character equal to it. */
  lemma FreeOfCharHasNone(s: string, sep: string)
    requires |sep| == 1 && Free(s, sep)
    ensures forall i :: 0 <= i < |s| ==> s[i] != sep[0]
  {
    forall i | 0 <= i < |s|
      ensures s[i] != sep[0]
    {
      assert !OccursAt(s, sep, i);
      assert s[i..i + 1] == [s[i]];
    }
  }

  /** White space and line terminators as `String.prototype.trim` removes them. */
  predicate IsWhiteSpace(c: char) {
    var n := c as int;
    n == 0x09 || n == 0x0A || n == 0x0B || n == 0x0C || n == 0x0D || n == 0x20 ||
    n == 0xA0 || n == 0x1680 || (0x2000 <= n <= 0x200A) || n == 0x2028 ||
    n == 0x2029 || n == 0x202F || n == 0x205F || n == 0x3000 || n == 0xFEFF
  }

  /** `String.prototype.trimEnd`: the longest prefix not ending in white space. */
  function TrimEnd(s: string): (r: string)
    ensures |r| <= |s|
  {
    if s != [] && IsWhiteSpace(s[|s| - 1]) then TrimEnd(s[..|s| - 1]) else s
  }

  /** `trimEnd` keeps a prefix, removes only white space, and stops at the first other character. */
  lemma {:induction false} TrimEndSpec(s: string)
    ensures var r := TrimEnd(s);
      && r == s[..|r|]
      && (r == [] || !IsWhiteSpace(r[|r| - 1]))
      && forall i :: |r| <= i < |s| ==> IsWhiteSpace(s[i])
    decreases |s|
  {
    if s != [] && IsWhiteSpace(s[|s| - 1]) {
      TrimEndSpec(s[..|s| - 1]);
    }
  }

  /** `String.prototype.trimStart`: the longest suffix not starting with white space. */
  function TrimStart(s: string): (r: string)
    ensures |r| <= |s|
  {
    if s != [] && IsWhiteSpace(s[0]) then TrimStart(s[1..]) else s
  }

  /** `trimStart` keeps a suffix, removes only white space, and stops at the first other character. */
  lemma {:induction false} TrimStartSpec(s: string)
    ensures var r := TrimStart(s);
      && r == s[|s| - |r|..]
      && (r == [] || !IsWhiteSpace(r[0]))
      && forall i :: 0 <= i < |s| - |r| ==> IsWhiteSpace(s[i])
    decreases |s|
  {
    if s != [] && IsWhiteSpace(s[0]) {
      TrimStartSpec(s[1..]);
    }
  }

  /** `String.prototype.trim`. */
  function Trim(s: string): (r: string)
    ensures |r| <= |s|
  {
    TrimStart(TrimEnd(s))
  }

  /** `trim` keeps a contiguous part that neither starts nor ends with white space, and removes only white space. */
  lemma TrimSpec(s: string)
    ensures var e, r := TrimEnd(s), Trim(s);
      && IsTrimmed(r)
      && r == s[|e| - |r|..|e|]
      && (forall i :: 0 <= i < |e| - |r| ==> IsWhiteSpace(s[i]))
      && (forall i :: |e| <= i < |s| ==> IsWhiteSpace(s[i]))
  {
    var e := TrimEnd(s);
    var r := TrimStart(e);
    TrimEndSpec(s);
    TrimStartSpec(e);
    if r != [] {
      assert r[|r| - 1] == e[|e| - 1];
    }
  }

  /** A string that neither starts nor ends with white space. */
  predicate IsTrimmed(s: string) {
    s == [] || (!IsWhiteSpace(s[0]) && !IsWhiteSpace(s[|s| - 1]))
  }

  lemma TrimEndOfTrimmed(s: string)
    requires s == [] || !IsWhiteSpace(s[|s| - 1])
    ensures TrimEnd(s) == s
  {
  }

  /** Trimming discards any white-space prefix. */
  lemma {:induction false} TrimSkipsLeadingSpace(w: string, s: string)
    requires forall i :: 0 <= i < |w| ==> IsWhiteSpace(w[i])
    requires IsTrimmed(s)
    ensures Trim(w + s) == s
  {
    if s == [] {
      assert w + s == w;
      TrimEndSpec(w);
      assert TrimEnd(w) == [];
    } else {
      TrimEndOfTrimmed(w + s);
      TrimStartOfSpaces(w, s);
    }
  }

  lemma {:induction false} TrimStartOfSpaces(w: string, s: string)
    requires forall i :: 0 <= i < |w| ==> IsWhiteSpace(w[i])
    requires s == [] || !IsWhiteSpace(s[0])
    ensures TrimStart(w + s) == s
  {
    if w != [] {
      assert (w + s)[1..] == w[1..] + s;
      TrimStartOfSpaces(w[1..], s);
    } else {
      assert w + s == s;
    }
  }

  /** ASCII upper-case letters mapped to lower case, everything else kept. */
  function LowerChar(c: char): (l: char)
    ensures !('A' <= l <= 'Z')
  {
    if 'A' <= c <= 'Z' then (c as int + 32) as char else c
  }

  /**
   * `String.prototype.toLowerCase`, restricted to ASCII letters: no other
   * character lower-cases to an ASCII letter other than `i` and `k`.
   */
  function ToLowerCase(s: string): (r: string)
    ensures |r| == |s|
    ensures forall i :: 0 <= i < |s| ==> r[i] == LowerChar(s[i])
  {
    if s == [] then [] else [LowerChar(s[0])] + ToLowerCase(s[1..])
  }
}
