/**
 * The JavaScript string built-ins the script relies on, over `string` (= seq<char>):
 * `trim`, `toLowerCase`, `includes`, `startsWith` and `endsWith`, and the
 * white-space class that both `trim` and the regular-expression escape `\s` use;
 * also `IndexOf`, the first-occurrence search the e-mail scan is built on.
 */
module JsString {

  import opened Optional

  /** ECMAScript WhiteSpace and LineTerminator code points: what `\s` matches and `trim` strips. */
  predicate IsSpace(c: char) {
    c == '\t' || c == '\n' || c == '\U{B}' || c == '\U{C}' || c == '\r' || c == ' ' ||
    c == '\U{A0}' || c == '\U{1680}' || ('\U{2000}' <= c <= '\U{200A}') ||
    c == '\U{2028}' || c == '\U{2029}' || c == '\U{202F}' || c == '\U{205F}' ||
    c == '\U{3000}' || c == '\U{FEFF}'
  }

  predicate AllSpace(s: string) {
    forall i :: 0 <= i < |s| ==> IsSpace(s[i])
  }

  /** `s` starts and ends with a character that is not white space (or is empty). */
  predicate Tight(s: string) {
    s == [] || (!IsSpace(s[0]) && !IsSpace(s[|s| - 1]))
  }

  /** Drops the leading white space. */
  function TrimStart(s: string): string {
    if s != [] && IsSpace(s[0]) then TrimStart(s[1..]) else s
  }

  /** Drops the trailing white space. */
  function TrimEnd(s: string): string {
    if s != [] && IsSpace(s[|s| - 1]) then TrimEnd(s[..|s| - 1]) else s
  }

  /** `TrimStart` leaves a suffix of `s` that does not start with white space, and what it dropped is all white space. */
  lemma {:induction false} TrimStartSpec(s: string)
    ensures var r := TrimStart(s);
      |r| <= |s| && r == s[|s| - |r|..] && AllSpace(s[..|s| - |r|]) && (r == [] || !IsSpace(r[0]))
  {
    if s != [] && IsSpace(s[0]) {
      TrimStartSpec(s[1..]);
      var r := TrimStart(s[1..]);
      assert s[..|s| - |r|] == [s[0]] + s[1..][..|s| - 1 - |r|];
    }
  }

  /** `TrimEnd` leaves a prefix of `s` that does not end with white space, and what it dropped is all white space. */
  lemma {:induction false} TrimEndSpec(s: string)
    ensures var r := TrimEnd(s);
      |r| <= |s| && r == s[..|r|] && AllSpace(s[|r|..]) && (r == [] || !IsSpace(r[|r| - 1]))
  {
    if s != [] && IsSpace(s[|s| - 1]) {
      TrimEndSpec(s[..|s| - 1]);
      var r := TrimEnd(s[..|s| - 1]);
      assert s[|r|..] == s[..|s| - 1][|r|..] + [s[|s| - 1]];
    }
  }

  /** `r` is the part of `s` from `lead` on, and everything around it in `s` is white space. */
  predicate Frames(s: string, r: string, lead: int) {
    0 <= lead && lead + |r| <= |s| && r == s[lead..lead + |r|]
    && AllSpace(s[..lead]) && AllSpace(s[lead + |r|..])
  }

  /**
   * `String.prototype.trim`: `s` is the result framed by two runs of white space,
   * and the result neither starts nor ends with white space.
   */
  function Trim(s: string): (r: string)
    ensures exists lead :: Frames(s, r, lead)
    ensures Tight(r)
    ensures r == [] <==> AllSpace(s)
  {
    var t := TrimStart(s);
    var r := TrimEnd(t);
    TrimStartSpec(s);
    TrimEndSpec(t);
    var lead := |s| - |t|;
    assert Frames(s, r, lead) by {
      assert s[lead + |r|..] == t[|r|..];
    }
    assert r != [] ==> !IsSpace(r[0]) by {
      if r != [] { assert r[0] == t[0]; }
    }
    assert r == [] ==> AllSpace(s) by {
      if r == [] {
        forall i | 0 <= i < |s| ensures IsSpace(s[i]) {
          assert s[i] == s[..lead][i];
        }
      }
    }
    r
  }

  /** Trimming a string that is already tight leaves it alone. */
  lemma {:induction false} TrimTight(s: string)
    requires Tight(s)
    ensures Trim(s) == s
  {
    var r := Trim(s);
    var lead :| Frames(s, r, lead);
  }

  /** A string has at most one tight, non-empty core framed by white space. */
  lemma FramesUnique(x: string, r1: string, l1: int, r2: string, l2: int)
    requires Frames(x, r1, l1) && Tight(r1) && r1 != []
    requires Frames(x, r2, l2) && Tight(r2) && r2 != []
    ensures l1 == l2 && r1 == r2
  {
    assert r1[0] == x[l1] && r2[0] == x[l2];
    assert r1[|r1| - 1] == x[l1 + |r1| - 1] && r2[|r2| - 1] == x[l2 + |r2| - 1];
  }

  /** Trimming removes exactly the white space around a tight, non-empty core. */
  lemma TrimFramed(p: string, s: string, q: string)
    requires AllSpace(p) && AllSpace(q) && Tight(s) && s != []
    ensures Trim(p + s + q) == s
  {
    var x := p + s + q;
    var r := Trim(x);
    var lead :| Frames(x, r, lead);
    assert x[..|p|] == p && x[|p| + |s|..] == q && x[|p|..|p| + |s|] == s;
    assert Frames(x, s, |p|);
    assert x[|p|] == s[0];
    FramesUnique(x, r, lead, s, |p|);
  }

  /** White space on both sides of two strings is white space on both sides of their concatenation. */
  lemma AllSpaceConcat(a: string, b: string)
    ensures AllSpace(a + b) <==> AllSpace(a) && AllSpace(b)
  {
    if AllSpace(a + b) {
      forall i | 0 <= i < |a| ensures IsSpace(a[i]) { assert a[i] == (a + b)[i]; }
      forall i | 0 <= i < |b| ensures IsSpace(b[i]) { assert b[i] == (a + b)[|a| + i]; }
    }
    if AllSpace(a) && AllSpace(b) {
      forall i | 0 <= i < |a + b| ensures IsSpace((a + b)[i]) {
        if i >= |a| { assert (a + b)[i] == b[i - |a|]; }
      }
    }
  }

  /** White space added around a string does not change what trimming leaves of it. */
  lemma TrimPadded(p: string, s: string, q: string)
    requires AllSpace(p) && AllSpace(q)
    ensures Trim(p + s + q) == Trim(s)
  {
    var r := Trim(s);
    var lead :| Frames(s, r, lead);
    if r != [] {
      RegroupPadding(p, s, q, lead, |r|);
      AllSpaceConcat(p, s[..lead]);
      AllSpaceConcat(s[lead + |r|..], q);
      TrimFramed(p + s[..lead], r, s[lead + |r|..] + q);
    } else {
      AllSpaceConcat(p, s);
      AllSpaceConcat(p + s, q);
      assert Trim(p + s + q) == [];
    }
  }

  /** Cutting `s` at `lead` and `lead + n` and moving the outer pieces into the padding. */
  lemma RegroupPadding(p: string, s: string, q: string, lead: int, n: nat)
    requires 0 <= lead && lead + n <= |s|
    ensures p + s + q == (p + s[..lead]) + s[lead..lead + n] + (s[lead + n..] + q)
  {
    assert s == s[..lead] + s[lead..lead + n] + s[lead + n..];
  }

  /** `trim` is idempotent. */
  lemma TrimIdempotent(s: string)
    ensures Trim(Trim(s)) == Trim(s)
  {
    TrimTight(Trim(s));
  }

  // ---------------------------------------------------------------------------
  // toLowerCase

  /**
   * The lower-case mapping of one code point, for Basic Latin, Latin-1 Supplement
   * and Latin Extended-A (the scripts of the site's Slovak text). Capital I with dot
   * above lower-cases to two code points; every other code point maps to one.
   */
  function LowerChar(c: char): (r: string)
    ensures c != '\U{130}' ==> |r| == 1
    ensures 'A' <= c <= 'Z' ==> r == [(c as int + 32) as char]
    ensures 'a' <= c <= 'z' ==> r == [c]
    ensures IsSpace(c) ==> r == [c]
    ensures !IsSpace(c) ==> forall k :: 0 <= k < |r| ==> !IsSpace(r[k])
  {
    var x := c as int;
    if 'A' <= c <= 'Z' then [(x + 32) as char]
    else if 0xC0 <= x <= 0xDE && x != 0xD7 then [(x + 32) as char]
    else if x == 0x130 then ['i', '\U{307}']
    else if (0x100 <= x <= 0x12F || 0x132 <= x <= 0x137 || 0x14A <= x <= 0x177) && x % 2 == 0 then [(x + 1) as char]
    else if (0x139 <= x <= 0x148 || 0x179 <= x <= 0x17E) && x % 2 == 1 then [(x + 1) as char]
    else if x == 0x178 then ['\U{FF}']
    else [c]
  }

  /** `String.prototype.toLowerCase`, one code point at a time. */
  function ToLower(s: string): (r: string)
    ensures |r| >= |s|
  {
    if s == [] then [] else LowerChar(s[0]) + ToLower(s[1..])
  }

  /** A lower-case code point is its own lower case. */
  lemma LowerCharIdempotent(c: char)
    ensures ToLower(LowerChar(c)) == LowerChar(c)
  {
    var r := LowerChar(c);
    if c == '\U{130}' {
      assert r == ['i'] + ['\U{307}'];
      ToLowerAppend(['i'], ['\U{307}']);
    } else {
      assert r[1..] == [];
    }
  }

  lemma {:induction false} ToLowerAppend(a: string, b: string)
    ensures ToLower(a + b) == ToLower(a) + ToLower(b)
  {
    if a != [] {
      assert (a + b)[1..] == a[1..] + b;
      ToLowerAppend(a[1..], b);
    } else {
      assert a + b == b;
    }
  }

  /** `toLowerCase` is idempotent, so lower-casing a query or a text twice changes nothing. */
  lemma {:induction false} ToLowerIdempotent(s: string)
    ensures ToLower(ToLower(s)) == ToLower(s)
  {
    if s != [] {
      ToLowerAppend(LowerChar(s[0]), ToLower(s[1..]));
      LowerCharIdempotent(s[0]);
      ToLowerIdempotent(s[1..]);
    }
  }

  /** Lower-casing keeps white space where it was, so it commutes with `trim` on either side. */
  lemma {:induction false} ToLowerAllSpace(s: string)
    ensures AllSpace(s) <==> AllSpace(ToLower(s))
  {
    if s != [] {
      ToLowerAllSpace(s[1..]);
      var h := LowerChar(s[0]);
      assert ToLower(s) == h + ToLower(s[1..]);
      if AllSpace(s) {
        assert IsSpace(s[0]) && AllSpace(s[1..]);
      } else if AllSpace(s[1..]) {
        assert !IsSpace(s[0]);
        assert ToLower(s)[0] == h[0];
      } else {
        var i :| 0 <= i < |ToLower(s[1..])| && !IsSpace(ToLower(s[1..])[i]);
        assert ToLower(s)[|h| + i] == ToLower(s[1..])[i];
      }
    }
  }

  // ---------------------------------------------------------------------------
  // includes, startsWith, endsWith

  /** `q` occurs in `t` at position `i`. */
  predicate OccursAt(q: string, t: string, i: int) {
    0 <= i && i + |q| <= |t| && t[i..i + |q|] == q
  }

  /** `String.prototype.includes`: some position of `t` holds `q`. */
  function Includes(t: string, q: string): (r: bool)
    ensures r <==> exists i :: OccursAt(q, t, i)
    decreases |t|
  {
    if |q| > |t| then false
    else if t[..|q|] == q then
      assert OccursAt(q, t, 0);
      true
    else
      var r := Includes(t[1..], q);
      assert forall i :: OccursAt(q, t[1..], i) <==> OccursAt(q, t, i + 1) by {
        forall i ensures OccursAt(q, t[1..], i) <==> OccursAt(q, t, i + 1) {
          if 0 <= i && i + |q| <= |t| - 1 { assert t[1..][i..i + |q|] == t[i + 1..i + 1 + |q|]; }
        }
      }
      assert forall i :: OccursAt(q, t, i) ==> i == 0 || OccursAt(q, t[1..], i - 1);
      r
  }

  predicate StartsWith(s: string, prefix: string) {
    |prefix| <= |s| && s[..|prefix|] == prefix
  }

  predicate EndsWith(s: string, suffix: string) {
    |suffix| <= |s| && s[|s| - |suffix|..] == suffix
  }

  /** The first position of `s` holding `c`, or none: the step of the e-mail scan that locates its first `@`. */
  function IndexOf(s: string, c: char): (r: Option<nat>)
    ensures r.Some? ==> r.value < |s| && s[r.value] == c && c !in s[..r.value]
    ensures r.None? ==> c !in s
  {
    if s == [] then None
    else if s[0] == c then Some(0)
    else
      match IndexOf(s[1..], c)
      case None => None
      case Some(k) =>
        assert s[..k + 1] == [s[0]] + s[1..][..k];
        Some(k + 1)
  }
}
