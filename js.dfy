/** The few JavaScript values and String built-ins the handlers depend on:
    `undefined` versus a value, truthiness of a string, `trim`, `toLowerCase`,
    `toUpperCase`, and `replace` with a string pattern. */
module Js {

  /** A value that may be `undefined` (or `null`). */
  datatype Option<T> = None | Some(value: T)

  /** `!!v` for a string that may be missing: `undefined` and `""` are falsy. */
  predicate Truthy(v: Option<string>) {
    v.Some? && v.value != ""
  }

  // ---------------------------------------------------------------------------
  // String.prototype.trim
  // ---------------------------------------------------------------------------

  /** The code points `trim` strips: ECMAScript's WhiteSpace and LineTerminator. */
  predicate IsWhiteSpace(c: char) {
    var n := c as int;
    n == 0x09 || n == 0x0A || n == 0x0B || n == 0x0C || n == 0x0D || n == 0x20
    || n == 0xA0 || n == 0x1680 || (0x2000 <= n <= 0x200A)
    || n == 0x2028 || n == 0x2029 || n == 0x202F || n == 0x205F
    || n == 0x3000 || n == 0xFEFF
  }

  /** True when every character of `s` is white space. */
  predicate AllWhiteSpace(s: string) {
    forall i :: 0 <= i < |s| ==> IsWhiteSpace(s[i])
  }

  /** True when `s` neither starts nor ends with white space. */
  predicate Unpadded(s: string) {
    s == [] || (!IsWhiteSpace(s[0]) && !IsWhiteSpace(s[|s| - 1]))
  }

  /** How many white-space characters `s` starts with. */
  function LeadingWhiteSpace(s: string): (n: nat)
    ensures n <= |s| && AllWhiteSpace(s[..n])
    ensures n == |s| || !IsWhiteSpace(s[n])
  {
    if s != [] && IsWhiteSpace(s[0]) then
      var m := LeadingWhiteSpace(s[1..]);
      WhiteSpaceHead(s, m);
      1 + m
    else 0
  }

  function TrimStart(s: string): (r: string)
    ensures |r| <= |s| && r == s[|s| - |r|..]
    ensures AllWhiteSpace(s[..|s| - |r|])
    ensures r == [] || !IsWhiteSpace(r[0])
  {
    s[LeadingWhiteSpace(s)..]
  }

  lemma WhiteSpaceHead(s: string, k: nat)
    requires k < |s| && IsWhiteSpace(s[0]) && AllWhiteSpace(s[1..][..k])
    ensures AllWhiteSpace(s[..k + 1])
  {
    var head, rest := s[..k + 1], s[1..][..k];
    forall i | 0 <= i < |head| ensures IsWhiteSpace(head[i]) {
      if i > 0 {
        assert head[i] == rest[i - 1];
      }
    }
  }

  function TrimEnd(s: string): (r: string)
    ensures |r| <= |s| && r == s[..|r|]
    ensures AllWhiteSpace(s[|r|..])
    ensures r == [] || !IsWhiteSpace(r[|r| - 1])
  {
    if s != [] && IsWhiteSpace(s[|s| - 1]) then
      var r := TrimEnd(s[..|s| - 1]);
      WhiteSpaceTail(s, |r|);
      assert s[..|s| - 1][..|r|] == s[..|r|];
      r
    else s
  }

  lemma WhiteSpaceTail(s: string, k: nat)
    requires k < |s| && IsWhiteSpace(s[|s| - 1]) && AllWhiteSpace(s[..|s| - 1][k..])
    ensures AllWhiteSpace(s[k..])
  {
    var tail, rest := s[k..], s[..|s| - 1][k..];
    forall i | 0 <= i < |tail| ensures IsWhiteSpace(tail[i]) {
      if i < |rest| {
        assert tail[i] == rest[i];
      }
    }
  }

  /** `s.trim()`: `s` without its leading and trailing white space. */
  function Trim(s: string): (r: string)
    ensures Unpadded(r)
    ensures |r| <= |s|
  {
    TrimEnd(TrimStart(s))
  }

  lemma {:induction false} TrimStartPadded(pre: string, rest: string)
    requires AllWhiteSpace(pre)
    requires rest == [] || !IsWhiteSpace(rest[0])
    ensures TrimStart(pre + rest) == rest
  {
    if pre != [] {
      assert (pre + rest)[1..] == pre[1..] + rest;
      TrimStartPadded(pre[1..], rest);
    }
  }

  lemma {:induction false} TrimEndPadded(rest: string, suf: string)
    requires AllWhiteSpace(suf)
    requires rest == [] || !IsWhiteSpace(rest[|rest| - 1])
    ensures TrimEnd(rest + suf) == rest
  {
    if suf != [] {
      var n := |suf| - 1;
      assert (rest + suf)[..|rest + suf| - 1] == rest + suf[..n];
      TrimEndPadded(rest, suf[..n]);
    }
  }

  /** Trim removes exactly the white-space padding around an unpadded core:
      this characterises `trim` completely, and makes it idempotent. */
  lemma TrimPadded(pre: string, core: string, suf: string)
    requires AllWhiteSpace(pre) && AllWhiteSpace(suf) && Unpadded(core)
    ensures Trim(pre + core + suf) == core
  {
    if core == [] {
      assert pre + core + suf == pre + suf;
      if suf == [] {
        assert pre + suf == pre + [];
        TrimStartPadded(pre, []);
      } else {
        assert IsWhiteSpace((pre + suf)[|pre|]);
        assert AllWhiteSpace(pre + suf);
        TrimStartPadded(pre + suf, []);
        TrimEndPadded([], []);
      }
    } else {
      assert pre + core + suf == pre + (core + suf);
      TrimStartPadded(pre, core + suf);
      TrimEndPadded(core, suf);
    }
  }

  lemma AllWhiteSpaceConcat(a: string, b: string)
    requires AllWhiteSpace(a) && AllWhiteSpace(b)
    ensures AllWhiteSpace(a + b)
  {
    forall i | 0 <= i < |a + b| ensures IsWhiteSpace((a + b)[i]) {
      if i >= |a| { assert (a + b)[i] == b[i - |a|]; }
    }
  }

  lemma TrimStartSplit(s: string)
    ensures s == s[..|s| - |TrimStart(s)|] + TrimStart(s)
  {
    var k := |s| - |TrimStart(s)|;
    assert s == s[..k] + s[k..];
  }

  lemma TrimEndSplit(a: string)
    ensures a == TrimEnd(a) + a[|TrimEnd(a)|..]
  {
    var k := |TrimEnd(a)|;
    assert a == a[..k] + a[k..];
  }

  /** Every string is its trim with white-space padding on either side. */
  lemma TrimSplit(s: string) returns (lead: string, trail: string)
    ensures AllWhiteSpace(lead) && AllWhiteSpace(trail)
    ensures s == lead + Trim(s) + trail
  {
    var a := TrimStart(s);
    var t := TrimEnd(a);
    lead := s[..|s| - |a|];
    trail := a[|t|..];
    TrimStartSplit(s);
    TrimEndSplit(a);
    Reassociate(s, lead, a, t, trail);
  }

  lemma Reassociate(s: string, lead: string, a: string, t: string, trail: string)
    requires s == lead + a && a == t + trail
    ensures s == lead + t + trail
  {
  }

  lemma Regroup(a: string, b: string, c: string, d: string, e: string)
    ensures a + (b + c + d) + e == (a + b) + c + (d + e)
  {
  }

  /** Extra white space around a string does not change its trim. */
  lemma TrimAbsorbsPadding(pre: string, s: string, suf: string)
    requires AllWhiteSpace(pre) && AllWhiteSpace(suf)
    ensures Trim(pre + s + suf) == Trim(s)
  {
    var lead, trail := TrimSplit(s);
    AllWhiteSpaceConcat(pre, lead);
    AllWhiteSpaceConcat(trail, suf);
    Regroup(pre, lead, Trim(s), trail, suf);
    TrimPadded(pre + lead, Trim(s), trail + suf);
  }

  lemma TrimIdempotent(s: string)
    ensures Trim(Trim(s)) == Trim(s)
  {
    TrimUnpadded(Trim(s));
  }

  /** An unpadded string is its own trim. */
  lemma TrimUnpadded(t: string)
    requires Unpadded(t)
    ensures Trim(t) == t
  {
    assert [] + t == t && t + [] == t;
    TrimStartPadded([], t);
    TrimEndPadded(t, []);
  }

  // ---------------------------------------------------------------------------
  // String.prototype.toLowerCase / toUpperCase
  // ---------------------------------------------------------------------------

  predicate IsAsciiUpper(c: char) { 'A' <= c <= 'Z' }
  predicate IsAsciiLower(c: char) { 'a' <= c <= 'z' }

  function LowerChar(c: char): (r: char)
    ensures !IsAsciiUpper(r)
  {
    if IsAsciiUpper(c) then (c as int + 32) as char else c
  }

  function UpperChar(c: char): (r: char)
    ensures !IsAsciiLower(r)
  {
    if IsAsciiLower(c) then (c as int - 32) as char else c
  }

  /** `s.toLowerCase()`: the same length, every letter lower-case, nothing else touched. */
  function ToLowerCase(s: string): (r: string)
    ensures |r| == |s|
    ensures forall i :: 0 <= i < |s| ==> !IsAsciiUpper(r[i])
    ensures forall i :: 0 <= i < |s| && !IsAsciiUpper(s[i]) ==> r[i] == s[i]
    ensures forall i :: 0 <= i < |s| ==> r[i] == LowerChar(s[i])
  {
    if s == [] then [] else [LowerChar(s[0])] + ToLowerCase(s[1..])
  }

  /** `s.toUpperCase()`: the same length, every letter upper-case, nothing else touched. */
  function ToUpperCase(s: string): (r: string)
    ensures |r| == |s|
    ensures forall i :: 0 <= i < |s| ==> !IsAsciiLower(r[i])
    ensures forall i :: 0 <= i < |s| && !IsAsciiLower(s[i]) ==> r[i] == s[i]
    ensures forall i :: 0 <= i < |s| ==> r[i] == UpperChar(s[i])
  {
    if s == [] then [] else [UpperChar(s[0])] + ToUpperCase(s[1..])
  }

  /** Two strings that differ only in the case of their letters. */
  ghost predicate SameIgnoringCase(s: string, t: string) {
    |s| == |t| && forall i :: 0 <= i < |s| ==> UpperChar(s[i]) == UpperChar(t[i])
  }

  /** Upper-casing identifies exactly the strings that differ only in letter case. */
  lemma UpperCaseIdentifiesCaseVariants(s: string, t: string)
    ensures ToUpperCase(s) == ToUpperCase(t) <==> SameIgnoringCase(s, t)
  {
    if ToUpperCase(s) == ToUpperCase(t) {
      forall i | 0 <= i < |s| ensures UpperChar(s[i]) == UpperChar(t[i]) {
        assert ToUpperCase(s)[i] == ToUpperCase(t)[i];
      }
    }
  }

  // ---------------------------------------------------------------------------
  // String.prototype.indexOf / replace with a string pattern
  // ---------------------------------------------------------------------------

  predicate OccursAt(s: string, p: string, i: nat) {
    i + |p| <= |s| && s[i..i + |p|] == p
  }

  /** The first position at or after `from` where `p` occurs in `s`. */
  function IndexFrom(s: string, p: string, from: nat): (r: Option<nat>)
    requires from <= |s|
    decreases |s| - from
    ensures r.Some? ==> from <= r.value && OccursAt(s, p, r.value)
    ensures r.Some? ==> forall k :: from <= k < r.value ==> !OccursAt(s, p, k)
    ensures r.None? ==> forall k :: from <= k <= |s| ==> !OccursAt(s, p, k)
  {
    if OccursAt(s, p, from) then Some(from)
    else if from == |s| then None
    else IndexFrom(s, p, from + 1)
  }

  /** `s.indexOf(p)`: the first occurrence of `p` in `s`, if any. */
  function IndexOf(s: string, p: string): (r: Option<nat>)
    ensures r.Some? ==> OccursAt(s, p, r.value)
    ensures r.Some? ==> forall k :: 0 <= k < r.value ==> !OccursAt(s, p, k)
    ensures r.None? <==> forall k :: 0 <= k <= |s| ==> !OccursAt(s, p, k)
  {
    IndexFrom(s, p, 0)
  }

  /** `s.replace(p, "")` with a string pattern: removes the FIRST occurrence
      of `p`, wherever it is; `s` itself when `p` does not occur. */
  function RemoveFirst(s: string, p: string): (r: string)
    ensures IndexOf(s, p).None? ==> r == s
    ensures IndexOf(s, p).Some? ==>
              var i := IndexOf(s, p).value; r == s[..i] + s[i + |p|..]
  {
    match IndexOf(s, p)
    case None => s
    case Some(i) => s[..i] + s[i + |p|..]
  }

  lemma RemoveFirstPrefix(p: string, rest: string)
    ensures RemoveFirst(p + rest, p) == rest
  {
    assert OccursAt(p + rest, p, 0);
    assert (p + rest)[|p|..] == rest;
  }
}
