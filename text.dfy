/** The string operations the wallet service relies on, with JavaScript's
    meaning: `String.prototype.trim`, truthiness of an optional string, and
    the default ordering `Array.prototype.sort` uses for strings. */
module Text {
  import opened Wrappers

  /** A character that `String.prototype.trim` strips: the WhiteSpace and
      LineTerminator code points of ECMAScript (TAB, VT, FF, ZWNBSP, every
      space separator, LF, CR, LS and PS). */
  predicate IsJsWhitespace(c: char) {
    || c == '\t' || c == '\n' || c == '\U{000B}' || c == '\U{000C}' || c == '\r'
    || c == ' ' || c == '\U{00A0}' || c == '\U{1680}'
    || ('\U{2000}' <= c <= '\U{200A}')
    || c == '\U{2028}' || c == '\U{2029}' || c == '\U{202F}' || c == '\U{205F}'
    || c == '\U{3000}' || c == '\U{FEFF}'
  }

  /** `s.trimStart()`. */
  function TrimStart(s: string): (r: string)
    ensures |r| <= |s|
  {
    if s != [] && IsJsWhitespace(s[0]) then TrimStart(s[1..]) else s
  }

  /** `s.trimEnd()`. */
  function TrimEnd(s: string): (r: string)
    ensures |r| <= |s|
  {
    if s != [] && IsJsWhitespace(s[|s| - 1]) then TrimEnd(s[..|s| - 1]) else s
  }

  /** `s.trim()`. */
  function Trim(s: string): (r: string)
    ensures |r| <= |s|
  {
    TrimEnd(TrimStart(s))
  }

  /** `trimStart` keeps the longest suffix that does not start with
      whitespace: everything cut off is whitespace. */
  lemma {:induction false} TrimStartCuts(s: string)
    ensures var r := TrimStart(s);
      && r == s[|s| - |r|..] && AllWhitespace(s[..|s| - |r|])
      && (r == [] || !IsJsWhitespace(r[0]))
  {
    if s != [] && IsJsWhitespace(s[0]) {
      TrimStartCuts(s[1..]);
      var r := TrimStart(s[1..]);
      assert s[..|s| - |r|] == [s[0]] + s[1..][..|s| - 1 - |r|];
    }
  }

  /** `trimEnd` keeps the longest prefix that does not end with whitespace:
      everything cut off is whitespace. */
  lemma {:induction false} TrimEndCuts(s: string)
    ensures var r := TrimEnd(s);
      && r == s[..|r|] && AllWhitespace(s[|r|..])
      && (r == [] || !IsJsWhitespace(r[|r| - 1]))
  {
    if s != [] && IsJsWhitespace(s[|s| - 1]) {
      TrimEndCuts(s[..|s| - 1]);
      var r := TrimEnd(s[..|s| - 1]);
      assert s[|r|..] == s[..|s| - 1][|r|..] + [s[|s| - 1]];
    }
  }

  /** `trim` cuts the whitespace off both ends: what is left is a slice of
      `s` with only whitespace around it, empty exactly when `s` is all
      whitespace, and otherwise starting and ending with a character that is
      not whitespace. */
  lemma TrimCuts(s: string)
    ensures var r := Trim(s);
      && (exists i :: 0 <= i <= |s| - |r| && s[i..i + |r|] == r && AllWhitespace(s[..i]) && AllWhitespace(s[i + |r|..]))
      && (r == [] <==> AllWhitespace(s))
      && (r != [] ==> !IsJsWhitespace(r[0]) && !IsJsWhitespace(r[|r| - 1]))
  {
    TrimStartCuts(s);
    TrimEndCuts(TrimStart(s));
    TrimParts(s, TrimStart(s), Trim(s));
  }

  /** What the two halves of `Trim` promise, put together. */
  lemma TrimParts(s: string, t: string, r: string)
    requires |t| <= |s| && t == s[|s| - |t|..] && AllWhitespace(s[..|s| - |t|])
    requires |r| <= |t| && r == t[..|r|] && AllWhitespace(t[|r|..])
    requires t == [] || !IsJsWhitespace(t[0])
    requires r == [] || !IsJsWhitespace(r[|r| - 1])
    ensures exists i :: 0 <= i <= |s| - |r| && s[i..i + |r|] == r && AllWhitespace(s[..i]) && AllWhitespace(s[i + |r|..])
    ensures r == [] <==> AllWhitespace(s)
    ensures r != [] ==> !IsJsWhitespace(r[0]) && !IsJsWhitespace(r[|r| - 1])
  {
    var i := |s| - |t|;
    if r != [] { assert r[0] == t[0]; }
    Slice(s, i, |r|);
    DropDrop(s, i, |r|);
    Split(s, i);
    Split(t, |r|);
    WhitespaceConcat(s[..i], t);
    WhitespaceConcat(r, t[|r|..]);
    if r != [] { assert !AllWhitespace(r); }
    assert s[i..i + |r|] == r && AllWhitespace(s[..i]) && AllWhitespace(s[i + |r|..]);
  }

  lemma Slice(s: string, i: nat, n: nat)
    requires i + n <= |s|
    ensures s[i..i + n] == s[i..][..n]
  {
  }

  lemma DropDrop(s: string, i: nat, n: nat)
    requires i + n <= |s|
    ensures s[i..][n..] == s[i + n..]
  {
  }

  lemma Split(s: string, n: nat)
    requires n <= |s|
    ensures s == s[..n] + s[n..]
  {
  }

  lemma WhitespaceConcat(x: string, y: string)
    ensures AllWhitespace(x + y) <==> AllWhitespace(x) && AllWhitespace(y)
  {
    if AllWhitespace(x) && AllWhitespace(y) {
      forall k | 0 <= k < |x + y| ensures IsJsWhitespace((x + y)[k]) {
        if k >= |x| { assert (x + y)[k] == y[k - |x|]; }
      }
    }
    if AllWhitespace(x + y) {
      forall k | 0 <= k < |x| ensures IsJsWhitespace(x[k]) {
        assert (x + y)[k] == x[k];
      }
      forall k | 0 <= k < |y| ensures IsJsWhitespace(y[k]) {
        assert (x + y)[|x| + k] == y[k];
      }
    }
  }

  /** The guard `!s || s.trim() === ''` of the value-object constructors:
      the string is empty (hence falsy) or trims to the empty string. */
  predicate IsBlank(s: string) {
    s == "" || Trim(s) == ""
  }

  /** A string is blank exactly when every character of it is whitespace
      (the empty string included). */
  lemma BlankIffAllWhitespace(s: string)
    ensures IsBlank(s) <==> AllWhitespace(s)
  {
    TrimCuts(s);
  }

  predicate AllWhitespace(s: string) {
    forall i :: 0 <= i < |s| ==> IsJsWhitespace(s[i])
  }

  /** JavaScript truthiness of an optional string: present and non-empty. */
  predicate Truthy(o: Option<string>) {
    o.Some? && o.value != ""
  }

  /** `a` is a prefix of `b`, or the first character where they differ is
      smaller in `a`. */
  ghost predicate PrefixOrBelow(a: string, b: string) {
    || (|a| <= |b| && a == b[..|a|])
    || exists k :: 0 <= k < |a| && k < |b| && a[..k] == b[..k] && a[k] < b[k]
  }

  /** Lexicographic order of strings by characters, the order the default
      comparison of `Array.prototype.sort` puts strings in. */
  predicate LexLe(a: string, b: string): (r: bool)
    ensures r <==> PrefixOrBelow(a, b)
  {
    if a == [] then
      true
    else if b == [] then
      false
    else if a[0] < b[0] then
      assert a[..0] == b[..0];
      true
    else if a[0] == b[0] then
      ShiftOrder(a, b);
      LexLe(a[1..], b[1..])
    else
      false
  }

  /** Cutting off an equal first character does not change the order. */
  lemma ShiftOrder(a: string, b: string)
    requires a != [] && b != [] && a[0] == b[0]
    ensures PrefixOrBelow(a, b) <==> PrefixOrBelow(a[1..], b[1..])
  {
    ShiftPrefix(a, b);
    ShiftBelow(a, b);
  }

  lemma ShiftPrefix(a: string, b: string)
    requires a != [] && b != [] && a[0] == b[0]
    ensures (|a| <= |b| && a == b[..|a|]) <==> (|a| - 1 <= |b| - 1 && a[1..] == b[1..][..|a| - 1])
  {
    if |a| <= |b| {
      assert a == [a[0]] + a[1..];
      assert b[..|a|] == [b[0]] + b[1..][..|a| - 1];
    }
  }

  lemma ShiftBelow(a: string, b: string)
    requires a != [] && b != [] && a[0] == b[0]
    ensures (exists k :: 0 <= k < |a| && k < |b| && a[..k] == b[..k] && a[k] < b[k])
        <==> (exists k :: 0 <= k < |a| - 1 && k < |b| - 1 && a[1..][..k] == b[1..][..k] && a[1..][k] < b[1..][k])
  {
    var a', b' := a[1..], b[1..];
    if k :| 0 <= k < |a| && k < |b| && a[..k] == b[..k] && a[k] < b[k] {
      assert k != 0;
      assert a'[..k - 1] == a[1..k] && b'[..k - 1] == b[1..k];
      assert a'[k - 1] < b'[k - 1];
    }
    if k :| 0 <= k < |a'| && k < |b'| && a'[..k] == b'[..k] && a'[k] < b'[k] {
      assert a[..k + 1] == [a[0]] + a'[..k] && b[..k + 1] == [b[0]] + b'[..k];
      assert a[k + 1] < b[k + 1];
    }
  }

  lemma {:induction false} LexLeTotal(a: string, b: string)
    ensures LexLe(a, b) || LexLe(b, a)
  {
    if a != [] && b != [] && a[0] == b[0] {
      LexLeTotal(a[1..], b[1..]);
    }
  }
}
