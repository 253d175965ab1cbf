/** String primitives of the JavaScript runtime that the pipeline relies on:
    `String.prototype.trim`, `toLowerCase` on ASCII, `startsWith`, and the
    character class `\s` of regular expressions. */
module Text {

  /** The ECMAScript WhiteSpace and LineTerminator code points. `trim` removes
      exactly these, and the regular-expression class `\s` matches exactly these. */
  predicate IsWs(c: char) {
    || c == '\t' || c == '\n' || c == '\U{B}' || c == '\U{C}' || c == '\r' || c == ' '
    || c == '\U{A0}' || c == '\U{1680}' || ('\U{2000}' <= c <= '\U{200A}')
    || c == '\U{2028}' || c == '\U{2029}' || c == '\U{202F}' || c == '\U{205F}'
    || c == '\U{3000}' || c == '\U{FEFF}'
  }

  predicate AllWs(s: string) {
    forall i :: 0 <= i < |s| ==> IsWs(s[i])
  }

  /** Neither end of `s` is whitespace: what `trim` returns. */
  predicate IsTrimmed(s: string) {
    |s| == 0 || (!IsWs(s[0]) && !IsWs(s[|s| - 1]))
  }

  predicate StartsWith(s: string, p: string) {
    |p| <= |s| && s[..|p|] == p
  }

  /** Length of the longest whitespace prefix of `s`. */
  function LeadingWs(s: string): (n: nat)
    ensures n <= |s|
    ensures AllWs(s[..n])
    ensures n == |s| || !IsWs(s[n])
    decreases |s|
  {
    if |s| == 0 || !IsWs(s[0]) then 0 else 1 + LeadingWs(s[1..])
  }

  /** Length of the longest whitespace suffix of `s`. */
  function TrailingWs(s: string): (n: nat)
    ensures n <= |s|
    ensures AllWs(s[|s| - n..])
    ensures n == |s| || !IsWs(s[|s| - n - 1])
    decreases |s|
  {
    if |s| == 0 || !IsWs(s[|s| - 1]) then 0 else 1 + TrailingWs(s[..|s| - 1])
  }

  /** `String.prototype.trim`: `s` is the result framed by whitespace on both sides. */
  function Trim(s: string): (r: string)
    ensures IsTrimmed(r)
    ensures exists i, j :: 0 <= i <= j <= |s| && r == s[i..j] && AllWs(s[..i]) && AllWs(s[j..])
  {
    var t := s[LeadingWs(s)..];
    var r := t[..|t| - TrailingWs(t)];
    assert r == s[LeadingWs(s)..|s| - TrailingWs(t)];
    assert |r| > 0 ==> r[0] == s[LeadingWs(s)];
    r
  }

  lemma LeadingWsAfter(a: string, u: string)
    requires AllWs(a)
    ensures LeadingWs(a + u) == |a| + LeadingWs(u)
    decreases |a|
  {
    if |a| > 0 {
      assert (a + u)[1..] == a[1..] + u;
      LeadingWsAfter(a[1..], u);
    } else {
      assert a + u == u;
    }
  }

  lemma TrailingWsBefore(u: string, b: string)
    requires AllWs(b)
    ensures TrailingWs(u + b) == TrailingWs(u) + |b|
    decreases |b|
  {
    if |b| > 0 {
      assert (u + b)[..|u + b| - 1] == u + b[..|b| - 1];
      TrailingWsBefore(u, b[..|b| - 1]);
    } else {
      assert u + b == u;
    }
  }

  /** The frame of `Trim` is unique: a trimmed core with whitespace around it is what `Trim` returns. */
  lemma {:induction false} TrimFrame(a: string, t: string, b: string)
    requires AllWs(a) && AllWs(b) && IsTrimmed(t)
    ensures Trim(a + t + b) == t
  {
    var s := a + t + b;
    assert s == a + (t + b);
    LeadingWsAfter(a, t + b);
    if |t| == 0 {
      assert t + b == b;
      assert LeadingWs(b) == |b|;
    } else {
      assert (t + b)[0] == t[0];
      assert LeadingWs(t + b) == 0;
      assert s[|a|..] == t + b;
      TrailingWsBefore(t, b);
      assert TrailingWs(t) == 0;
      assert (t + b)[..|t|] == t;
    }
  }

  lemma {:induction false} TrailingWsBound(u: string, k: nat)
    requires 0 < k <= |u| && !IsWs(u[k - 1])
    ensures TrailingWs(u) <= |u| - k
    decreases |u|
  {
    if IsWs(u[|u| - 1]) {
      var v := u[..|u| - 1];
      assert k < |u|;
      assert v[k - 1] == u[k - 1];
      TrailingWsBound(v, k);
    }
  }

  /** Trimming keeps a head that starts and ends with non-whitespace. */
  lemma TrimKeepsHead(u: string, k: nat)
    requires 0 < k <= |u| && !IsWs(u[0]) && !IsWs(u[k - 1])
    ensures k <= |Trim(u)| && Trim(u)[..k] == u[..k]
  {
    assert LeadingWs(u) == 0;
    assert u[0..] == u;
    TrailingWsBound(u, k);
  }

  /** Trimming a trimmed string changes nothing; in particular `Trim` is idempotent. */
  lemma TrimTrimmed(s: string)
    requires IsTrimmed(s)
    ensures Trim(s) == s
  {
    TrimFrame([], s, []);
    assert [] + s + [] == s;
  }

  /** ASCII `toLowerCase`. */
  function LowerChar(c: char): char {
    if 'A' <= c <= 'Z' then (c as int + 32) as char else c
  }

  function Lower(s: string): (r: string)
    ensures |r| == |s|
    ensures forall i :: 0 <= i < |s| ==> r[i] == LowerChar(s[i])
  {
    seq(|s|, i requires 0 <= i < |s| => LowerChar(s[i]))
  }

  /** The text `s` contains `p` starting at some position. */
  predicate Occurs(p: string, s: string) {
    exists i :: 0 <= i <= |s| && StartsWith(s[i..], p)
  }

  lemma OccursAt(p: string, s: string, i: nat)
    requires i <= |s| && StartsWith(s[i..], p)
    ensures Occurs(p, s)
  {
  }

  /** `p` occurring in a slice of `s` occurs in `s`. */
  lemma OccursInSlice(p: string, s: string, a: nat, b: nat)
    requires a <= b <= |s|
    ensures Occurs(p, s[a..b]) ==> Occurs(p, s)
  {
    if Occurs(p, s[a..b]) {
      var i :| 0 <= i <= b - a && StartsWith(s[a..b][i..], p);
      assert s[a..b][i..][..|p|] == s[a + i..][..|p|];
      OccursAt(p, s, a + i);
    }
  }
}
