/** The validator and normaliser of generated Mermaid text (lib/diagram-converter.ts):
    fence stripping and trimming, the case-insensitive check of the leading
    diagram keyword, and the collapse of runs of blank lines. */
module DiagramConverter {
  import opened Wrappers
  import opened Text
  import opened Types

  const MermaidFence: string := "```mermaid"
  const Fence: string := "```"

  // ---------------------------------------------------------------------
  // Fence removal: every fence goes, with at most one newline after it
  // ---------------------------------------------------------------------

  /** Removes every occurrence of `fence`, together with at most one newline
      directly after it, scanning left to right without overlaps as a global
      regular-expression replace does. */
  function StripFence(s: string, fence: string): (r: string)
    requires |fence| > 0
    ensures |r| <= |s|
    ensures forall c :: c in r ==> c in s
    decreases |s|
  {
    if |s| == 0 then []
    else if StartsWith(s, fence) then
      var rest := s[|fence|..];
      var tail := if |rest| > 0 && rest[0] == '\n' then rest[1..] else rest;
      assert forall c :: c in tail ==> c in s;
      StripFence(tail, fence)
    else
      [s[0]] + StripFence(s[1..], fence)
  }

  /** The cleaning both the validator and the model client apply: trim,
      remove "```mermaid" fences, remove bare "```" fences, trim again. */
  function Clean(code: string): (r: string)
    ensures IsTrimmed(r)
    ensures !Occurs(Fence, r)
    ensures '`' !in code ==> r == Trim(code)
  {
    var stripped := StripFence(StripFence(Trim(code), MermaidFence), Fence);
    StripFenceLeavesNoFence(StripFence(Trim(code), MermaidFence));
    NoFenceInTrim(stripped);
    if '`' !in code then
      NoBacktickNoFence(code);
      NoFenceInTrim(code);
      NoFenceStripsNothing(Trim(code));
      TrimTrimmed(Trim(code));
      Trim(stripped)
    else
      Trim(stripped)
  }

  /** A run of `k` backticks at the start of `s`. */
  predicate TickRun(s: string, k: int) {
    0 <= k <= |s| && forall i :: 0 <= i < k ==> s[i] == '`'
  }

  lemma FenceIsTickRun(s: string)
    ensures StartsWith(s, Fence) <==> TickRun(s, 3)
  {
    if TickRun(s, 3) {
      assert s[..3] == Fence;
    }
  }

  lemma NoBacktickNoFence(s: string)
    requires '`' !in s
    ensures !Occurs(Fence, s)
  {
    forall i | 0 <= i <= |s|
      ensures !StartsWith(s[i..], Fence)
    {
      FenceIsTickRun(s[i..]);
      if i < |s| {
        assert s[i] in s;
      }
    }
  }

  lemma NoFenceInTrim(s: string)
    requires !Occurs(Fence, s)
    ensures !Occurs(Fence, Trim(s))
  {
    var i, j :| 0 <= i <= j <= |s| && Trim(s) == s[i..j] && AllWs(s[..i]) && AllWs(s[j..]);
    if Occurs(Fence, s[i..j]) {
      OccursInSlice(Fence, s, i, j);
    }
  }

  /** Without "```" there is nothing for either fence pattern to remove. */
  lemma NoFenceStripsNothing(s: string)
    requires !Occurs(Fence, s)
    ensures StripFence(s, MermaidFence) == s
    ensures StripFence(s, Fence) == s
  {
    StripAbsent(s, Fence);
    NoFenceNoMermaidFence(s);
    StripAbsent(s, MermaidFence);
  }

  /** "```mermaid" begins with "```", so it cannot occur where "```" does not. */
  lemma NoFenceNoMermaidFence(s: string)
    requires !Occurs(Fence, s)
    ensures !Occurs(MermaidFence, s)
  {
  }

  /** A fence that does not occur is not removed. */
  lemma {:induction false} StripAbsent(s: string, fence: string)
    requires |fence| > 0
    requires !Occurs(fence, s)
    ensures StripFence(s, fence) == s
    decreases |s|
  {
    if |s| > 0 {
      assert s[0..] == s;
      forall i | 0 <= i <= |s| - 1
        ensures !StartsWith(s[1..][i..], fence)
      {
        assert s[1..][i..] == s[i + 1..];
      }
      StripAbsent(s[1..], fence);
    }
  }

  /** Backticks at the head of a stripped text come from backticks at the
      head of its input (for runs shorter than the fence). */
  lemma {:induction false} StripFenceHead(t: string, k: nat)
    requires k <= 2
    ensures TickRun(StripFence(t, Fence), k) ==> TickRun(t, k)
    decreases |t|
  {
    if k > 0 && |t| > 0 {
      if StartsWith(t, Fence) {
        FenceIsTickRun(t);
      } else {
        var r := StripFence(t, Fence);
        var r' := StripFence(t[1..], Fence);
        assert r == [t[0]] + r';
        if TickRun(r, k) {
          forall i | 0 <= i < k - 1
            ensures r'[i] == '`'
          {
            assert r'[i] == r[i + 1];
          }
        }
        StripFenceHead(t[1..], k - 1);
        if TickRun(r, k) {
          assert TickRun(r', k - 1);
          assert TickRun(t[1..], k - 1);
          assert t[0] == r[0];
          forall i | 0 <= i < k
            ensures t[i] == '`'
          {
            if i > 0 { assert t[i] == t[1..][i - 1]; }
          }
        }
      }
    }
  }

  /** After removing every "```", none is left: removal never joins
      backticks into a new fence, because the scan is leftmost. */
  lemma {:induction false} StripFenceLeavesNoFence(s: string)
    ensures !Occurs(Fence, StripFence(s, Fence))
    decreases |s|
  {
    var r := StripFence(s, Fence);
    if |s| == 0 {
      assert r == [];
    } else if StartsWith(s, Fence) {
      var rest := s[|Fence|..];
      var tail := if |rest| > 0 && rest[0] == '\n' then rest[1..] else rest;
      StripFenceLeavesNoFence(tail);
    } else {
      var r' := StripFence(s[1..], Fence);
      StripFenceLeavesNoFence(s[1..]);
      assert r == [s[0]] + r';
      forall i | 0 <= i <= |r|
        ensures !StartsWith(r[i..], Fence)
      {
        if i > 0 {
          assert r[i..] == r'[i - 1..];
          assert !StartsWith(r'[i - 1..], Fence);
        } else {
          FenceIsTickRun(r);
          FenceIsTickRun(s);
          StripFenceHead(s[1..], 2);
          if |r| >= 3 {
            assert r[1] == r'[0] && r[2] == r'[1];
          }
        }
      }
    }
  }

  // ---------------------------------------------------------------------
  // Keyword check
  // ---------------------------------------------------------------------

  /** The accepted leading keywords of each diagram kind, in the order they are tried. */
  function ExpectedStarts(mt: MapType): seq<string> {
    match mt
    case Mindmap => ["mindmap"]
    case Concept => ["graph TD", "graph LR", "graph"]
    case Flowchart => ["flowchart TD", "flowchart LR", "flowchart"]
    case Sequence => ["sequenceDiagram"]
  }

  /** The lowercased `code` starts with the lowercased form of an accepted keyword of `mt`. */
  ghost predicate Accepts(code: string, mt: MapType) {
    exists p :: p in ExpectedStarts(mt) && StartsWith(Lower(code), Lower(p))
  }

  /** Whether the lowered text starts with the lowered form of some entry of `starts`, trying them in order. */
  function SomeStartMatches(lowered: string, starts: seq<string>): (b: bool)
    ensures b <==> exists p :: p in starts && StartsWith(lowered, Lower(p))
  {
    if |starts| == 0 then false
    else StartsWith(lowered, Lower(starts[0])) || SomeStartMatches(lowered, starts[1..])
  }

  /** The parts in order, with `sep` between neighbours. */
  function Join(parts: seq<string>, sep: string): string {
    if |parts| == 0 then ""
    else if |parts| == 1 then parts[0]
    else parts[0] + sep + Join(parts[1..], sep)
  }

  lemma JoinThree(a: string, b: string, c: string, sep: string)
    ensures Join([a, b, c], sep) == a + sep + b + sep + c
  {
    assert [a, b, c][1..] == [b, c];
    assert [b, c][1..] == [c];
    assert Join([b, c], sep) == b + sep + c;
    assert Join([a, b, c], sep) == a + sep + (b + sep + c);
  }

  /** The message of the error thrown for a wrong leading keyword. */
  function SyntaxMessage(mt: MapType): string {
    "Invalid " + MapTypeName(mt) + " diagram syntax. Expected to start with "
      + Join(ExpectedStarts(mt), " or ")
  }

  /** `validateMermaidCode`: the cleaned text when its leading keyword fits
      `mt`, otherwise the syntax error. */
  function Validate(code: string, mt: MapType): (r: Result<string, string>)
    ensures r.Ok? <==> Accepts(Clean(code), mt)
    ensures r.Ok? ==> r.value == Clean(code)
    ensures r.Err? ==> r.error == SyntaxMessage(mt)
  {
    var cleaned := Clean(code);
    if SomeStartMatches(Lower(cleaned), ExpectedStarts(mt)) then Ok(cleaned)
    else Err(SyntaxMessage(mt))
  }

  lemma LowerLiterals()
    ensures Lower("mindmap") == "mindmap"
    ensures Lower("graph TD") == "graph td"
    ensures Lower("graph LR") == "graph lr"
    ensures Lower("graph") == "graph"
    ensures Lower("flowchart TD") == "flowchart td"
    ensures Lower("flowchart LR") == "flowchart lr"
    ensures Lower("flowchart") == "flowchart"
    ensures Lower("sequenceDiagram") == "sequencediagram"
  {
  }

  lemma StartsWithLonger(s: string, p: string, q: string)
    requires StartsWith(s, p + q)
    ensures StartsWith(s, p)
  {
    assert s[..|p|] == (p + q)[..|p|];
  }

  /** The lowercase bare keyword of each kind. */
  function Keyword(mt: MapType): string {
    match mt
    case Mindmap => "mindmap"
    case Concept => "graph"
    case Flowchart => "flowchart"
    case Sequence => "sequencediagram"
  }

  /** Because matching ignores case and the bare keywords are in the tables,
      each kind is decided by its one lowercase bare keyword: the longer
      entries with a direction are subsumed. */
  lemma AcceptsKeyword(code: string, mt: MapType)
    ensures Accepts(code, mt) <==> StartsWith(Lower(code), Keyword(mt))
  {
    LowerLiterals();
    var lc := Lower(code);
    match mt
    case Concept =>
      assert "graph td" == "graph" + " td";
      assert "graph lr" == "graph" + " lr";
      if StartsWith(lc, "graph td") { StartsWithLonger(lc, "graph", " td"); }
      if StartsWith(lc, "graph lr") { StartsWithLonger(lc, "graph", " lr"); }
      if StartsWith(lc, "graph") { assert "graph" in ExpectedStarts(Concept); }
    case Flowchart =>
      assert "flowchart td" == "flowchart" + " td";
      assert "flowchart lr" == "flowchart" + " lr";
      if StartsWith(lc, "flowchart td") { StartsWithLonger(lc, "flowchart", " td"); }
      if StartsWith(lc, "flowchart lr") { StartsWithLonger(lc, "flowchart", " lr"); }
      if StartsWith(lc, "flowchart") { assert "flowchart" in ExpectedStarts(Flowchart); }
    case Mindmap =>
      if StartsWith(lc, "mindmap") { assert "mindmap" in ExpectedStarts(Mindmap); }
    case Sequence =>
      if StartsWith(lc, "sequencediagram") { assert "sequenceDiagram" in ExpectedStarts(Sequence); }
  }

  /** The keyword lists of the error messages, written out. */
  lemma JoinedStarts()
    ensures Join(ExpectedStarts(Mindmap), " or ") == "mindmap"
    ensures Join(ExpectedStarts(Concept), " or ") == "graph TD" + " or " + "graph LR" + " or " + "graph"
    ensures Join(ExpectedStarts(Flowchart), " or ") == "flowchart TD" + " or " + "flowchart LR" + " or " + "flowchart"
    ensures Join(ExpectedStarts(Sequence), " or ") == "sequenceDiagram"
  {
    JoinThree("graph TD", "graph LR", "graph", " or ");
    JoinThree("flowchart TD", "flowchart LR", "flowchart", " or ");
  }

  lemma {:induction false} JoinContains(parts: seq<string>, sep: string, i: nat)
    requires i < |parts|
    ensures Occurs(parts[i], Join(parts, sep))
    decreases |parts|
  {
    var j := Join(parts, sep);
    if |parts| == 1 || i == 0 {
      assert j[..|parts[0]|] == parts[0];
      OccursAt(parts[0], j, 0);
    } else {
      var rest := Join(parts[1..], sep);
      JoinContains(parts[1..], sep, i - 1);
      assert j == (parts[0] + sep) + rest;
      assert j[|parts[0] + sep|..|j|] == rest;
      assert parts[1..][i - 1] == parts[i];
      OccursInSlice(parts[i], j, |parts[0] + sep|, |j|);
    }
  }

  /** A heading followed by joined parts starts with the heading and contains every part. */
  lemma HeadedJoin(head: string, parts: seq<string>, sep: string)
    ensures StartsWith(head + Join(parts, sep), head)
    ensures forall p :: p in parts ==> Occurs(p, head + Join(parts, sep))
  {
    var joined := Join(parts, sep);
    var msg := head + joined;
    assert msg[..|head|] == head;
    assert msg[|head|..|msg|] == joined;
    forall p | p in parts
      ensures Occurs(p, msg)
    {
      var i :| 0 <= i < |parts| && parts[i] == p;
      JoinContains(parts, sep, i);
      OccursInSlice(p, msg, |head|, |msg|);
    }
  }

  /** The syntax error names the diagram kind and every accepted keyword. */
  lemma SyntaxMessageNamesStarts(mt: MapType)
    ensures StartsWith(SyntaxMessage(mt), "Invalid " + MapTypeName(mt) + " diagram syntax. Expected to start with ")
    ensures forall p :: p in ExpectedStarts(mt) ==> Occurs(p, SyntaxMessage(mt))
  {
    HeadedJoin("Invalid " + MapTypeName(mt) + " diagram syntax. Expected to start with ", ExpectedStarts(mt), " or ");
  }

  // ---------------------------------------------------------------------
  // Blank-line collapse: a whitespace run holding three or more newlines
  // becomes a single blank line
  // ---------------------------------------------------------------------

  function NewlineCount(s: string): nat
    decreases |s|
  {
    if |s| == 0 then 0 else (if s[0] == '\n' then 1 else 0) + NewlineCount(s[1..])
  }

  /** `t` as a whole is matched by `\n\s*\n\s*\n`: whitespace only, a
      newline at both ends and at least three newlines in all. */
  predicate IsBlankRun(t: string) {
    && |t| > 0 && t[0] == '\n' && t[|t| - 1] == '\n'
    && AllWs(t) && NewlineCount(t) >= 3
  }

  /** No part of `s` is matched by the pattern: no three newlines are
      separated by whitespace only. */
  ghost predicate NoBlankRun(s: string) {
    forall i, j :: 0 <= i <= j <= |s| ==> !IsBlankRun(s[i..j])
  }

  /** Newlines in the longest whitespace prefix of `s`. */
  function RunNewlines(s: string): nat
    decreases |s|
  {
    if |s| == 0 || !IsWs(s[0]) then 0
    else (if s[0] == '\n' then 1 else 0) + RunNewlines(s[1..])
  }

  /** The length of the longest whitespace prefix of `s` that ends in a
      newline (0 when it has none): where the greedy match of the pattern ends. */
  function RunEnd(s: string): (n: nat)
    ensures n <= |s|
    ensures n > 0 <==> RunNewlines(s) > 0
    decreases |s|
  {
    if |s| == 0 || !IsWs(s[0]) then 0
    else
      var n := RunEnd(s[1..]);
      if n > 0 then n + 1 else if s[0] == '\n' then 1 else 0
  }

  /** The scan of the global replace: at a newline whose whitespace run holds
      at least three newlines, the run up to its last newline becomes "\n\n";
      every other character is kept. */
  function Collapse(s: string): (r: string)
    decreases |s|
  {
    if |s| == 0 then []
    else if s[0] == '\n' && RunNewlines(s) >= 3 then "\n\n" + Collapse(s[RunEnd(s)..])
    else [s[0]] + Collapse(s[1..])
  }

  /** `enhanceMermaidCode` */
  function Enhance(code: string): (r: string)
    ensures IsTrimmed(r)
    ensures NoBlankRun(r)
    ensures NoBlankRun(code) ==> r == Trim(code)
  {
    CollapseRunsShort(code);
    TrimRunsShort(Collapse(code));
    RunsShortNoBlankRun(Trim(Collapse(code)));
    CollapseIdentity(code);
    Trim(Collapse(code))
  }

  lemma CollapseIdentity(s: string)
    ensures NoBlankRun(s) ==> Collapse(s) == s
  {
    if NoBlankRun(s) {
      CollapseNoBlankRun(s);
    }
  }

  /** Every whitespace run of `t` holds at most two newlines. */
  ghost predicate RunsShort(t: string) {
    forall i :: 0 <= i < |t| ==> RunNewlines(t[i..]) <= 2
  }

  lemma RunNewlinesCons(c: char, x: string)
    ensures RunNewlines([c] + x) == if !IsWs(c) then 0 else (if c == '\n' then 1 else 0) + RunNewlines(x)
  {
    assert ([c] + x)[1..] == x;
  }

  /** The newlines of a whitespace-only prefix are newlines of the run. */
  lemma {:induction false} WsPrefixNewlines(s: string, j: nat)
    requires j <= |s| && AllWs(s[..j])
    ensures NewlineCount(s[..j]) <= RunNewlines(s)
    ensures j > 0 && s[j - 1] == '\n' ==> j <= RunEnd(s)
    decreases j
  {
    if j > 0 {
      assert s[..j][0] == s[0];
      assert s[..j][1..] == s[1..][..j - 1];
      WsPrefixNewlines(s[1..], j - 1);
      if j > 1 {
        assert s[1..][j - 2] == s[j - 1];
      }
    }
  }

  /** The greedy end is a whitespace prefix ending in its last newline, and the rest of the run is newline-free. */
  lemma {:induction false} RunEndShape(s: string)
    ensures RunEnd(s) > 0 ==> AllWs(s[..RunEnd(s)]) && s[RunEnd(s) - 1] == '\n'
    ensures NewlineCount(s[..RunEnd(s)]) == RunNewlines(s)
    ensures RunNewlines(s[RunEnd(s)..]) == 0
    decreases |s|
  {
    if |s| > 0 && IsWs(s[0]) {
      RunEndShape(s[1..]);
      var n := RunEnd(s[1..]);
      if n > 0 {
        assert s[..n + 1] == [s[0]] + s[1..][..n];
        assert s[n + 1..] == s[1..][n..];
      } else if s[0] == '\n' {
        assert s[..1] == [s[0]];
        assert s[1..][..0] == [];
        assert NewlineCount(s[..1]) == 1;
      } else {
        assert s[..0] == [];
        assert s[0..] == s;
      }
    } else {
      assert s[..0] == [];
      assert s[0..] == s;
    }
  }

  /** At a newline the pattern matches iff the whitespace run holds at least
      three newlines, and the scan's match is the longest one. */
  lemma GreedyMatch(s: string)
    requires |s| > 0 && s[0] == '\n'
    ensures RunNewlines(s) >= 3 ==> IsBlankRun(s[..RunEnd(s)])
    ensures forall j :: 0 <= j <= |s| && IsBlankRun(s[..j]) ==> RunNewlines(s) >= 3 && j <= RunEnd(s)
  {
    RunEndShape(s);
    forall j | 0 <= j <= |s| && IsBlankRun(s[..j])
      ensures RunNewlines(s) >= 3 && j <= RunEnd(s)
    {
      WsPrefixNewlines(s, j);
    }
    if RunNewlines(s) >= 3 {
      assert s[..RunEnd(s)][0] == s[0];
    }
  }

  /** Runs of fewer than three newlines, and everything else, are left alone. */
  lemma {:induction false} CollapseNoBlankRun(s: string)
    requires NoBlankRun(s)
    ensures Collapse(s) == s
    decreases |s|
  {
    if |s| > 0 {
      if s[0] == '\n' {
        GreedyMatch(s);
        assert s[..RunEnd(s)] == s[0..RunEnd(s)];
      }
      forall i, j | 0 <= i <= j <= |s| - 1
        ensures !IsBlankRun(s[1..][i..j])
      {
        assert s[1..][i..j] == s[i + 1..j + 1];
      }
      CollapseNoBlankRun(s[1..]);
      assert s == [s[0]] + s[1..];
    }
  }

  /** The run at the head of the output holds the run's newlines of the input, capped at two. */
  lemma {:induction false} CollapseHeadRun(s: string)
    ensures RunNewlines(Collapse(s)) == if RunNewlines(s) < 2 then RunNewlines(s) else 2
    decreases |s|
  {
    if |s| > 0 {
      if s[0] == '\n' && RunNewlines(s) >= 3 {
        var rest := s[RunEnd(s)..];
        RunEndShape(s);
        CollapseHeadRun(rest);
        RunNewlinesCons('\n', Collapse(rest));
        RunNewlinesCons('\n', ['\n'] + Collapse(rest));
        assert "\n\n" + Collapse(rest) == ['\n'] + (['\n'] + Collapse(rest));
      } else {
        CollapseHeadRun(s[1..]);
        RunNewlinesCons(s[0], Collapse(s[1..]));
        RunNewlinesCons(s[0], s[1..]);
        assert [s[0]] + s[1..] == s;
      }
    }
  }

  /** The output of the scan has no run of three newlines left. */
  lemma {:induction false} CollapseRunsShort(s: string)
    ensures RunsShort(Collapse(s))
    decreases |s|
  {
    if |s| > 0 {
      var r := Collapse(s);
      if s[0] == '\n' && RunNewlines(s) >= 3 {
        var c := Collapse(s[RunEnd(s)..]);
        RunEndShape(s);
        CollapseHeadRun(s[RunEnd(s)..]);
        CollapseRunsShort(s[RunEnd(s)..]);
        assert r == "\n\n" + c;
        forall i | 0 <= i < |r|
          ensures RunNewlines(r[i..]) <= 2
        {
          if i >= 2 {
            assert r[i..] == c[i - 2..];
          } else if i == 1 {
            assert r[1..] == ['\n'] + c;
            RunNewlinesCons('\n', c);
          } else {
            assert r[0..] == ['\n'] + (['\n'] + c);
            RunNewlinesCons('\n', ['\n'] + c);
            RunNewlinesCons('\n', c);
          }
        }
      } else {
        var c := Collapse(s[1..]);
        CollapseHeadRun(s[1..]);
        CollapseRunsShort(s[1..]);
        assert r == [s[0]] + c;
        forall i | 0 <= i < |r|
          ensures RunNewlines(r[i..]) <= 2
        {
          if i >= 1 {
            assert r[i..] == c[i - 1..];
          } else {
            assert r[0..] == [s[0]] + c;
            RunNewlinesCons(s[0], c);
            RunNewlinesCons(s[0], s[1..]);
            assert [s[0]] + s[1..] == s;
          }
        }
      }
    }
  }

  /** Cutting a run short never adds newlines to it. */
  lemma {:induction false} RunNewlinesPrefix(u: string, k: nat)
    requires k <= |u|
    ensures RunNewlines(u[..k]) <= RunNewlines(u)
    decreases k
  {
    if k > 0 {
      assert u[..k][0] == u[0];
      assert u[..k][1..] == u[1..][..k - 1];
      RunNewlinesPrefix(u[1..], k - 1);
    }
  }

  lemma TrimRunsShort(t: string)
    requires RunsShort(t)
    ensures RunsShort(Trim(t))
  {
    var a, b :| 0 <= a <= b <= |t| && Trim(t) == t[a..b] && AllWs(t[..a]) && AllWs(t[b..]);
    forall i | 0 <= i < b - a
      ensures RunNewlines(t[a..b][i..]) <= 2
    {
      assert t[a..b][i..] == t[a + i..][..b - a - i];
      RunNewlinesPrefix(t[a + i..], b - a - i);
    }
  }

  lemma RunsShortNoBlankRun(t: string)
    requires RunsShort(t)
    ensures NoBlankRun(t)
  {
    forall i, j | 0 <= i <= j <= |t|
      ensures !IsBlankRun(t[i..j])
    {
      if i < j && AllWs(t[i..j]) {
        assert t[i..j] == t[i..][..j - i];
        WsPrefixNewlines(t[i..], j - i);
      }
    }
  }

  // ---------------------------------------------------------------------
  // What the blank-line collapse keeps: it works run by run
  // ---------------------------------------------------------------------

  /** A non-whitespace character ends the whitespace run before it. */
  lemma {:induction false} RunStopsAt(x: string, c: char, y: string)
    requires !IsWs(c)
    ensures RunNewlines(x + [c] + y) == RunNewlines(x)
    ensures RunEnd(x + [c] + y) == RunEnd(x)
    decreases |x|
  {
    var s := x + [c] + y;
    if |x| == 0 {
      assert s[0] == c;
    } else {
      assert s[0] == x[0];
      assert s[1..] == x[1..] + [c] + y;
      RunStopsAt(x[1..], c, y);
    }
  }

  /** The replace works run by run: a non-whitespace character is kept, and
      the text on either side of it is replaced on its own. */
  lemma {:induction false} CollapseSplit(x: string, c: char, y: string)
    requires !IsWs(c)
    ensures Collapse(x + [c] + y) == Collapse(x) + [c] + Collapse(y)
    decreases |x|
  {
    var s := x + [c] + y;
    if |x| == 0 {
      assert s == [c] + y;
      assert s[1..] == y;
    } else {
      RunStopsAt(x, c, y);
      assert s[0] == x[0];
      if x[0] == '\n' && RunNewlines(x) >= 3 {
        var e := RunEnd(x);
        assert 0 < e <= |x|;
        assert s[e..] == x[e..] + [c] + y;
        CollapseSplit(x[e..], c, y);
      } else {
        assert s[1..] == x[1..] + [c] + y;
        CollapseSplit(x[1..], c, y);
      }
    }
  }

  lemma {:induction false} NewlineCountAppend(a: string, b: string)
    ensures NewlineCount(a + b) == NewlineCount(a) + NewlineCount(b)
    decreases |a|
  {
    if |a| == 0 {
      assert a + b == b;
    } else {
      assert (a + b)[0] == a[0];
      assert (a + b)[1..] == a[1..] + b;
      NewlineCountAppend(a[1..], b);
    }
  }

  /** In an all-whitespace text the whole text is one run. */
  lemma {:induction false} AllWsRunNewlines(w: string)
    requires AllWs(w)
    ensures RunNewlines(w) == NewlineCount(w)
    decreases |w|
  {
    if |w| > 0 {
      AllWsRunNewlines(w[1..]);
    }
  }

  /** A whitespace run with at most two newlines is kept as it is. */
  lemma {:induction false} CollapseShortRun(w: string)
    requires AllWs(w) && NewlineCount(w) <= 2
    ensures Collapse(w) == w
    decreases |w|
  {
    if |w| > 0 {
      AllWsRunNewlines(w);
      CollapseShortRun(w[1..]);
      assert w == [w[0]] + w[1..];
    }
  }

  /** The greedy match of an all-whitespace text ends just after its last newline. */
  lemma {:induction false} RunEndAllWs(w: string, j: nat)
    requires AllWs(w) && j < |w| && w[j] == '\n'
    requires forall k :: j < k < |w| ==> w[k] != '\n'
    ensures RunEnd(w) == j + 1
    decreases j
  {
    if j == 0 {
      assert RunNewlines(w[1..]) == 0 by {
        AllWsRunNewlines(w[1..]);
        assert '\n' !in w[1..];
        NoNewlineCount(w[1..]);
      }
    } else {
      RunEndAllWs(w[1..], j - 1);
    }
  }

  lemma {:induction false} NoNewlineCount(p: string)
    requires '\n' !in p
    ensures NewlineCount(p) == 0
    decreases |p|
  {
    if |p| > 0 {
      NoNewlineCount(p[1..]);
    }
  }

  /** Characters before the first newline are copied by the replace. */
  lemma {:induction false} CollapseNewlineFree(p: string, z: string)
    requires '\n' !in p
    ensures Collapse(p + z) == p + Collapse(z)
    decreases |p|
  {
    if |p| == 0 {
      assert p + z == z;
    } else {
      assert (p + z)[0] == p[0];
      assert (p + z)[1..] == p[1..] + z;
      CollapseNewlineFree(p[1..], z);
      assert p == [p[0]] + p[1..];
    }
  }

  /** A whitespace run with three or more newlines, written as the
      whitespace `a` before its first newline, the whitespace `b` between its
      first and last newline (holding at least one more newline), and the
      whitespace `e` after its last newline, becomes `a`, one blank line, `e`. */
  lemma CollapseLongRun(a: string, b: string, e: string)
    requires AllWs(a) && AllWs(b) && AllWs(e)
    requires '\n' !in a && '\n' in b && '\n' !in e
    ensures Collapse(a + "\n" + b + "\n" + e) == a + "\n\n" + e
  {
    var t := "\n" + b + "\n" + e;
    assert a + "\n" + b + "\n" + e == a + t;
    CollapseNewlineFree(a, t);
    CollapseRunFromNewline(b, e, t);
  }

  lemma CollapseRunFromNewline(b: string, e: string, t: string)
    requires AllWs(b) && AllWs(e) && '\n' in b && '\n' !in e
    requires t == "\n" + b + "\n" + e
    ensures Collapse(t) == "\n\n" + e
  {
    RunShape(b, e, t);
    assert t[|b| + 2..] == e;
    NoNewlineCount(e);
    CollapseShortRun(e);
  }

  /** The run starting at the first newline ends after the last one and holds at least three. */
  lemma RunShape(b: string, e: string, t: string)
    requires AllWs(b) && AllWs(e) && '\n' in b && '\n' !in e
    requires t == "\n" + b + "\n" + e
    ensures RunNewlines(t) >= 3 && RunEnd(t) == |b| + 2
  {
    assert AllWs(t);
    AllWsRunNewlines(t);
    NewlineCountAppend("\n" + b, "\n" + e);
    NewlineCountAppend("\n", b);
    NewlineCountAppend("\n", e);
    NewlineIn(b);
    assert t == ("\n" + b) + ("\n" + e);
    assert t[|b| + 1] == '\n';
    RunEndAllWs(t, |b| + 1);
  }

  lemma {:induction false} NewlineIn(b: string)
    requires '\n' in b
    ensures NewlineCount(b) >= 1
    decreases |b|
  {
    if b[0] != '\n' {
      assert '\n' in b[1..];
      NewlineIn(b[1..]);
    }
  }

  /** A whitespace run between two visible characters is replaced on its own;
      everything on either side is replaced independently of it. */
  lemma CollapseBetween(x: string, c: char, w: string, d: char, y: string)
    requires !IsWs(c) && !IsWs(d)
    ensures Collapse(x + [c] + w + [d] + y) == Collapse(x) + [c] + Collapse(w) + [d] + Collapse(y)
  {
    assert x + [c] + w + [d] + y == x + [c] + (w + [d] + y);
    CollapseSplit(x, c, w + [d] + y);
    CollapseSplit(w, d, y);
  }

  // ---------------------------------------------------------------------
  // Preparation for rendering
  // ---------------------------------------------------------------------

  /** `prepareMermaidForRender`: validation, then the blank-line collapse. It
      fails exactly when validation fails, and what it returns still starts
      with an accepted keyword. */
  function Prepare(code: string, mt: MapType): (r: Result<string, string>)
    ensures r.Err? <==> !Accepts(Clean(code), mt)
    ensures r.Err? ==> r.error == SyntaxMessage(mt)
    ensures r.Ok? ==> Accepts(r.value, mt) && IsTrimmed(r.value) && NoBlankRun(r.value)
    ensures r.Ok? ==> !Occurs(Fence, r.value)
  {
    var v := Validate(code, mt);
    if v.Err? then Err(v.error)
    else
      EnhanceKeepsAcceptance(v.value, mt);
      CollapseKeepsNoFence(v.value);
      NoFenceInTrim(Collapse(v.value));
      Ok(Enhance(v.value))
  }

  /** The bare accepted keyword of each kind is a non-empty run of lowercase letters. */
  lemma KeywordLetters(mt: MapType)
    ensures |Keyword(mt)| > 0
    ensures forall i :: 0 <= i < |Keyword(mt)| ==> 'a' <= Keyword(mt)[i] <= 'z'
  {
  }

  lemma LowerCharKeepsWs(x: char)
    ensures LowerChar(x) == '\n' <==> x == '\n'
    ensures IsWs(LowerChar(x)) <==> IsWs(x)
  {
  }

  /** The scan copies every character before the first newline. */
  lemma {:induction false} CollapseKeepsPrefix(s: string, k: nat)
    requires k <= |s|
    requires forall i :: 0 <= i < k ==> s[i] != '\n'
    ensures k <= |Collapse(s)|
    ensures forall i :: 0 <= i < k ==> Collapse(s)[i] == s[i]
    decreases k
  {
    if k > 0 {
      var c := Collapse(s[1..]);
      assert Collapse(s) == [s[0]] + c;
      CollapseKeepsPrefix(s[1..], k - 1);
      forall i | 0 <= i < k
        ensures Collapse(s)[i] == s[i]
      {
        if i > 0 { assert Collapse(s)[i] == c[i - 1] == s[1..][i - 1]; }
      }
    }
  }

  /** The characters under an accepted keyword are neither newlines nor whitespace. */
  lemma KeywordHeadPlain(c: string, mt: MapType)
    requires StartsWith(Lower(c), Keyword(mt))
    ensures forall i :: 0 <= i < |Keyword(mt)| ==> c[i] != '\n' && !IsWs(c[i])
  {
    var key := Keyword(mt);
    KeywordLetters(mt);
    forall i | 0 <= i < |key|
      ensures c[i] != '\n' && !IsWs(c[i])
    {
      assert Lower(c)[i] == key[i];
      LowerCharKeepsWs(c[i]);
    }
  }

  /** Lowering sees only the characters it is given: equal heads lower alike. */
  lemma LowerSameHead(c: string, e: string, key: string)
    requires |key| <= |c| && |key| <= |e| && c[..|key|] == e[..|key|]
    requires StartsWith(Lower(c), key)
    ensures StartsWith(Lower(e), key)
  {
    forall i | 0 <= i < |key|
      ensures Lower(e)[i] == key[i]
    {
      assert c[..|key|][i] == e[..|key|][i];
      assert Lower(c)[i] == key[i];
    }
  }

  /** The blank-line collapse cannot disturb an accepted keyword at the head
      of a trimmed text. */
  lemma EnhanceKeepsAcceptance(c: string, mt: MapType)
    requires IsTrimmed(c) && Accepts(c, mt)
    ensures Accepts(Enhance(c), mt)
  {
    var k := |Keyword(mt)|;
    AcceptsKeyword(c, mt);
    KeywordLetters(mt);
    KeywordHeadPlain(c, mt);
    CollapseKeepsPrefix(c, k);
    var u := Collapse(c);
    assert u[..k] == c[..k];
    TrimKeepsHead(u, k);
    LowerSameHead(c, Enhance(c), Keyword(mt));
    AcceptsKeyword(Enhance(c), mt);
  }

  /** Backticks at the head of the scan's output are backticks of its input. */
  lemma {:induction false} CollapseHead(t: string, k: nat)
    ensures TickRun(Collapse(t), k) ==> TickRun(t, k)
    decreases |t|
  {
    if k > 0 && |t| > 0 {
      var r := Collapse(t);
      if t[0] == '\n' && RunNewlines(t) >= 3 {
        assert r[0] == '\n';
      } else {
        var c := Collapse(t[1..]);
        assert r == [t[0]] + c;
        CollapseHead(t[1..], k - 1);
        if TickRun(r, k) {
          assert TickRun(c, k - 1) by {
            forall i | 0 <= i < k - 1 ensures c[i] == '`' { assert c[i] == r[i + 1]; }
          }
          assert TickRun(t[1..], k - 1);
          assert t[0] == r[0];
          forall i | 0 <= i < k
            ensures t[i] == '`'
          {
            if i > 0 { assert t[i] == t[1..][i - 1]; }
          }
        }
      }
    }
  }

  lemma NoFenceInSuffix(s: string, a: nat)
    requires a <= |s| && !Occurs(Fence, s)
    ensures !Occurs(Fence, s[a..])
  {
    OccursInSlice(Fence, s, a, |s|);
    assert s[a..|s|] == s[a..];
  }

  /** The blank-line collapse introduces no fence. */
  lemma {:induction false} CollapseKeepsNoFence(s: string)
    requires !Occurs(Fence, s)
    ensures !Occurs(Fence, Collapse(s))
    decreases |s|
  {
    if |s| > 0 {
      var r := Collapse(s);
      if s[0] == '\n' && RunNewlines(s) >= 3 {
        var c := Collapse(s[RunEnd(s)..]);
        NoFenceInSuffix(s, RunEnd(s));
        CollapseKeepsNoFence(s[RunEnd(s)..]);
        assert r == "\n\n" + c;
        forall i | 0 <= i <= |r|
          ensures !StartsWith(r[i..], Fence)
        {
          FenceIsTickRun(r[i..]);
          if i >= 2 {
            assert r[i..] == c[i - 2..];
          } else if i < |r| {
            assert r[i..][0] == '\n';
          }
        }
      } else {
        var c := Collapse(s[1..]);
        NoFenceInSuffix(s, 1);
        CollapseKeepsNoFence(s[1..]);
        assert r == [s[0]] + c;
        forall i | 0 <= i <= |r|
          ensures !StartsWith(r[i..], Fence)
        {
          if i >= 1 {
            assert r[i..] == c[i - 1..];
          } else {
            FenceIsTickRun(r);
            assert TickRun(r, 3) ==> TickRun(c, 2) by {
              if |r| >= 3 { assert r[1] == c[0] && r[2] == c[1]; }
            }
            CollapseHead(s[1..], 2);
            assert TickRun(s[1..], 2) && s[0] == '`' ==> TickRun(s, 3) by {
              if |s| >= 3 { assert s[1] == s[1..][0] && s[2] == s[1..][1]; }
            }
            FenceIsTickRun(s);
            assert s[0..] == s;
          }
        }
      }
    }
  }

  /** A trimmed text without fences is left as it is by the cleaning. */
  lemma CleanFixpoint(y: string)
    requires IsTrimmed(y) && !Occurs(Fence, y)
    ensures Clean(y) == y
  {
    TrimTrimmed(y);
    NoFenceStripsNothing(y);
  }

  /** Preparing the prepared text again, for the same diagram kind, returns it unchanged. */
  lemma PrepareIdempotent(code: string, mt: MapType)
    requires Prepare(code, mt).Ok?
    ensures Prepare(Prepare(code, mt).value, mt) == Prepare(code, mt)
  {
    var c := Clean(code);
    var y := Prepare(code, mt).value;
    assert y == Enhance(c);
    CleanFixpoint(y);
    TrimTrimmed(y);
  }

  /** Cleaning is idempotent. */
  lemma CleanIdempotent(code: string)
    ensures Clean(Clean(code)) == Clean(code)
  {
    CleanFixpoint(Clean(code));
  }

  // ---------------------------------------------------------------------
  // Language tags other than "mermaid"
  // ---------------------------------------------------------------------

  /** A head of `s` at none of whose positions `fence` starts is copied unchanged. */
  lemma {:induction false} StripFenceKeepsHead(s: string, fence: string, k: nat)
    requires |fence| > 0 && k <= |s|
    requires forall i :: 0 <= i < k ==> !StartsWith(s[i..], fence)
    ensures StripFence(s, fence) == s[..k] + StripFence(s[k..], fence)
    decreases k
  {
    if k > 0 {
      assert !StartsWith(s[0..], fence);
      assert s[0..] == s;
      forall i | 0 <= i < k - 1
        ensures !StartsWith(s[1..][i..], fence)
      {
        assert s[1..][i..] == s[i + 1..];
      }
      StripFenceKeepsHead(s[1..], fence, k - 1);
      assert s[..k] == [s[0]] + s[1..][..k - 1];
      assert s[1..][k - 1..] == s[k..];
    }
  }

  /** Text without backticks passes through either fence scan untouched. */
  lemma StripFencePlainPrefix(x: string, y: string, fence: string)
    requires |fence| > 0 && fence[0] == '`' && '`' !in x
    ensures StripFence(x + y, fence) == x + StripFence(y, fence)
  {
    var s := x + y;
    forall i | 0 <= i < |x|
      ensures !StartsWith(s[i..], fence)
    {
      assert s[i..][0] == x[i];
    }
    StripFenceKeepsHead(s, fence, |x|);
    assert s[..|x|] == x && s[|x|..] == y;
  }

  lemma FenceSurvivesTagScan()
    ensures StripFence(Fence, MermaidFence) == Fence
  {
    StripFenceKeepsHead(Fence, MermaidFence, 3);
    assert Fence[..3] == Fence && Fence[3..] == [];
  }

  lemma FenceScanEmptiesFence()
    ensures StripFence(Fence, Fence) == []
  {
    assert StartsWith(Fence, Fence);
    assert Fence[3..] == [];
  }

  /** The opening backticks cannot start "```mermaid" when the text after them does not start with "mermaid". */
  lemma OpeningNotMermaid(s: string, rest: string)
    requires s == Fence + rest && |rest| > 0 && rest[0] != '`'
    requires |rest| >= 7 ==> rest[..7] != "mermaid"
    ensures forall i :: 0 <= i < 3 ==> !StartsWith(s[i..], MermaidFence)
  {
    forall i | 0 <= i < 3
      ensures !StartsWith(s[i..], MermaidFence)
    {
      if i > 0 {
        assert s[i..][3 - i] == rest[0];
      } else if StartsWith(s, MermaidFence) {
        MermaidAfterTicks(s, rest);
        assert false;
      }
    }
  }

  lemma MermaidAfterTicks(s: string, rest: string)
    requires s == Fence + rest && StartsWith(s, MermaidFence)
    ensures |rest| >= 7 && rest[..7] == "mermaid"
  {
    assert rest[..7] == s[3..10];
  }

  /** The tag scan leaves a block alone whose tag is not "mermaid". */
  lemma TagScanKeeps(body: string, line: string, s: string)
    requires |body| > 0 && '`' !in body && !StartsWith(body, "mermaid")
    requires line == body + "\n" && s == Fence + line + Fence
    ensures StripFence(s, MermaidFence) == s
  {
    var rest := line + Fence;
    RestNotMermaid(body, line, rest);
    assert s == Fence + rest;
    OpeningNotMermaid(s, rest);
    TagScanKeepsAt(s, line);
  }

  lemma RestNotMermaid(body: string, line: string, rest: string)
    requires |body| > 0 && !StartsWith(body, "mermaid")
    requires line == body + "\n" && rest == line + Fence
    ensures |rest| > 0 && rest[0] == body[0]
    ensures |rest| >= 7 ==> rest[..7] != "mermaid"
  {
    if |rest| >= 7 && rest[..7] == "mermaid" {
      if |body| >= 7 {
        assert false;
      } else {
        NewlineAfter(body, line, rest);
        assert false;
      }
    }
  }

  lemma NewlineAfter(body: string, line: string, rest: string)
    requires line == body + "\n" && rest == line + Fence
    ensures |body| < |rest| && rest[|body|] == '\n'
  {
  }

  lemma TagScanKeepsAt(s: string, line: string)
    requires s == Fence + line + Fence && '`' !in line
    requires forall i :: 0 <= i < 3 ==> !StartsWith(s[i..], MermaidFence)
    ensures StripFence(s, MermaidFence) == s
  {
    StripFenceKeepsHead(s, MermaidFence, 3);
    assert s[..3] == Fence;
    assert s[3..] == line + Fence;
    StripFencePlainPrefix(line, Fence, MermaidFence);
    FenceSurvivesTagScan();
  }

  /** The bare-fence scan removes the opening backticks and the closing fence. */
  lemma BareScanDrops(line: string, s: string)
    requires |line| > 0 && '`' !in line && line[0] != '\n'
    requires s == Fence + line + Fence
    ensures StripFence(s, Fence) == line
  {
    var rest := line + Fence;
    assert s[..3] == Fence && s[3..] == rest;
    assert rest[0] != '\n';
    StripFencePlainPrefix(line, Fence, Fence);
    FenceScanEmptiesFence();
    assert line + [] == line;
  }

  /** A fenced block whose opening fence carries a language tag other than
      "mermaid" keeps the tag: only the backticks and the closing fence go. */
  lemma LanguageTagKept(body: string)
    requires |body| > 0 && IsTrimmed(body) && '`' !in body
    requires !StartsWith(body, "mermaid")
    ensures Clean(Fence + body + "\n" + Fence) == body
  {
    var line := body + "\n";
    var s := Fence + line + Fence;
    assert s == Fence + body + "\n" + Fence;
    LanguageTagKeptAt(body, line, s);
  }

  lemma LanguageTagKeptAt(body: string, line: string, s: string)
    requires |body| > 0 && IsTrimmed(body) && '`' !in body
    requires !StartsWith(body, "mermaid")
    requires line == body + "\n" && s == Fence + line + Fence
    ensures Clean(s) == body
  {
    assert s[0] == '`' && s[|s| - 1] == '`';
    TrimTrimmed(s);
    TagScanKeeps(body, line, s);
    BareScanDrops(line, s);
    TrimNewline(body, line);
  }

  lemma TrimNewline(body: string, line: string)
    requires IsTrimmed(body) && line == body + "\n"
    ensures Trim(line) == body
  {
    TrimFrame([], body, "\n");
    assert [] + body + "\n" == line;
  }

  /** A fence found by the scan is removed together with the one newline after it. */
  lemma StripFenceTakesNewline(x: string, fence: string, y: string)
    requires |fence| > 0 && fence[0] == '`' && '`' !in x
    ensures StripFence(x + fence + "\n" + y, fence) == x + StripFence(y, fence)
  {
    StripFencePlainPrefix(x, fence + "\n" + y, fence);
    assert x + fence + "\n" + y == x + (fence + "\n" + y);
    FenceThenNewline(fence, y);
  }

  lemma FenceThenNewline(fence: string, y: string)
    requires |fence| > 0
    ensures StripFence(fence + "\n" + y, fence) == StripFence(y, fence)
  {
    var s := fence + "\n" + y;
    assert s[..|fence|] == fence;
    assert s[|fence|..] == "\n" + y;
    assert ("\n" + y)[1..] == y;
  }

  /** A block fenced as "```mermaid" loses both fences and the newlines
      right after them; the diagram inside is what remains. */
  lemma MermaidFenceRemoved(body: string)
    requires |body| > 0 && IsTrimmed(body) && '`' !in body
    ensures Clean(MermaidFence + "\n" + body + "\n" + Fence) == body
  {
    var line := body + "\n";
    var s := MermaidFence + "\n" + line + Fence;
    assert s == MermaidFence + "\n" + body + "\n" + Fence;
    MermaidFenceRemovedAt(body, line, s);
  }

  lemma MermaidFenceRemovedAt(body: string, line: string, s: string)
    requires |body| > 0 && IsTrimmed(body) && '`' !in body
    requires line == body + "\n" && s == MermaidFence + "\n" + line + Fence
    ensures Clean(s) == body
  {
    assert s[0] == '`' && s[|s| - 1] == '`';
    TrimTrimmed(s);
    MermaidScanDrops(line, s);
    BareScanDropsClosing(line);
    TrimNewline(body, line);
  }

  lemma MermaidScanDrops(line: string, s: string)
    requires '`' !in line && s == MermaidFence + "\n" + line + Fence
    ensures StripFence(s, MermaidFence) == line + Fence
  {
    StripFenceTakesNewline([], MermaidFence, line + Fence);
    assert [] + MermaidFence + "\n" + (line + Fence) == s;
    StripFencePlainPrefix(line, Fence, MermaidFence);
    FenceSurvivesTagScan();
  }

  lemma BareScanDropsClosing(line: string)
    requires '`' !in line
    ensures StripFence(line + Fence, Fence) == line
  {
    StripFencePlainPrefix(line, Fence, Fence);
    FenceScanEmptiesFence();
    assert line + [] == line;
  }

  /** Validation sees through a "```mermaid" fence: the fenced block is
      judged, and returned, exactly as the bare diagram would be. */
  lemma MermaidFenceValidate(body: string, mt: MapType)
    requires |body| > 0 && IsTrimmed(body) && '`' !in body
    ensures Validate(MermaidFence + "\n" + body + "\n" + Fence, mt) == Validate(body, mt)
  {
    MermaidFenceRemoved(body);
    TrimTrimmed(body);
  }

  /** A concept diagram fenced as "```graph": the tag stays as the first
      line, and since "graph" is itself an accepted keyword the text still
      passes validation, tag included. */
  lemma FencedGraphKeepsTag()
    ensures Clean(Fence + "graph\ngraph TD\n  A-->B" + "\n" + Fence) == "graph\ngraph TD\n  A-->B"
    ensures Validate(Fence + "graph\ngraph TD\n  A-->B" + "\n" + Fence, Concept) == Ok("graph\ngraph TD\n  A-->B")
  {
    var body := "graph\ngraph TD\n  A-->B";
    TaggedBodyAccepted(body, Fence + body + "\n" + Fence);
  }

  lemma TaggedBodyAccepted(body: string, code: string)
    requires body == "graph\ngraph TD\n  A-->B" && code == Fence + body + "\n" + Fence
    ensures Clean(code) == body && Accepts(body, Concept)
  {
    TaggedBodyCleans(body, code);
    GraphHeadAccepted(body);
  }

  lemma TaggedBodyCleans(body: string, code: string)
    requires body == "graph\ngraph TD\n  A-->B" && code == Fence + body + "\n" + Fence
    ensures Clean(code) == body
  {
    assert body[1] == 'r' && "mermaid"[1] == 'e';
    LanguageTagKept(body);
  }

  lemma GraphHeadAccepted(body: string)
    requires body == "graph\ngraph TD\n  A-->B"
    ensures Accepts(body, Concept)
  {
    AcceptsKeyword(body, Concept);
    assert Lower(body)[..5] == "graph";
  }
}
