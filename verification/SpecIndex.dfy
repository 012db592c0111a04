/** Regenerating the guarded section of a document: internal/invariants/spec_index.go. */
module SpecIndex {
  import opened Common
  import opened Environment

  /** The fixed texts of the generator; the generated body is a parameter of the splice. */
  datatype Layout = Layout(beginGuard: string, endGuard: string, ruledHeading: string, heading: string)

  // The texts stand in pieces so that OneLine can be shown piece by piece.
  const TITLE := "Specification \U{2192} " + "Implementation Index"

  const LAYOUT := Layout(
    "<!-- BEGIN " + ("GENERATED: " + (TITLE + " -->")),
    "<!-- END " + ("GENERATED: " + (TITLE + " -->")),
    "\n---\n\n" + ("## " + (TITLE + "\n")),
    "## " + (TITLE + "\n"))

  predicate StartsWith(s: string, prefix: string) {
    |prefix| <= |s| && s[..|prefix|] == prefix
  }

  /** How much of the first n characters is left without the newlines at their end. */
  function TrimmedLength(s: string, n: nat): (m: nat)
    requires n <= |s|
    ensures m <= n
    ensures m == 0 || s[m - 1] != '\n'
  {
    if n > 0 && s[n - 1] == '\n' then TrimmedLength(s, n - 1) else n
  }

  /** Where the newlines that start at position n end. */
  function AfterNewlines(s: string, n: nat): (m: nat)
    requires n <= |s|
    ensures n <= m <= |s|
    ensures m == |s| || s[m] != '\n'
    decreases |s| - n
  {
    if n < |s| && s[n] == '\n' then AfterNewlines(s, n + 1) else n
  }

  /** strings.TrimRight and strings.TrimLeft for newlines. */
  function TrimRight(s: string): (r: string)
    ensures StartsWith(s, r)
    ensures r == "" || r[|r| - 1] != '\n'
  {
    s[..TrimmedLength(s, |s|)]
  }

  function TrimLeft(s: string): (r: string)
    ensures |r| <= |s| && r == s[|s| - |r|..]
    ensures r == "" || r[0] != '\n'
  {
    s[AfterNewlines(s, 0)..]
  }

  /** Trimming takes nothing but newlines away. */
  lemma TrimsOnlyNewlines(s: string)
    ensures forall i | |TrimRight(s)| <= i < |s| :: s[i] == '\n'
    ensures forall i | 0 <= i < |s| - |TrimLeft(s)| :: s[i] == '\n'
  {
    OnlyNewlinesAfter(s, |s|);
    OnlyNewlinesBefore(s, 0);
  }

  lemma {:induction false} OnlyNewlinesAfter(s: string, n: nat)
    requires n <= |s|
    ensures forall i | TrimmedLength(s, n) <= i < n :: s[i] == '\n'
  {
    if n > 0 && s[n - 1] == '\n' {
      OnlyNewlinesAfter(s, n - 1);
    }
  }

  lemma {:induction false} OnlyNewlinesBefore(s: string, n: nat)
    requires n <= |s|
    ensures forall i | n <= i < AfterNewlines(s, n) :: s[i] == '\n'
    decreases |s| - n
  {
    if n < |s| && s[n] == '\n' {
      OnlyNewlinesBefore(s, n + 1);
    }
  }

  ghost predicate FirstAt(s: string, pattern: string, i: nat) {
    OccursAt(s, pattern, i) && forall j: nat | j < i :: !OccursAt(s, pattern, j)
  }

  lemma FirstExists(s: string, pattern: string)
    ensures (exists i: nat :: FirstAt(s, pattern, i)) || forall i: nat :: !OccursAt(s, pattern, i)
  {
    var found := IndexFrom(s, pattern, 0);
    if found.Some? {
      assert FirstAt(s, pattern, found.value);
    }
  }

  /** strings.Index. */
  ghost function IndexOf(s: string, pattern: string): (r: Option<nat>)
    ensures r.Some? ==> FirstAt(s, pattern, r.value)
    ensures r.None? ==> forall i: nat :: !OccursAt(s, pattern, i)
  {
    FirstExists(s, pattern);
    if exists i: nat :: FirstAt(s, pattern, i) then var i: nat :| FirstAt(s, pattern, i); Some(i) else None
  }

  method Index(s: string, pattern: string) returns (r: Option<nat>)
    ensures r == IndexOf(s, pattern)
  {
    r := IndexFrom(s, pattern, 0);
    if r.Some? {
      assert FirstAt(s, pattern, r.value);
    }
  }

  /** What is kept of a document: the text before the section and the text after it. */
  datatype Kept = Kept(before: string, after: string)

  predicate InOrder(b: Option<nat>, e: Option<nat>) {
    b.Some? && e.Some? && e.value > b.value
  }

  ghost predicate Guarded(l: Layout, content: string) {
    InOrder(IndexOf(content, l.beginGuard), IndexOf(content, l.endGuard))
  }

  /** Without a first end guard after a first begin guard, everything from the heading on is replaced. */
  ghost function Split(l: Layout, content: string): Option<Kept> {
    if Guarded(l, content) then
      Some(AroundGuards(content, IndexOf(content, l.beginGuard).value,
                        IndexOf(content, l.endGuard).value + |l.endGuard|))
    else if IndexOf(content, l.ruledHeading).Some? then
      Some(BeforeHeading(content, IndexOf(content, l.ruledHeading).value))
    else if IndexOf(content, l.heading).Some? then
      Some(BeforeHeading(content, IndexOf(content, l.heading).value))
    else None
  }

  function AroundGuards(content: string, begin: nat, end: nat): Kept
    requires begin <= |content| && end <= |content|
  {
    Kept(TrimRight(content[..begin]), TrimLeft(content[end..]))
  }

  function BeforeHeading(content: string, cut: nat): Kept
    requires cut <= |content|
  {
    Kept(TrimRight(content[..cut]), "")
  }

  lemma KeptIsTrimmed(content: string, begin: nat, end: nat)
    requires begin <= |content| && end <= |content|
    ensures Trimmed(AroundGuards(content, begin, end)) && Trimmed(BeforeHeading(content, begin))
    ensures StartsWith(content, AroundGuards(content, begin, end).before)
    ensures |AroundGuards(content, begin, end).before| <= begin
    ensures BeforeHeading(content, begin) == Kept(AroundGuards(content, begin, end).before, "")
  {
    var before := TrimRight(content[..begin]);
    assert content[..begin][..|before|] == content[..|before|];
  }

  predicate Trimmed(k: Kept) {
    && (k.before == "" || k.before[|k.before| - 1] != '\n')
    && (k.after == "" || k.after[0] != '\n')
  }

  function Joined(k: Kept, body: string): string {
    if k.after != "" then k.before + "\n\n" + body + "\n\n" + k.after
    else k.before + "\n\n" + body + "\n"
  }

  /** The document after regeneration; None is the error that leaves it alone. */
  ghost function Splice(l: Layout, content: string, body: string): Option<string> {
    var k :- Split(l, content);
    Some(Joined(k, body))
  }

  method GenerateSpecIndex(l: Layout, content: string, body: string) returns (newContent: Option<string>)
    ensures newContent == Splice(l, content, body)
  {
    hide IndexOf, TrimRight, TrimLeft;
    var beginIdx := Index(content, l.beginGuard);
    var endIdx := Index(content, l.endGuard);
    var before, after := "", "";
    if beginIdx.Some? && endIdx.Some? && endIdx.value > beginIdx.value {
      before := TrimRight(content[..beginIdx.value]);
      after := TrimLeft(content[endIdx.value + |l.endGuard|..]);
    } else {
      var idx := Index(content, l.ruledHeading);
      if idx.None? {
        idx := Index(content, l.heading);
        if idx.None? {
          return None;
        }
        before := TrimRight(content[..idx.value]);
      } else {
        before := TrimRight(content[..idx.value]);
      }
      after := "";
    }
    if after != "" {
      newContent := Some(before + "\n\n" + body + "\n\n" + after);
    } else {
      newContent := Some(before + "\n\n" + body + "\n");
    }
  }

  /** Only newlines between two positions. */
  predicate OnlyNewlines(s: string, from: nat, to: nat)
    requires to <= |s|
  {
    forall i | from <= i < to :: s[i] == '\n'
  }

  /** The text before the cut is kept up to the newlines at its end. */
  ghost predicate KeepsBefore(content: string, before: string, cut: nat)
    requires cut <= |content|
  {
    StartsWith(content, before) && |before| <= cut && OnlyNewlines(content, |before|, cut)
  }

  /**
   * What is kept of a document. With its guards in order: the text before the first begin guard and after
   * the first end guard. Otherwise: the text before the first heading, the one under a rule first, and
   * nothing after it. In either case up to the newlines next to the cuts. Without guards in order and
   * without a heading there is an error.
   */
  lemma WhatIsKept(l: Layout, content: string)
    ensures Split(l, content).Some? <==>
              Guarded(l, content) || Mentions(content, l.ruledHeading) || Mentions(content, l.heading)
    ensures Guarded(l, content) ==>
              var k, b := Split(l, content).value, IndexOf(content, l.beginGuard).value;
              var end := IndexOf(content, l.endGuard).value + |l.endGuard|;
              && KeepsBefore(content, k.before, b)
              && |k.after| <= |content| - end && k.after == content[|content| - |k.after|..]
              && OnlyNewlines(content, end, |content| - |k.after|)
    ensures !Guarded(l, content) && Split(l, content).Some? ==>
              var heading := if Mentions(content, l.ruledHeading) then l.ruledHeading else l.heading;
              && Split(l, content).value.after == ""
              && KeepsBefore(content, Split(l, content).value.before, IndexOf(content, heading).value)
  {
    hide TrimRight, TrimLeft;
    if Guarded(l, content) {
      var b, e := IndexOf(content, l.beginGuard).value, IndexOf(content, l.endGuard).value;
      CutKeepsBefore(content, b);
      CutKeepsAfter(content, e + |l.endGuard|);
    } else if Mentions(content, l.ruledHeading) {
      CutKeepsBefore(content, IndexOf(content, l.ruledHeading).value);
    } else if Mentions(content, l.heading) {
      CutKeepsBefore(content, IndexOf(content, l.heading).value);
    }
  }

  lemma CutKeepsBefore(content: string, cut: nat)
    requires cut <= |content|
    ensures KeepsBefore(content, TrimRight(content[..cut]), cut)
  {
    hide TrimRight, TrimLeft;
    var part := content[..cut];
    TrimsOnlyNewlines(part);
    assert content[..|TrimRight(part)|] == part[..|TrimRight(part)|];
    assert forall i | |TrimRight(part)| <= i < cut :: content[i] == part[i];
  }

  lemma CutKeepsAfter(content: string, end: nat)
    requires end <= |content|
    ensures var after := TrimLeft(content[end..]);
            && |after| <= |content| - end && after == content[|content| - |after|..]
            && OnlyNewlines(content, end, |content| - |after|)
  {
    hide TrimRight, TrimLeft;
    var part := content[end..];
    var after := TrimLeft(part);
    TrimsOnlyNewlines(part);
    assert content[|content| - |after|..] == part[|part| - |after|..];
    forall i | end <= i < |content| - |after| ensures content[i] == '\n' {
      assert content[i] == part[i - end];
    }
  }

  /**
   * A regenerated document reads: the text before, an empty line, the body, and either an empty line
   * and the text after or one more newline. Nothing else.
   */
  lemma RegeneratedReads(l: Layout, content: string, body: string)
    requires Split(l, content).Some?
    ensures var k, r := Split(l, content).value, Splice(l, content, body).value;
            var b := |k.before| + 2;
            var end := b + |body|;
            && |r| == end + (if k.after == "" then 1 else 2 + |k.after|)
            && r[..|k.before|] == k.before && r[|k.before|..b] == "\n\n" && r[b..end] == body
            && (if k.after == "" then r[end..] == "\n"
                else r[end..end + 2] == "\n\n" && r[end + 2..] == k.after)
  {
    hide Split;
  }

  // ---- what the texts must be like ----

  predicate OneLine(s: string) {
    s != "" && forall i | 0 <= i < |s| :: CharAt(s, i) != Some('\n')
  }

  predicate GoodLayout(l: Layout) {
    && OneLine(l.beginGuard) && OneLine(l.endGuard)
    && |l.ruledHeading| > 1 && l.ruledHeading[0] == '\n' && l.ruledHeading[1] != '\n'
    && l.ruledHeading[1] != l.beginGuard[0]
    && l.heading != "" && l.heading[0] != '\n' && l.heading[0] != l.beginGuard[0]
  }

  predicate OccursOnlyAt(s: string, pattern: string, i: nat) {
    OccursAt(s, pattern, i) && forall j: nat | j < |s| && OccursAt(s, pattern, j) :: j == i
  }

  /** The body starts with the begin guard, ends with the end guard and a newline, and has each once. */
  predicate GoodBody(l: Layout, body: string) {
    && |body| > |l.endGuard| + 1
    && OccursOnlyAt(body, l.beginGuard, 0)
    && OccursOnlyAt(body, l.endGuard, |body| - 1 - |l.endGuard|)
    && body[|body| - 1] == '\n'
  }

  lemma OneLinesJoin(s: string, t: string)
    requires OneLine(s) && OneLine(t)
    ensures OneLine(s + t)
  {
    forall i | 0 <= i < |s + t| ensures CharAt(s + t, i) != Some('\n') {
      assert CharAt(s + t, i) == if i < |s| then CharAt(s, i) else CharAt(t, i - |s|);
    }
  }

  lemma LayoutIsGood()
    ensures GoodLayout(LAYOUT)
  {
    OneLinesJoin("Specification \U{2192} ", "Implementation Index");
    OneLinesJoin(TITLE, " -->");
    OneLinesJoin("GENERATED: ", TITLE + " -->");
    OneLinesJoin("<!-- BEGIN ", "GENERATED: " + (TITLE + " -->"));
    OneLinesJoin("<!-- END ", "GENERATED: " + (TITLE + " -->"));
  }

  // ---- finding guards in a regenerated document ----

  ghost predicate Mentions(s: string, pattern: string) {
    IndexOf(s, pattern).Some?
  }

  /** A one-line pattern that starts before a newline ends before it. */
  lemma StaysOnLine(s: string, pattern: string, i: nat, newline: nat)
    requires OneLine(pattern) && OccursAt(s, pattern, i)
    requires i <= newline < |s| && s[newline] == '\n'
    ensures i + |pattern| <= newline
  {
    assert i + |pattern| > newline ==> CharAt(pattern, newline - i) == CharAt(s, i + (newline - i));
  }

  lemma OccursInPart(whole: string, part: string, at: nat, pattern: string, i: nat)
    requires at + |part| <= |whole| && whole[at..at + |part|] == part
    requires at <= i && i + |pattern| <= at + |part|
    ensures OccursAt(whole, pattern, i) <==> OccursAt(part, pattern, i - at)
  {
    forall k {:trigger CharAt(pattern, k)} | 0 <= k < |pattern|
      ensures CharAt(whole, i + k) == CharAt(part, i - at + k)
    {
      assert whole[at..at + |part|][i - at + k] == whole[i + k];
    }
  }

  /** A one-line pattern absent from `before` and found once in the body is found first where the body has it. */
  lemma FirstIsInBody(before: string, body: string, rest: string, pattern: string, at: nat)
    requires OneLine(pattern) && !Mentions(before, pattern)
    requires OccursOnlyAt(body, pattern, at)
    ensures IndexOf(before + "\n\n" + body + rest, pattern) == Some(|before| + 2 + at)
  {
    var whole := before + "\n\n" + body + rest;
    assert whole[|before|] == '\n' && whole[|before| + 1] == '\n';
    assert whole[..|before|] == before;
    assert whole[|before| + 2..|before| + 2 + |body|] == body;
    OccursInPart(whole, body, |before| + 2, pattern, |before| + 2 + at);
    var found := IndexOf(whole, pattern).value;
    if found < |before| + 2 + at {
      if found <= |before| {
        StaysOnLine(whole, pattern, found, |before|);
        OccursInPart(whole, before, 0, pattern, found);
      } else if found == |before| + 1 {
        StaysOnLine(whole, pattern, found, |before| + 1);
      } else {
        OccursInPart(whole, body, |before| + 2, pattern, found);
      }
    }
  }

  lemma TrimRightOfTrimmed(s: string, newlines: string)
    requires s == "" || s[|s| - 1] != '\n'
    requires forall i | 0 <= i < |newlines| :: newlines[i] == '\n'
    ensures TrimRight(s + newlines) == s
  {
    var whole := s + newlines;
    var m := TrimmedLength(whole, |whole|);
    OnlyNewlinesAfter(whole, |whole|);
    assert forall i | |s| <= i < |whole| :: whole[i] == newlines[i - |s|];
    assert s != "" ==> whole[|s| - 1] == s[|s| - 1];
    assert m == |s|;
  }

  lemma TrimLeftOfTrimmed(newlines: string, s: string)
    requires s == "" || s[0] != '\n'
    requires forall i | 0 <= i < |newlines| :: newlines[i] == '\n'
    ensures TrimLeft(newlines + s) == s
  {
    var whole := newlines + s;
    var m := AfterNewlines(whole, 0);
    OnlyNewlinesBefore(whole, 0);
    assert forall i | 0 <= i < |newlines| :: whole[i] == newlines[i];
    assert s != "" ==> whole[|newlines|] == s[0];
    assert m == |newlines|;
  }

  /** Cutting a joined document around its body gives back what was joined. */
  lemma CutAroundBody(k: Kept, body: string)
    requires Trimmed(k) && body != "" && body[|body| - 1] == '\n'
    ensures var whole := Joined(k, body);
            && |k.before| + 2 + |body| - 1 <= |whole|
            && AroundGuards(whole, |k.before| + 2, |k.before| + 2 + |body| - 1) == k
  {
    hide TrimRight, TrimLeft;
    var whole := Joined(k, body);
    var cut := |k.before| + 2 + |body| - 1;
    var newlines := if k.after != "" then "\n\n\n" else "\n\n";
    JoinedParts(k, body, newlines);
    TrimRightOfTrimmed(k.before, "\n\n");
    TrimLeftOfTrimmed(newlines, k.after);
  }

  /** Where the body of a joined document starts and ends. */
  lemma JoinedParts(k: Kept, body: string, newlines: string)
    requires body != "" && body[|body| - 1] == '\n'
    requires newlines == if k.after != "" then "\n\n\n" else "\n\n"
    ensures var whole := Joined(k, body);
            var cut := |k.before| + 2 + |body| - 1;
            && cut <= |whole|
            && whole[..|k.before| + 2] == k.before + "\n\n"
            && whole[cut..] == newlines + k.after
  {
  }

  /** A regenerated document splits back into what was kept of the original, when no guard was kept before it. */
  lemma SplitOfJoined(l: Layout, k: Kept, body: string)
    requires GoodLayout(l) && GoodBody(l, body) && Trimmed(k)
    requires !Mentions(k.before, l.beginGuard) && !Mentions(k.before, l.endGuard)
    ensures Split(l, Joined(k, body)) == Some(k)
  {
    hide Split, Joined, AroundGuards, Mentions, Trimmed;
    var whole := Joined(k, body);
    GuardsOfJoined(l, k, body);
    CutAroundBody(k, body);
    SplitAtGuards(l, whole, |k.before| + 2, |k.before| + 2 + |body| - 1 - |l.endGuard|);
  }

  lemma GuardsOfJoined(l: Layout, k: Kept, body: string)
    requires GoodLayout(l) && GoodBody(l, body)
    requires !Mentions(k.before, l.beginGuard) && !Mentions(k.before, l.endGuard)
    ensures IndexOf(Joined(k, body), l.beginGuard) == Some(|k.before| + 2)
    ensures IndexOf(Joined(k, body), l.endGuard) == Some(|k.before| + 2 + |body| - 1 - |l.endGuard|)
  {
    var rest := if k.after != "" then "\n\n" + k.after else "\n";
    assert Joined(k, body) == k.before + "\n\n" + body + rest;
    FirstIsInBody(k.before, body, rest, l.beginGuard, 0);
    FirstIsInBody(k.before, body, rest, l.endGuard, |body| - 1 - |l.endGuard|);
  }

  lemma SplitAtGuards(l: Layout, content: string, begin: nat, end: nat)
    requires IndexOf(content, l.beginGuard) == Some(begin) && IndexOf(content, l.endGuard) == Some(end)
    requires begin < end
    ensures begin <= |content| && end + |l.endGuard| <= |content|
    ensures Split(l, content) == Some(AroundGuards(content, begin, end + |l.endGuard|))
  {
    hide IndexOf, AroundGuards, BeforeHeading;
  }

  // ---- when regeneration is idempotent ----

  /** No guard is left over in the text before the section. */
  ghost predicate NoStrayGuard(l: Layout, content: string)
    requires Split(l, content).Some?
  {
    var before := Split(l, content).value.before;
    !Mentions(before, l.beginGuard) && !Mentions(before, l.endGuard)
  }

  lemma PrefixMentions(s: string, t: string, pattern: string)
    requires StartsWith(s, t) && Mentions(t, pattern)
    ensures IndexOf(s, pattern) == IndexOf(t, pattern)
  {
    var i := IndexOf(t, pattern).value;
    assert OccursAt(s, pattern, i);
    var j := IndexOf(s, pattern).value;
    if j < i {
      OccursInPart(s, t, 0, pattern, j);
    }
  }

  /** A pattern mentioned in a prefix ends within it, in the whole text too. */
  lemma FirstEndsInPrefix(s: string, t: string, pattern: string)
    requires StartsWith(s, t) && Mentions(t, pattern)
    ensures Mentions(s, pattern) && IndexOf(s, pattern).value + |pattern| <= |t|
  {
    PrefixMentions(s, t, pattern);
    assert OccursAt(t, pattern, IndexOf(t, pattern).value);
  }

  /** Splitting at the guards never leaves a guard before the section. */
  lemma GuardedHasNoStray(l: Layout, content: string, before: string)
    requires Guarded(l, content) && StartsWith(content, before) && |before| <= IndexOf(content, l.beginGuard).value
    requires l.beginGuard != "" && l.endGuard != ""
    ensures !Mentions(before, l.beginGuard) && !Mentions(before, l.endGuard)
  {
    if Mentions(before, l.beginGuard) {
      FirstEndsInPrefix(content, before, l.beginGuard);
    }
    if Mentions(before, l.endGuard) {
      FirstEndsInPrefix(content, before, l.endGuard);
    }
  }

  lemma BeforeIsPrefix(l: Layout, content: string)
    requires Split(l, content).Some?
    ensures var k := Split(l, content).value;
            && Trimmed(k) && StartsWith(content, k.before)
            && (Guarded(l, content) ==> |k.before| <= IndexOf(content, l.beginGuard).value)
            && (!Guarded(l, content) ==> k.after == "")
  {
    hide IndexOf, AroundGuards, BeforeHeading, Trimmed;
    if Guarded(l, content) {
      KeptIsTrimmed(content, IndexOf(content, l.beginGuard).value, IndexOf(content, l.endGuard).value + |l.endGuard|);
    } else if IndexOf(content, l.ruledHeading).Some? {
      KeptIsTrimmed(content, IndexOf(content, l.ruledHeading).value, 0);
    } else {
      KeptIsTrimmed(content, IndexOf(content, l.heading).value, 0);
    }
  }

  /**
   * A document whose guards are in order, or that has the heading and neither guard, keeps its text
   * before and after the section up to newlines, and regenerating it again changes nothing.
   */
  lemma RegenerationKeepsAndSettles(l: Layout, content: string, body: string)
    requires GoodLayout(l) && GoodBody(l, body)
    requires Split(l, content).Some?
    requires Guarded(l, content) || (!Mentions(content, l.beginGuard) && !Mentions(content, l.endGuard))
    ensures Split(l, Splice(l, content, body).value) == Split(l, content)
    ensures Splice(l, Splice(l, content, body).value, body) == Splice(l, content, body)
  {
    var k := Split(l, content).value;
    BeforeIsPrefix(l, content);
    if Guarded(l, content) {
      GuardedHasNoStray(l, content, k.before);
    } else {
      if Mentions(k.before, l.beginGuard) {
        PrefixMentions(content, k.before, l.beginGuard);
      }
      if Mentions(k.before, l.endGuard) {
        PrefixMentions(content, k.before, l.endGuard);
      }
    }
    SplitOfJoined(l, k, body);
  }

  /** A stray guard makes the second regeneration cut the text elsewhere. */
  lemma StrayGuardMovesCut(l: Layout, content: string, body: string)
    requires GoodLayout(l) && GoodBody(l, body)
    requires Split(l, content).Some? && !NoStrayGuard(l, content)
    ensures Splice(l, Splice(l, content, body).value, body) != Splice(l, content, body)
  {
    var k := Split(l, content).value;
    BeforeIsPrefix(l, content);
    if Guarded(l, content) {
      GuardedHasNoStray(l, content, k.before);
      assert false;
    } else {
      StrayCutDiffers(l, content, k.before, body);
    }
  }

  lemma StrayCutDiffers(l: Layout, content: string, before: string, body: string)
    requires GoodLayout(l) && GoodBody(l, body)
    requires StartsWith(content, before) && !Guarded(l, content)
    requires before == "" || before[|before| - 1] != '\n'
    requires Mentions(before, l.beginGuard) || Mentions(before, l.endGuard)
    ensures Splice(l, before + "\n\n" + body + "\n", body) != Some(before + "\n\n" + body + "\n")
  {
    var whole := before + "\n\n" + body + "\n";
    var again := Split(l, whole);
    if again.Some? {
      if Guarded(l, whole) {
        StrayWithGuards(l, content, before, body);
      } else {
        StrayWithoutGuards(l, before, body, again.value);
      }
      assert |Joined(again.value, body)| != |whole|;
    }
  }

  /** Then the first begin guard is the stray one, and nothing but newlines follows the first end guard. */
  lemma StrayWithGuards(l: Layout, content: string, before: string, body: string)
    requires GoodLayout(l) && GoodBody(l, body)
    requires StartsWith(content, before) && !Guarded(l, content)
    requires Mentions(before, l.beginGuard) || Mentions(before, l.endGuard)
    requires Guarded(l, before + "\n\n" + body + "\n")
    ensures var again := Split(l, before + "\n\n" + body + "\n").value;
            |again.before| < |before| && again.after == ""
  {
    hide AroundGuards, BeforeHeading;
    var whole := before + "\n\n" + body + "\n";
    assert StartsWith(whole, before);
    if Mentions(before, l.endGuard) {
      StrayEndGuard(l, content, before, body);
    }
    FirstIsInBody(before, body, "\n", l.endGuard, |body| - 1 - |l.endGuard|);
    FirstEndsInPrefix(whole, before, l.beginGuard);
    CutAfterLastGuard(before, body, IndexOf(whole, l.beginGuard).value, |l.endGuard|);
  }

  /** An end guard kept in `before` would have a begin guard before it, there and in the first document. */
  lemma StrayEndGuard(l: Layout, content: string, before: string, body: string)
    requires GoodLayout(l)
    requires StartsWith(content, before) && Mentions(before, l.endGuard)
    requires Guarded(l, before + "\n\n" + body + "\n")
    ensures Guarded(l, content)
  {
    var whole := before + "\n\n" + body + "\n";
    assert StartsWith(whole, before);
    PrefixMentions(whole, before, l.endGuard);
    PrefixMentions(content, before, l.endGuard);
    var b := IndexOf(whole, l.beginGuard).value;
    BeginsInBefore(l, before, body, b);
    OccursInPart(whole, before, 0, l.beginGuard, b);
    PrefixMentions(whole, before, l.beginGuard);
    PrefixMentions(content, before, l.beginGuard);
  }

  /** Cutting after the end guard of the body leaves only newlines. */
  lemma CutAfterLastGuard(before: string, body: string, begin: nat, guard: nat)
    requires begin < |before| && guard < |body| && body[|body| - 1] == '\n'
    ensures var whole := before + "\n\n" + body + "\n";
            var again := AroundGuards(whole, begin, |before| + 2 + |body| - 1);
            |again.before| < |before| && again.after == ""
  {
    hide TrimRight, TrimLeft;
    var whole := before + "\n\n" + body + "\n";
    assert whole[|before| + 2 + |body| - 1..] == "\n\n" + "";
    TrimLeftOfTrimmed("\n\n", "");
  }

  /** A begin guard that starts before an end guard kept in `before` lies in `before` itself. */
  lemma BeginsInBefore(l: Layout, before: string, body: string, b: nat)
    requires GoodLayout(l) && Mentions(before, l.endGuard)
    requires b < IndexOf(before, l.endGuard).value
    requires OccursAt(before + "\n\n" + body + "\n", l.beginGuard, b)
    ensures b + |l.beginGuard| <= |before|
  {
    var whole := before + "\n\n" + body + "\n";
    assert whole[|before|] == '\n';
    StaysOnLine(whole, l.beginGuard, b, |before|);
  }

  /** The second cut is at a heading, which cannot start where the first body starts. */
  lemma StrayWithoutGuards(l: Layout, before: string, body: string, again: Kept)
    requires GoodLayout(l) && GoodBody(l, body)
    requires before == "" || before[|before| - 1] != '\n'
    requires !Guarded(l, before + "\n\n" + body + "\n")
    requires Split(l, before + "\n\n" + body + "\n") == Some(again)
    ensures |again.before| != |before| && again.after == ""
  {
    hide TrimRight;
    var whole := before + "\n\n" + body + "\n";
    var ruled := IndexOf(whole, l.ruledHeading);
    var cut := if ruled.Some? then ruled.value else IndexOf(whole, l.heading).value;
    var pattern := if ruled.Some? then l.ruledHeading else l.heading;
    assert whole[|before|] == '\n' && whole[|before| + 1] == '\n' && whole[|before| + 2] == body[0];
    assert CharAt(l.beginGuard, 0) == CharAt(body, 0);
    assert CharAt(pattern, 0) == CharAt(whole, cut);
    if ruled.Some? {
      assert CharAt(pattern, 1) == CharAt(whole, cut + 1);
    }
    assert !(|before| <= cut <= |before| + 2);
    if cut > |before| + 2 {
      assert whole[..cut][|before| + 2] != '\n';
      TrimsOnlyNewlines(whole[..cut]);
    }
  }

  /** Regenerating twice is regenerating once exactly when no guard is left over before the section. */
  lemma IdempotentExactlyWithoutStrayGuard(l: Layout, content: string, body: string)
    requires GoodLayout(l) && GoodBody(l, body)
    requires Split(l, content).Some?
    ensures NoStrayGuard(l, content) <==>
            Splice(l, Splice(l, content, body).value, body) == Splice(l, content, body)
  {
    if NoStrayGuard(l, content) {
      BeforeIsPrefix(l, content);
      SplitOfJoined(l, Split(l, content).value, body);
    } else {
      StrayGuardMovesCut(l, content, body);
    }
  }
}
