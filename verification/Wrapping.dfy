/**
 * Greedy wrapping of a node label.
 */
module Wrapping {
  import opened Text

  // ----------------------------------------------------------------- words

  function FirstNewline(s: string): (k: nat)
    ensures k <= |s| && (k < |s| ==> s[k] == '\n') && '\n' !in s[..k]
  {
    if s == "" || s[0] == '\n' then 0 else 1 + FirstNewline(s[1..])
  }

  function LineUpTo(s: string, k: nat): string
    requires k < |s|
  {
    if k > 0 && s[k - 1] == '\r' then s[..k - 1] else s[..k]
  }

  /** Split at each newline, with the carriage return before it if there is one. */
  function SourceLines(s: string): (r: seq<string>)
    ensures |r| >= 1
  {
    var k := FirstNewline(s);
    if k == |s| then [s]
    else [LineUpTo(s, k)] + SourceLines(s[k + 1..])
  }

  /** The lines with a newline between them. */
  function Joined(lines: seq<string>): string {
    if lines == [] then "" else if |lines| == 1 then lines[0] else lines[0] + "\n" + Joined(lines[1..])
  }

  /** Without the carriage returns that stand right before a newline. */
  function Plain(s: string): string {
    if s == "" then "" else (if |s| > 1 && s[0] == '\r' && s[1] == '\n' then "" else [s[0]]) + Plain(s[1..])
  }

  lemma BreakFirst(s: string)
    requires s != "" && s[0] == '\n'
    ensures SourceLines(s) == [""] + SourceLines(s[1..])
  {
    assert FirstNewline(s) == 0 && s[..0] == "";
  }

  lemma ReturnFirst(s: string)
    requires |s| > 1 && s[0] == '\r' && s[1] == '\n'
    ensures SourceLines(s) == SourceLines(s[1..])
  {
    BreakFirst(s[1..]);
    assert s[1..][1..] == s[2..];
    assert FirstNewline(s[1..]) == 0 && FirstNewline(s) == 1 && s[..0] == "";
  }

  lemma OtherFirst(s: string)
    requires s != "" && s[0] != '\n' && !(s[0] == '\r' && |s| > 1 && s[1] == '\n')
    ensures SourceLines(s) == [[s[0]] + SourceLines(s[1..])[0]] + SourceLines(s[1..])[1..]
  {
    var k, t := FirstNewline(s[1..]), s[1..];
    assert FirstNewline(s) == k + 1;
    hide SourceLines, FirstNewline, LineUpTo;
    LineAt(t); LineAt(s);
    if k == |t| {
      assert s == [s[0]] + t;
      FirstAndRest(t, []);
      assert [t] + [] == [t];
    } else {
      LineGrows(s, k);
      assert s[k + 2..] == t[k + 1..];
      FirstAndRest(LineUpTo(t, k), SourceLines(t[k + 1..]));
    }
  }

  lemma FirstAndRest(line: string, rest: seq<string>)
    ensures ([line] + rest)[0] == line && ([line] + rest)[1..] == rest
  {
  }

  lemma LineGrows(s: string, k: nat)
    requires k + 1 < |s| && s[k + 1] == '\n' && !(s[0] == '\r' && s[1] == '\n')
    ensures LineUpTo(s, k + 1) == [s[0]] + LineUpTo(s[1..], k)
  {
    var t := s[1..];
    assert s[..k + 1] == [s[0]] + t[..k];
    if k > 0 { assert s[k] == t[k - 1] && s[..k] == [s[0]] + t[..k - 1]; }
  }

  lemma LineAt(s: string)
    ensures var k := FirstNewline(s);
      SourceLines(s) == if k == |s| then [s] else [LineUpTo(s, k)] + SourceLines(s[k + 1..])
  {
    hide FirstNewline, LineUpTo;
  }

  /**
   * Splitting a label into its lines loses nothing: put together again they are the label,
   * but for the carriage returns before its newlines, and no line holds a newline.
   */
  lemma {:induction false} SourceLinesLoseNothing(s: string)
    ensures Joined(SourceLines(s)) == Plain(s)
    ensures forall k :: 0 <= k < |SourceLines(s)| ==> '\n' !in SourceLines(s)[k]
  {
    hide SourceLines;
    if s == "" {
      EmptyLine();
    } else {
      SourceLinesLoseNothing(s[1..]);
      var rest := SourceLines(s[1..]);
      if s[0] == '\n' {
        BreakFirst(s);
        assert ([""] + rest)[1..] == rest;
      } else if s[0] == '\r' && |s| > 1 && s[1] == '\n' {
        ReturnFirst(s);
      } else {
        OtherFirst(s);
        assert Joined([[s[0]] + rest[0]] + rest[1..]) == [s[0]] + Joined(rest);
      }
    }
  }

  lemma EmptyLine()
    ensures SourceLines("") == [""]
  {
  }

  function RunEnd(s: string): (k: nat)
    ensures k <= |s| && (s != "" && !IsSpace(s[0]) ==> k > 0)
    ensures forall i :: 0 <= i < k ==> !IsSpace(s[i])
    ensures k < |s| ==> IsSpace(s[k])
  {
    if s == "" || IsSpace(s[0]) then 0 else 1 + RunEnd(s[1..])
  }

  predicate IsWord(x: string) { x != "" && forall c <- x :: !IsSpace(c) }

  /** The maximal runs free of white space, in order: trim, split at the gaps, drop blanks. */
  function Words(s: string): (w: seq<string>)
    ensures forall x <- w :: IsWord(x)
  {
    if s == "" then []
    else if IsSpace(s[0]) then Words(s[1..])
    else [s[..RunEnd(s)]] + Words(s[RunEnd(s)..])
  }

  function Solid(s: string): string {
    if s == "" then "" else (if IsSpace(s[0]) then "" else [s[0]]) + Solid(s[1..])
  }

  function Flat<T>(xs: seq<seq<T>>): seq<T> {
    if xs == [] then [] else xs[0] + Flat(xs[1..])
  }

  lemma {:induction false} SolidOfRun(s: string, k: nat)
    requires k <= |s| && forall i :: 0 <= i < k ==> !IsSpace(s[i])
    ensures Solid(s) == s[..k] + Solid(s[k..])
  {
    if k > 0 {
      SolidOfRun(s[1..], k - 1);
      assert s[1..][k - 1..] == s[k..] && [s[0]] + s[1..][..k - 1] == s[..k];
    } else {
      assert s[0..] == s;
    }
  }

  /** Splitting into words loses white space and nothing else. */
  lemma {:induction false} WordsLoseNothing(s: string)
    ensures Flat(Words(s)) == Solid(s)
    decreases |s|
  {
    if s != "" {
      if IsSpace(s[0]) {
        WordsLoseNothing(s[1..]);
      } else {
        var k := RunEnd(s);
        WordsLoseNothing(s[k..]);
        SolidOfRun(s, k);
        assert Words(s)[0] == s[..k] && Words(s)[1..] == Words(s[k..]);
      }
    }
  }

  // ---------------------------------------------------------------- greedy

  /** The words of one printed line, joined by single spaces. */
  function Join(g: seq<string>): string {
    if g == [] then "" else if |g| == 1 then g[0] else Join(g[..|g| - 1]) + " " + g[|g| - 1]
  }

  lemma {:induction false} JoinConcat(a: seq<string>, b: seq<string>)
    requires a != [] && b != []
    ensures Join(a + b) == Join(a) + " " + Join(b)
  {
    var n := |b| - 1;
    assert (a + b)[..|a + b| - 1] == a + b[..n];
    if n > 0 { JoinConcat(a, b[..n]); } else { assert a + b[..n] == a; }
  }

  lemma WordThenRest(x: string, t: string)
    requires IsWord(x)
    ensures Words(x) == [x] && Words(x + " " + t) == [x] + Words(t)
  {
    var s := x + " " + t;
    assert forall i :: 0 <= i < |x| ==> s[i] == x[i] && x[i] in x;
    assert IsSpace(s[|x|]);
    assert RunEnd(s) == |x| && s[..|x|] == x && s[|x|..] == " " + t && s[|x|..][1..] == t;
    assert RunEnd(x) == |x| && x[..|x|] == x && x[|x|..] == "";
  }

  lemma JoinFront(g: seq<string>)
    requires g != []
    ensures Join(g) == if |g| == 1 then g[0] else g[0] + " " + Join(g[1..])
  {
    if |g| > 1 {
      assert g == g[..1] + g[1..] && Join(g[..1]) == g[0];
      JoinConcat(g[..1], g[1..]);
    }
  }

  /** Reading a printed line back gives its words: they are parted exactly at the gaps. */
  lemma {:induction false} WordsOfJoin(g: seq<string>)
    requires forall x <- g :: IsWord(x)
    ensures Words(Join(g)) == g
  {
    assert Words("") == [] && Join([]) == "";
    if g != [] {
      JoinFront(g);
      hide IsWord, Words, Join;
      assert g[0] in g && forall x <- g[1..] :: x in g;
      WordThenRest(g[0], Join(g[1..]));
      if |g| > 1 { WordsOfJoin(g[1..]); }
    }
  }

  lemma JoinMore(w: seq<string>, k: nat)
    requires 0 < k < |w|
    ensures Join(w[..k + 1]) == Join(w[..k]) + " " + w[k]
  {
    assert w[..k + 1][..k] == w[..k];
  }

  /** How many words the first line takes, when k of them are on it already. */
  function Extend(w: seq<string>, max: nat, k: nat): (n: nat)
    requires 0 < k <= |w|
    ensures k <= n <= |w|
    ensures n < |w| ==> |Join(w[..n + 1])| > max
    ensures n == k || |Join(w[..n])| <= max
    decreases |w| - k
  {
    if k < |w| && |Join(w[..k + 1])| <= max then Extend(w, max, k + 1) else k
  }

  /** The lines greedy wrapping prints, as groups of words. */
  function Greedy(w: seq<string>, max: nat): (gs: seq<seq<string>>)
    decreases |w|
  {
    if w == [] then []
    else var n := Extend(w, max, 1); [w[..n]] + Greedy(w[n..], max)
  }

  lemma GreedyStep(w: seq<string>, max: nat)
    ensures w == [] ==> Greedy(w, max) == []
    ensures w != [] ==> var n := Extend(w, max, 1); Greedy(w, max) == [w[..n]] + Greedy(w[n..], max)
  {
  }

  function Lines(gs: seq<seq<string>>): (r: seq<string>)
    ensures |r| == |gs| && forall k :: 0 <= k < |gs| ==> r[k] == Join(gs[k])
  {
    seq(|gs|, k requires 0 <= k < |gs| => Join(gs[k]))
  }

  /** A line holds one word, or several within the width. */
  predicate Fits(g: seq<string>, max: nat) {
    |g| == 1 || (|g| > 1 && |Join(g)| <= max)
  }

  /** The words in order, none lost, every line within the rule. */
  ghost predicate Admissible(gs: seq<seq<string>>, w: seq<string>, max: nat) {
    Flat(gs) == w && forall g <- gs :: Fits(g, max)
  }

  lemma {:induction false} GreedyIsAdmissible(w: seq<string>, max: nat)
    ensures Admissible(Greedy(w, max), w, max)
    decreases |w|
  {
    if w != [] {
      var n := Extend(w, max, 1);
      GreedyIsAdmissible(w[n..], max);
      assert w[..n] + w[n..] == w;
      assert Greedy(w, max)[1..] == Greedy(w[n..], max);
    }
  }

  lemma {:induction false} ExtendReaches(w: seq<string>, max: nat, k: nat, n: nat)
    requires 0 < k <= n <= |w| && Fits(w[..n], max)
    ensures n <= Extend(w, max, k)
    decreases n - k
  {
    if k < n {
      if k + 1 < n {
        assert w[..n] == w[..k + 1] + w[k + 1..n];
        JoinConcat(w[..k + 1], w[k + 1..n]);
      }
      ExtendReaches(w, max, k + 1, n);
    }
  }

  lemma TailFits(g: seq<string>, max: nat, j: nat)
    requires Fits(g, max) && j < |g|
    ensures Fits(g[j..], max)
  {
    if j > 0 {
      assert g == g[..j] + g[j..];
      JoinConcat(g[..j], g[j..]);
    } else {
      assert g[0..] == g;
    }
  }

  lemma FlatDrop<T>(gs: seq<seq<T>>, j: nat)
    requires gs != [] && |gs[0]| <= j <= |Flat(gs)|
    ensures j - |gs[0]| <= |Flat(gs[1..])|
    ensures Flat(gs)[j..] == Flat(gs[1..])[j - |gs[0]|..]
  {
  }

  /** What greedy has left after its first line is a tail of what any layout has left. */
  lemma FirstLineReaches(gs: seq<seq<string>>, max: nat, j: nat) returns (n: nat)
    requires gs != [] && Fits(gs[0], max) && j < |gs[0]|
    ensures |gs[0]| <= j + n <= |Flat(gs)|
    ensures Greedy(Flat(gs)[j..], max) == [Flat(gs)[j..][..n]] + Greedy(Flat(gs)[j + n..], max)
  {
    var w, m := Flat(gs)[j..], |gs[0]| - j;
    assert w[..m] == gs[0][j..];
    TailFits(gs[0], max, j);
    ExtendReaches(w, max, 1, m);
    n := Extend(w, max, 1);
    assert w[n..] == Flat(gs)[j + n..];
  }

  /** Greedy needs no more lines for a tail of the words than any layout of all of them. */
  lemma {:induction false} GreedyStaysAhead(gs: seq<seq<string>>, max: nat, j: nat)
    requires forall g <- gs :: Fits(g, max)
    requires j <= |Flat(gs)|
    ensures |Greedy(Flat(gs)[j..], max)| <= |gs|
    decreases |gs|
  {
    hide Greedy, Fits;
    if j == |Flat(gs)| {
      GreedyStep(Flat(gs)[j..], max);
    } else {
      var k := j;
      if j < |gs[0]| {
        var n := FirstLineReaches(gs, max, j);
        k := j + n;
      }
      FlatDrop(gs, k);
      assert forall x <- gs[1..] :: x in gs;
      GreedyStaysAhead(gs[1..], max, k - |gs[0]|);
    }
  }

  /** Greedy wrapping is admissible, and no admissible layout of the words has fewer lines. */
  lemma GreedyIsOptimal(w: seq<string>, max: nat, gs: seq<seq<string>>)
    ensures Admissible(Greedy(w, max), w, max)
    ensures Admissible(gs, w, max) ==> |Greedy(w, max)| <= |gs|
  {
    GreedyIsAdmissible(w, max);
    if Admissible(gs, w, max) {
      GreedyStaysAhead(gs, max, 0);
      assert w[0..] == w;
    }
  }

  // ------------------------------------------------------------ splitLabel

  /** The printed lines of one source line; a blank one prints as an empty line. */
  function WrapSource(source: string, max: nat): (r: seq<string>)
    ensures |r| >= 1
  {
    if Words(source) == [] then [""] else Lines(Greedy(Words(source), max))
  }

  function WrapAll(sources: seq<string>, max: nat): (r: seq<string>)
    ensures |r| >= |sources|
  {
    if sources == [] then []
    else WrapAll(sources[..|sources| - 1], max) + WrapSource(sources[|sources| - 1], max)
  }

  const MAX_LINES := 3

  function LabelLines(labelText: string, max: nat): (r: seq<string>)
    ensures 1 <= |r| <= MAX_LINES
  {
    var all := WrapAll(SourceLines(labelText), max);
    if |all| <= MAX_LINES then all else all[..MAX_LINES]
  }

  lemma {:induction false} ExtendWithin(w: seq<string>, max: nat, k: nat, n: nat)
    requires 0 < k < n && k <= |w| && n <= Extend(w, max, k)
    ensures |Join(w[..n])| <= max
    decreases n - k
  {
    if k + 1 < n { ExtendWithin(w, max, k + 1, n); }
  }

  /** On a line that greedy is still filling, the next word goes where greedy puts it. */
  lemma NextWord(w: seq<string>, max: nat, k: nat)
    requires 0 < k < |w| && k <= Extend(w, max, 1)
    ensures Join(w[..k + 1]) == Join(w[..k]) + " " + w[k]
    ensures |Join(w[..k + 1])| <= max <==> k + 1 <= Extend(w, max, 1)
  {
    JoinMore(w, k);
    if k + 1 <= Extend(w, max, 1) { ExtendWithin(w, max, 1, k + 1); }
    if |Join(w[..k + 1])| <= max { ExtendReaches(w, max, 1, k + 1); }
  }

  lemma JoinOne(x: string)
    ensures Join([x]) == x && Join([]) == ""
  {
  }

  lemma WordsAreNotEmpty(s: string)
    ensures forall x <- Words(s) :: x != ""
  {
  }

  lemma {:induction false} LongLineOfAll(sources: seq<string>, max: nat, k: nat)
    requires k < |WrapAll(sources, max)| && |WrapAll(sources, max)[k]| > max
    ensures IsWord(WrapAll(sources, max)[k])
    decreases |sources|
  {
    var n := |sources| - 1;
    var before := WrapAll(sources[..n], max);
    if k < |before| {
      LongLineOfAll(sources[..n], max, k);
    } else {
      LongLineOfSource(sources[n], max, k - |before|);
    }
  }

  lemma LongLineOfSource(source: string, max: nat, k: nat)
    requires k < |WrapSource(source, max)| && |WrapSource(source, max)[k]| > max
    ensures IsWord(WrapSource(source, max)[k])
  {
    var w := Words(source);
    if w != [] {
      var gs := Greedy(w, max);
      GreedyIsAdmissible(w, max);
      hide Greedy, IsWord, Words;
      assert gs[k] in gs && Fits(gs[k], max);
      assert |gs[k]| == 1 && Join(gs[k]) == gs[k][0];
      InFlat(gs, k);
    }
  }

  lemma {:induction false} InFlat(gs: seq<seq<string>>, k: nat)
    requires k < |gs| && |gs[k]| == 1
    ensures gs[k][0] in Flat(gs)
    decreases |gs|
  {
    if k > 0 { InFlat(gs[1..], k - 1); }
  }

  lemma LineOfWords(g: seq<string>, max: nat)
    requires (forall x <- g :: IsWord(x)) && |Join(g)| <= max
    ensures WrapSource(Join(g), max) == [Join(g)]
  {
    hide Words, Join, Greedy, IsWord, Extend;
    WordsOfJoin(g);
    if g == [] {
      JoinOne("");
    } else {
      assert g[..|g|] == g && g[|g|..] == [];
      ExtendReaches(g, max, 1, |g|);
      GreedyStep(g, max);
      GreedyStep([], max);
      assert Lines([g]) == [Join(g)];
    }
  }

  lemma {:induction false} JoinHasNoBreak(g: seq<string>)
    requires forall x <- g :: IsWord(x)
    ensures '\n' !in Join(g) && '\r' !in Join(g)
  {
    assert IsSpace('\n') && IsSpace('\r') && '\n' !in " " && '\r' !in " ";
    if g != [] {
      var last := g[|g| - 1];
      assert last in g;
      JoinHasNoBreak(g[..|g| - 1]);
    }
  }

  lemma {:induction false} LineAndRest(line: string, rest: string)
    requires '\n' !in line && '\r' !in line
    ensures SourceLines(line) == [line]
    ensures SourceLines(line + "\n" + rest) == [line] + SourceLines(rest)
  {
    hide SourceLines;
    var s := line + "\n" + rest;
    if line == "" {
      EmptyLine();
      BreakFirst(s);
      assert s[1..] == rest;
    } else {
      LineAndRest(line[1..], rest);
      OtherFirst(line); OtherFirst(s);
      assert s[1..] == line[1..] + "\n" + rest;
      assert [line[0]] + line[1..] == line;
    }
  }

  /** A label whose lines are words one space apart, within the width. */
  ghost predicate Tidy(lines: seq<string>, max: nat) {
    forall k :: 0 <= k < |lines| ==> |lines[k]| <= max && exists g :: lines[k] == Join(g) && forall x <- g :: IsWord(x)
  }

  lemma {:induction false} TidyLinesStay(lines: seq<string>, max: nat)
    requires lines != [] && Tidy(lines, max)
    ensures SourceLines(Joined(lines)) == lines
  {
    hide SourceLines;
    var g :| lines[0] == Join(g) && forall x <- g :: IsWord(x);
    JoinHasNoBreak(g);
    LineAndRest(lines[0], Joined(lines[1..]));
    if |lines| > 1 { TidyLinesStay(lines[1..], max); }
  }

  lemma {:induction false} TidyLinesPrint(lines: seq<string>, max: nat)
    requires Tidy(lines, max)
    ensures WrapAll(lines, max) == lines
  {
    hide Join, WrapSource, IsWord;
    if lines != [] {
      var n := |lines| - 1;
      var g :| lines[n] == Join(g) && forall x <- g :: IsWord(x);
      LineOfWords(g, max);
      TidyLinesPrint(lines[..n], max);
      assert lines[..n] + [lines[n]] == lines;
    }
  }

  /** Such a label prints as it is written, but for what follows its third line. */
  lemma TidyLabelPrintsAsWritten(lines: seq<string>, max: nat)
    requires lines != [] && Tidy(lines, max)
    ensures LabelLines(Joined(lines), max) == if |lines| <= 3 then lines else lines[..3]
  {
    hide SourceLines, WrapAll, Tidy;
    TidyLinesStay(lines, max);
    TidyLinesPrint(lines, max);
  }

  /** A printed line over the width is a single word. */
  lemma LongLineIsOneWord(labelText: string, max: nat, k: nat)
    requires k < |LabelLines(labelText, max)| && |LabelLines(labelText, max)[k]| > max
    ensures IsWord(LabelLines(labelText, max)[k])
  {
    hide IsWord, WrapAll, SourceLines;
    LongLineOfAll(SourceLines(labelText), max, k);
  }

  method WrapWords(words: seq<string>, max: nat) returns (lines: seq<string>)
    requires forall x <- words :: x != ""
    ensures lines == Lines(Greedy(words, max))
  {
    hide Greedy, Join, Extend;
    GreedyStep([], max);
    lines := [];
    var line := "";
    ghost var done: seq<seq<string>>, start: nat := [], 0;
    JoinOne("");
    assert words[0..] == words;
    for i := 0 to |words|
      invariant start <= i <= |words| && (i > 0 ==> start < i)
      invariant lines == Lines(done)
      invariant Greedy(words, max) == done + Greedy(words[start..], max)
      invariant line == Join(words[start..][..i - start])
      invariant line == "" <==> i == 0
      invariant i > 0 ==> i - start <= Extend(words[start..], max, 1)
    {
      ghost var rest, k := words[start..], i - start;
      var word := words[i];
      assert word in words && rest[k] == word && words[i..][..1] == [word];
      JoinOne(word);
      if i > 0 { NextWord(rest, max, k); }
      if line == "" || |line| + 1 + |word| <= max {
        line := if line != "" then line + " " + word else word;
      } else {
        GreedyStep(rest, max);
        assert rest[k..] == words[i..];
        lines := lines + [line];
        done := done + [rest[..k]];
        start := i;
        line := word;
      }
    }
    if line != "" {
      ghost var rest := words[start..];
      GreedyStep(rest, max);
      assert rest[..|rest|] == rest && rest[|rest|..] == [];
      done := done + [rest];
      lines := lines + [line];
    }
    assert Greedy(words, max) == done;
  }

  method SplitLabel(labelText: string, max: nat) returns (lines: seq<string>)
    ensures lines == LabelLines(labelText, max)
  {
    hide Greedy, Lines, SourceLines, Words, IsWord;
    var explicit := SourceLines(labelText);
    lines := [];
    for i := 0 to |explicit|
      invariant lines == WrapAll(explicit[..i], max)
    {
      assert explicit[..i + 1][..i] == explicit[..i];
      var words := Words(explicit[i]);
      WordsAreNotEmpty(explicit[i]);
      if words == [] {
        lines := lines + [""];
      } else {
        var wrapped := WrapWords(words, max);
        lines := lines + wrapped;
      }
    }
    assert explicit[..|explicit|] == explicit;
    if |lines| > MAX_LINES { lines := lines[..MAX_LINES]; }
  }
}
