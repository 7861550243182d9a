/** The greedy line wrapper (src/ui/helpers/chat_render.rs). `width` is the display width of a word in
    columns, which this model takes as given. */
module ChatRender {

  import opened Text

  type Widths = string -> nat

  /** The width the wrapper accounts for a line of these words: a separating column is counted, and a space
      written, only behind something of positive width. */
  function GroupWidth(width: Widths, g: seq<string>): nat {
    if g == [] then 0
    else
      var before := GroupWidth(width, g[..|g| - 1]);
      before + (if before > 0 then 1 else 0) + width(g[|g| - 1])
  }

  /** The line it writes for these words. */
  function Render(width: Widths, g: seq<string>): string {
    if g == [] then ""
    else
      var before := g[..|g| - 1];
      Render(width, before) + (if GroupWidth(width, before) > 0 then " " else "") + g[|g| - 1]
  }

  function RenderAll(width: Widths, groups: seq<seq<string>>): (lines: seq<string>)
    ensures |lines| == |groups|
  {
    if groups == [] then []
    else RenderAll(width, groups[..|groups| - 1]) + [Render(width, groups[|groups| - 1])]
  }

  /** The rule every line obeys: it fits, or it is one word. */
  predicate IsLegalLine(width: Widths, max: nat, g: seq<string>) {
    g != [] && (GroupWidth(width, g) <= max || |g| == 1)
  }

  function Flatten(groups: seq<seq<string>>): seq<string> {
    if groups == [] then [] else groups[0] + Flatten(groups[1..])
  }

  /** A split of `words` into consecutive legal lines. */
  ghost predicate IsWrapping(width: Widths, max: nat, words: seq<string>, groups: seq<seq<string>>) {
    Flatten(groups) == words && forall i :: 0 <= i < |groups| ==> IsLegalLine(width, max, groups[i])
  }

  /** The longest legal line the words can start with, found from `n` words on. */
  function Longest(width: Widths, max: nat, words: seq<string>, n: nat): (k: nat)
    requires n <= |words|
    ensures n <= k <= |words|
    decreases |words| - n
  {
    if n < |words| && GroupWidth(width, words[..n + 1]) <= max then Longest(width, max, words, n + 1) else n
  }

  /** Each line takes as many words as fit, and at least one. */
  function Greedy(width: Widths, max: nat, words: seq<string>): seq<seq<string>> {
    if words == [] then []
    else
      var k := Longest(width, max, words, 1);
      [words[..k]] + Greedy(width, max, words[k..])
  }

  // ----- Widths -----

  lemma GroupWidthStep(width: Widths, words: seq<string>, n: nat)
    requires n < |words|
    ensures GroupWidth(width, words[..n]) <= GroupWidth(width, words[..n + 1])
    ensures width(words[n]) <= GroupWidth(width, words[..n + 1])
    ensures GroupWidth(width, words[..n + 1])
         == GroupWidth(width, words[..n]) + (if GroupWidth(width, words[..n]) > 0 then 1 else 0) + width(words[n])
  {
    assert words[..n + 1][..n] == words[..n];
  }

  lemma {:induction false} PrefixNotWider(width: Widths, words: seq<string>, n: nat, m: nat)
    requires n <= m <= |words|
    ensures GroupWidth(width, words[..n]) <= GroupWidth(width, words[..m])
    decreases m
  {
    if n < m {
      GroupWidthStep(width, words, m - 1);
      PrefixNotWider(width, words, n, m - 1);
    }
  }

  lemma {:induction false} TailNotWider(width: Widths, g: seq<string>)
    requires g != []
    ensures GroupWidth(width, g[1..]) <= GroupWidth(width, g)
  {
    var n := |g| - 1;
    if n > 0 {
      TailNotWider(width, g[..n]);
      assert g[1..][..n - 1] == g[..n][1..];
    }
  }

  lemma {:induction false} SuffixNotWider(width: Widths, g: seq<string>, d: nat)
    requires d <= |g|
    ensures GroupWidth(width, g[d..]) <= GroupWidth(width, g)
  {
    if d > 0 {
      SuffixNotWider(width, g, d - 1);
      TailNotWider(width, g[d - 1..]);
      assert g[d - 1..][1..] == g[d..];
    }
  }

  // ----- The longest line -----

  /** `Longest` stops at the first line that the next word would overfill. */
  lemma {:induction false} LongestIs(width: Widths, max: nat, words: seq<string>, n: nat, k: nat)
    requires n <= k <= |words|
    requires n < k ==> GroupWidth(width, words[..k]) <= max
    requires k < |words| ==> GroupWidth(width, words[..k + 1]) > max
    ensures Longest(width, max, words, n) == k
    decreases k - n
  {
    if n < k {
      PrefixNotWider(width, words, n + 1, k);
      LongestIs(width, max, words, n + 1, k);
    }
  }

  /** No longer legal line exists. */
  lemma {:induction false} LongestIsMaximal(width: Widths, max: nat, words: seq<string>, n: nat, k: nat)
    requires n <= k <= |words|
    requires n < k ==> GroupWidth(width, words[..k]) <= max
    ensures k <= Longest(width, max, words, n)
    decreases k - n
  {
    if n < k {
      PrefixNotWider(width, words, n + 1, k);
      LongestIsMaximal(width, max, words, n + 1, k);
    }
  }

  lemma {:induction false} LongestIsLegal(width: Widths, max: nat, words: seq<string>, n: nat)
    requires 1 <= n <= |words| && IsLegalLine(width, max, words[..n])
    ensures IsLegalLine(width, max, words[..Longest(width, max, words, n)])
    decreases |words| - n
  {
    if n < |words| && GroupWidth(width, words[..n + 1]) <= max {
      LongestIsLegal(width, max, words, n + 1);
    }
  }

  // ----- Greedy wrapping is a wrapping, and an optimal one -----

  /** The words come out in order, on legal lines. */
  lemma {:induction false} GreedyWraps(width: Widths, max: nat, words: seq<string>)
    ensures IsWrapping(width, max, words, Greedy(width, max, words))
    decreases |words|
  {
    if words != [] {
      var k := Longest(width, max, words, 1);
      LongestIsLegal(width, max, words, 1);
      GreedyWraps(width, max, words[k..]);
      assert words == words[..k] + words[k..];
      assert Greedy(width, max, words)[1..] == Greedy(width, max, words[k..]);
    }
  }

  /** Greedy stays ahead: starting `d` words further on, it needs no more lines than any wrapping. */
  lemma {:induction false} GreedyStaysAhead(width: Widths, max: nat, words: seq<string>, d: nat,
                                            groups: seq<seq<string>>)
    requires IsWrapping(width, max, words, groups) && d <= |words|
    ensures |Greedy(width, max, words[d..])| <= |groups|
    decreases |groups|
  {
    var mine := words[d..];
    if mine != [] {
      var g := |groups[0]|;
      assert words[..g] == groups[0] && words[g..] == Flatten(groups[1..]);
      var k := Longest(width, max, mine, 1);
      if d < g && 1 < g - d {
        SuffixNotWider(width, groups[0], d);
        assert groups[0][d..] == mine[..g - d];
        LongestIsMaximal(width, max, mine, 1, g - d);
      }
      assert words[g..][d + k - g..] == mine[k..];
      GreedyStaysAhead(width, max, words[g..], d + k - g, groups[1..]);
    }
  }

  /** No other split into consecutive legal lines has fewer lines. */
  lemma GreedyIsOptimal(width: Widths, max: nat, words: seq<string>, groups: seq<seq<string>>)
    requires IsWrapping(width, max, words, groups)
    ensures |Greedy(width, max, words)| <= |groups|
  {
    GreedyStaysAhead(width, max, words, 0, groups);
    assert words[0..] == words;
  }

  // ----- The program -----

  /** The lines written so far hold the words before `j`, and what is left wraps as if it stood alone. */
  ghost predicate Closed(width: Widths, max: nat, words: seq<string>, done: seq<seq<string>>, j: nat,
                         lines: seq<string>)
    requires j <= |words|
  {
    && lines == RenderAll(width, done)
    && Greedy(width, max, words) == done + Greedy(width, max, words[j..])
  }

  lemma Reassociate(done: seq<seq<string>>, g: seq<string>, after: seq<seq<string>>)
    ensures done + ([g] + after) == (done + [g]) + after
  {
  }

  lemma RenderAllPush(width: Widths, done: seq<seq<string>>, g: seq<string>)
    ensures RenderAll(width, done + [g]) == RenderAll(width, done) + [Render(width, g)]
  {
    assert (done + [g])[..|done|] == done;
  }

  /** The first line of what is left ends at the first word that does not fit. */
  lemma GreedyHead(width: Widths, max: nat, words: seq<string>, j: nat, i: nat)
    requires j < i <= |words|
    requires i - j > 1 ==> GroupWidth(width, words[j..i]) <= max
    requires i < |words| ==> GroupWidth(width, words[j..i + 1]) > max
    ensures Greedy(width, max, words[j..]) == [words[j..i]] + Greedy(width, max, words[i..])
  {
    var rest := words[j..];
    assert rest[..i - j] == words[j..i] && rest[i - j..] == words[i..];
    if i < |words| {
      assert rest[..i - j + 1] == words[j..i + 1];
    }
    LongestIs(width, max, rest, 1, i - j);
  }

  /** A line of the words `j`, ..., `i - 1` is closed because the next word does not fit, or there is none. */
  lemma CloseLine(width: Widths, max: nat, words: seq<string>, done: seq<seq<string>>, j: nat, i: nat,
                  lines: seq<string>)
    requires j < i <= |words| && Closed(width, max, words, done, j, lines)
    requires i - j > 1 ==> GroupWidth(width, words[j..i]) <= max
    requires i < |words| ==> GroupWidth(width, words[j..i + 1]) > max
    ensures Closed(width, max, words, done + [words[j..i]], i, lines + [Render(width, words[j..i])])
  {
    GreedyHead(width, max, words, j, i);
    RenderAllPush(width, done, words[j..i]);
    Reassociate(done, words[j..i], Greedy(width, max, words[i..]));
  }

  lemma GrowLine(width: Widths, words: seq<string>, j: nat, i: nat)
    requires j <= i < |words|
    ensures var g := words[j..i];
            && GroupWidth(width, words[j..i + 1])
               == GroupWidth(width, g) + (if GroupWidth(width, g) > 0 then 1 else 0) + width(words[i])
            && Render(width, words[j..i + 1])
               == Render(width, g) + (if GroupWidth(width, g) > 0 then " " else "") + words[i]
  {
    assert words[j..i + 1][..i - j] == words[j..i];
  }

  lemma {:induction false} RenderNonEmpty(width: Widths, g: seq<string>)
    requires forall i :: 0 <= i < |g| ==> g[i] != ""
    ensures Render(width, g) == "" <==> g == []
  {
  }

  /** The state of the loop before word `i`: the line being built holds the words `j`, ..., `i - 1`. */
  ghost predicate Wrapping(width: Widths, max: nat, words: seq<string>, done: seq<seq<string>>, j: nat, i: nat,
                           lines: seq<string>, line: string, lineWidth: nat)
  {
    && j <= i <= |words| && (forall k :: 0 <= k < |words| ==> words[k] != "")
    && Closed(width, max, words, done, j, lines)
    && line == Render(width, words[j..i]) && lineWidth == GroupWidth(width, words[j..i]) <= max
  }

  /** Closing the line being built, if there is one. */
  function Pushed(lines: seq<string>, line: string): seq<string> {
    if line == "" then lines else lines + [line]
  }

  lemma CloseCurrent(width: Widths, max: nat, words: seq<string>, done: seq<seq<string>>, j: nat, i: nat,
                     lines: seq<string>, line: string, lineWidth: nat) returns (done': seq<seq<string>>)
    requires Wrapping(width, max, words, done, j, i, lines, line, lineWidth)
    requires j < i < |words| ==> GroupWidth(width, words[j..i + 1]) > max
    ensures Closed(width, max, words, done', i, Pushed(lines, line))
  {
    RenderNonEmpty(width, words[j..i]);
    if line == "" {
      done' := done;
    } else {
      CloseLine(width, max, words, done, j, i, lines);
      done' := done + [words[j..i]];
    }
  }

  lemma SingleWord(width: Widths, words: seq<string>, i: nat)
    requires i < |words|
    ensures words[i..i + 1] == [words[i]]
    ensures Render(width, words[i..i + 1]) == words[i] && GroupWidth(width, words[i..i + 1]) == width(words[i])
  {
    GrowLine(width, words, i, i);
    assert words[i..i] == [];
  }

  lemma CloseOverlong(width: Widths, max: nat, words: seq<string>, done: seq<seq<string>>, i: nat, lines: seq<string>)
    requires i < |words| && width(words[i]) > max && Closed(width, max, words, done, i, lines)
    ensures Closed(width, max, words, done + [words[i..i + 1]], i + 1, lines + [words[i]])
  {
    SingleWord(width, words, i);
    if i + 1 < |words| {
      GrowLine(width, words, i, i + 1);
    }
    CloseLine(width, max, words, done, i, i + 1, lines);
  }

  lemma OverlongStep(width: Widths, max: nat, words: seq<string>, done: seq<seq<string>>, j: nat, i: nat,
                     lines: seq<string>, line: string, lineWidth: nat) returns (done': seq<seq<string>>)
    requires Wrapping(width, max, words, done, j, i, lines, line, lineWidth)
    requires i < |words| && width(words[i]) > max
    ensures Wrapping(width, max, words, done', i + 1, i + 1, Pushed(lines, line) + [words[i]], "", 0)
  {
    GrowLine(width, words, j, i);
    var before := CloseCurrent(width, max, words, done, j, i, lines, line, lineWidth);
    CloseOverlong(width, max, words, before, i, Pushed(lines, line));
    done' := before + [words[i..i + 1]];
    assert words[i + 1..i + 1] == [];
  }

  lemma BreakStep(width: Widths, max: nat, words: seq<string>, done: seq<seq<string>>, j: nat, i: nat,
                  lines: seq<string>, line: string, lineWidth: nat) returns (done': seq<seq<string>>)
    requires Wrapping(width, max, words, done, j, i, lines, line, lineWidth)
    requires i < |words| && width(words[i]) <= max
    requires lineWidth + (if lineWidth > 0 then 1 else 0) + width(words[i]) > max
    ensures Wrapping(width, max, words, done', i, i + 1, Pushed(lines, line), words[i], width(words[i]))
  {
    GrowLine(width, words, j, i);
    done' := CloseCurrent(width, max, words, done, j, i, lines, line, lineWidth);
    SingleWord(width, words, i);
  }

  lemma GrowStep(width: Widths, max: nat, words: seq<string>, done: seq<seq<string>>, j: nat, i: nat,
                 lines: seq<string>, line: string, lineWidth: nat)
    requires Wrapping(width, max, words, done, j, i, lines, line, lineWidth)
    requires i < |words| && lineWidth + (if lineWidth > 0 then 1 else 0) + width(words[i]) <= max
    ensures Wrapping(width, max, words, done, j, i + 1, lines, line + (if lineWidth > 0 then " " else "") + words[i],
                     lineWidth + (if lineWidth > 0 then 1 else 0) + width(words[i]))
  {
    GrowLine(width, words, j, i);
  }

  /** What the wrapper returns: the greedy wrapping of the words, or the raw text when there are none. */
  function WrappedLines(width: Widths, content: string, max: nat): seq<string> {
    if max == 0 || Words(content) == [] then [content]
    else RenderAll(width, Greedy(width, max, Words(content)))
  }

  lemma FirstState(width: Widths, max: nat, content: string)
    ensures Wrapping(width, max, Words(content), [], 0, 0, [], "", 0)
  {
    var words := Words(content);
    assert words[0..] == words && words[0..0] == [];
  }

  lemma LastState(width: Widths, max: nat, content: string, done: seq<seq<string>>, j: nat,
                  lines: seq<string>, line: string, lineWidth: nat)
    requires max > 0 && Wrapping(width, max, Words(content), done, j, |Words(content)|, lines, line, lineWidth)
    ensures WrappedLines(width, content, max) == if Pushed(lines, line) == [] then [content] else Pushed(lines, line)
  {
    var words := Words(content);
    var all := CloseCurrent(width, max, words, done, j, |words|, lines, line, lineWidth);
    assert Greedy(width, max, words) == all;
  }

  method WrapTextToLines(width: Widths, content: string, max: nat) returns (lines: seq<string>)
    ensures lines == WrappedLines(width, content, max)
  {
    if max == 0 {
      return [content];
    }
    lines := [];
    var currentLine := "";
    var currentWidth: nat := 0;
    var words := Words(content);
    ghost var done: seq<seq<string>>, j := [], 0;
    FirstState(width, max, content);
    for i := 0 to |words|
      invariant Wrapping(width, max, words, done, j, i, lines, currentLine, currentWidth)
    {
      var word := words[i];
      var wordWidth := width(word);
      var spaceWidth := if currentWidth > 0 then 1 else 0;
      if wordWidth > max {
        done := OverlongStep(width, max, words, done, j, i, lines, currentLine, currentWidth);
        j := i + 1;
        lines := Pushed(lines, currentLine) + [word];
        currentLine, currentWidth := "", 0;
      } else if currentWidth + spaceWidth + wordWidth > max {
        done := BreakStep(width, max, words, done, j, i, lines, currentLine, currentWidth);
        j := i;
        lines := Pushed(lines, currentLine);
        currentLine := word;
        currentWidth := wordWidth;
      } else {
        GrowStep(width, max, words, done, j, i, lines, currentLine, currentWidth);
        if currentWidth > 0 {
          currentLine := currentLine + " ";
          currentWidth := currentWidth + 1;
        } else {
          assert currentLine + "" == currentLine;
        }
        currentLine := currentLine + word;
        currentWidth := currentWidth + wordWidth;
      }
    }
    LastState(width, max, content, done, j, lines, currentLine, currentWidth);
    lines := Pushed(lines, currentLine);
    if lines == [] {
      lines := [content];
    }
  }

  // ----- Whether the words survive -----

  /** No line of two or more words starts with a word of no width. */
  predicate KeepsBoundaries(width: Widths, groups: seq<seq<string>>) {
    forall i :: 0 <= i < |groups| && |groups[i]| >= 2 ==> width(groups[i][0]) > 0
  }

  predicate AllWords(words: seq<string>) {
    forall i :: 0 <= i < |words| ==> IsWord(words[i])
  }

  lemma RenderStep(width: Widths, g: seq<string>)
    requires g != []
    ensures var before := g[..|g| - 1];
            Render(width, g) == if GroupWidth(width, before) > 0 then Render(width, before) + [' '] + g[|g| - 1]
                                else Render(width, before) + g[|g| - 1]
  {
    assert Render(width, g[..|g| - 1]) + "" == Render(width, g[..|g| - 1]);
  }

  lemma RenderedWordsStep(width: Widths, g: seq<string>)
    requires AllWords(g) && |g| >= 2 && width(g[0]) > 0
    ensures Words(Render(width, g)) == Words(Render(width, g[..|g| - 1])) + [g[|g| - 1]]
  {
    var n := |g| - 1;
    RenderStep(width, g);
    FirstWidthCounts(width, g, n);
    WordsAroundSpace(Render(width, g[..n]), ' ', g[n]);
    WordsOfWord(g[n]);
  }

  lemma {:induction false} RenderedWords(width: Widths, g: seq<string>)
    requires AllWords(g) && (|g| >= 2 ==> width(g[0]) > 0)
    ensures Words(Render(width, g)) == g
  {
    if |g| == 1 {
      SingleWord(width, g, 0);
      assert g[0..1] == g;
      WordsOfWord(g[0]);
    } else if |g| >= 2 {
      RenderedWords(width, g[..|g| - 1]);
      RenderedWordsStep(width, g);
    }
  }

  lemma FirstWidthCounts(width: Widths, g: seq<string>, n: nat)
    requires 1 <= n <= |g|
    ensures width(g[0]) <= GroupWidth(width, g[..n])
  {
    PrefixNotWider(width, g, 1, n);
    GroupWidthStep(width, g, 0);
  }

  /** A line never holds more words than were put on it, and holds fewer if a boundary is lost. */
  lemma {:induction false} RenderedWordCount(width: Widths, g: seq<string>)
    requires AllWords(g)
    ensures |Words(Render(width, g))| <= |g|
    ensures |g| >= 2 && width(g[0]) == 0 ==> |Words(Render(width, g))| < |g|
  {
    if g != [] {
      var n := |g| - 1;
      RenderStep(width, g);
      RenderedWordCount(width, g[..n]);
      var before := Render(width, g[..n]);
      WordsAroundSpace(before, ' ', g[n]);
      WordsOfWord(g[n]);
      WordCountOfAppend(before, g[n]);
      if n == 1 && width(g[0]) == 0 {
        TwoGlued(width, g);
      }
    }
  }

  lemma TwoGlued(width: Widths, g: seq<string>)
    requires |g| == 2 && AllWords(g) && width(g[0]) == 0
    ensures Words(Render(width, g)) == [g[0] + g[1]]
  {
    RenderStep(width, g);
    SingleWord(width, g, 0);
    assert g[..1] == g[0..1];
    WordsOfWord(g[0] + g[1]);
  }

  lemma RenderAllCons(width: Widths, groups: seq<seq<string>>)
    requires groups != []
    ensures RenderAll(width, groups) == [Render(width, groups[0])] + RenderAll(width, groups[1..])
    decreases |groups|
  {
    if |groups| > 1 {
      RenderAllCons(width, groups[..|groups| - 1]);
      assert groups[1..][..|groups| - 2] == groups[..|groups| - 1][1..];
    }
  }

  lemma {:induction false} AllWordsOfFlatten(groups: seq<seq<string>>, i: nat)
    requires AllWords(Flatten(groups)) && i < |groups|
    ensures AllWords(groups[i])
  {
    var all, tail := Flatten(groups), Flatten(groups[1..]);
    assert forall k :: 0 <= k < |groups[0]| ==> groups[0][k] == all[k];
    assert forall k :: 0 <= k < |tail| ==> tail[k] == all[|groups[0]| + k];
    if i > 0 {
      AllWordsOfFlatten(groups[1..], i - 1);
    }
  }

  /** The words of the joined lines are the words of the first line, then those of the rest. */
  lemma JoinedWordsCons(width: Widths, groups: seq<seq<string>>)
    requires groups != []
    ensures Words(Join(RenderAll(width, groups), "\n"))
         == Words(Render(width, groups[0])) + Words(Join(RenderAll(width, groups[1..]), "\n"))
  {
    RenderAllCons(width, groups);
    if |groups| > 1 {
      WordsAroundSpace(Render(width, groups[0]), '\n', Join(RenderAll(width, groups[1..]), "\n"));
    }
  }

  lemma AllWordsOfRest(groups: seq<seq<string>>)
    requires AllWords(Flatten(groups)) && groups != []
    ensures AllWords(groups[0]) && AllWords(Flatten(groups[1..]))
  {
    AllWordsOfFlatten(groups, 0);
    var tail := Flatten(groups[1..]);
    assert forall k :: 0 <= k < |tail| ==> tail[k] == Flatten(groups)[|groups[0]| + k];
  }

  lemma {:induction false} JoinedWords(width: Widths, groups: seq<seq<string>>)
    requires AllWords(Flatten(groups)) && KeepsBoundaries(width, groups)
    ensures Words(Join(RenderAll(width, groups), "\n")) == Flatten(groups)
  {
    if groups != [] {
      AllWordsOfRest(groups);
      RenderedWords(width, groups[0]);
      JoinedWords(width, groups[1..]);
      JoinedWordsCons(width, groups);
    }
  }

  lemma {:induction false} JoinedWordCount(width: Widths, groups: seq<seq<string>>)
    requires AllWords(Flatten(groups))
    ensures |Words(Join(RenderAll(width, groups), "\n"))| <= |Flatten(groups)|
    ensures !KeepsBoundaries(width, groups) ==> |Words(Join(RenderAll(width, groups), "\n"))| < |Flatten(groups)|
  {
    if groups != [] {
      AllWordsOfRest(groups);
      RenderedWordCount(width, groups[0]);
      JoinedWordCount(width, groups[1..]);
      JoinedWordsCons(width, groups);
      BoundariesCons(width, groups);
    }
  }

  lemma BoundariesCons(width: Widths, groups: seq<seq<string>>)
    requires groups != []
    ensures KeepsBoundaries(width, groups)
       <==> (|groups[0]| >= 2 ==> width(groups[0][0]) > 0) && KeepsBoundaries(width, groups[1..])
  {
    assert forall i :: 1 <= i < |groups| ==> groups[i] == groups[1..][i - 1];
  }

  /** The wrapped text has the words of the original exactly when no line of several words starts with a word
      of no width: after such a word the wrapper writes no space, and two words become one. */
  lemma WordsSurviveIff(width: Widths, max: nat, content: string)
    ensures Words(Join(RenderAll(width, Greedy(width, max, Words(content))), "\n")) == Words(content)
       <==> KeepsBoundaries(width, Greedy(width, max, Words(content)))
  {
    var groups := Greedy(width, max, Words(content));
    GreedyWraps(width, max, Words(content));
    if KeepsBoundaries(width, groups) {
      JoinedWords(width, groups);
    } else {
      JoinedWordCount(width, groups);
    }
  }

  /** In particular they survive when every word is at least one column wide. */
  lemma WideWordsSurvive(width: Widths, max: nat, content: string)
    requires forall w :: w in Words(content) ==> width(w) > 0
    ensures Words(Join(RenderAll(width, Greedy(width, max, Words(content))), "\n")) == Words(content)
  {
    var groups := Greedy(width, max, Words(content));
    GreedyWraps(width, max, Words(content));
    forall i | 0 <= i < |groups| && |groups[i]| >= 2
      ensures width(groups[i][0]) > 0
    {
      FlattenHas(groups, i);
    }
    WordsSurviveIff(width, max, content);
  }

  lemma {:induction false} FlattenHas(groups: seq<seq<string>>, i: nat)
    requires i < |groups| && groups[i] != []
    ensures groups[i][0] in Flatten(groups)
  {
    if i > 0 {
      FlattenHas(groups[1..], i - 1);
    }
  }

  // ----- Lines are clean -----

  /** A non-empty line with nothing to trim. */
  predicate IsCleanLine(line: string) {
    line != "" && IsLine(line) && IsTrimmed(line)
  }

  lemma {:induction false} RenderIsClean(width: Widths, g: seq<string>)
    requires AllWords(g) && g != []
    ensures IsCleanLine(Render(width, g))
  {
    var n := |g| - 1;
    RenderStep(width, g);
    assert forall i :: 0 <= i < |g[n]| ==> !IsSpace(g[n][i]);
    if n == 0 {
      assert Render(width, g[..0]) + g[0] == g[0];
    } else {
      RenderIsClean(width, g[..n]);
    }
  }

  lemma {:induction false} RenderAllIsClean(width: Widths, groups: seq<seq<string>>)
    requires forall i :: 0 <= i < |groups| ==> groups[i] != [] && AllWords(groups[i])
    ensures forall i :: 0 <= i < |groups| ==> IsCleanLine(RenderAll(width, groups)[i])
  {
    if groups != [] {
      RenderAllIsClean(width, groups[..|groups| - 1]);
      RenderIsClean(width, groups[|groups| - 1]);
    }
  }

  /** Wrapping a text that has words yields lines that are not empty and need no trimming. */
  lemma WrappedLinesAreClean(width: Widths, content: string, max: nat)
    requires max > 0 && Words(content) != []
    ensures WrappedLines(width, content, max) != []
    ensures var lines := WrappedLines(width, content, max);
            forall i :: 0 <= i < |lines| ==> IsCleanLine(lines[i])
  {
    var groups := Greedy(width, max, Words(content));
    GreedyWraps(width, max, Words(content));
    forall i | 0 <= i < |groups|
      ensures groups[i] != [] && AllWords(groups[i])
    {
      AllWordsOfFlatten(groups, i);
      assert IsLegalLine(width, max, groups[i]);
    }
    RenderAllIsClean(width, groups);
  }

  // ----- The widths that count -----

  function SumWidths(width: Widths, g: seq<string>): nat {
    if g == [] then 0 else SumWidths(width, g[..|g| - 1]) + width(g[|g| - 1])
  }

  ghost predicate AllWide(width: Widths, g: seq<string>) {
    forall i :: 0 <= i < |g| ==> width(g[i]) > 0
  }

  /** Of words at least one column wide, a line is the words with one space between two, and as wide as that. */
  lemma {:induction false} LineOfWideWords(width: Widths, g: seq<string>)
    requires g != [] && AllWide(width, g)
    ensures GroupWidth(width, g) == SumWidths(width, g) + |g| - 1
    ensures Render(width, g) == Join(g, " ")
  {
    var n := |g| - 1;
    RenderStep(width, g);
    if n > 0 {
      LineOfWideWords(width, g[..n]);
      JoinPush(g[..n], g[n], " ");
      assert g == g[..n] + [g[n]];
    } else {
      assert g[..0] == [] && Render(width, g[..0]) + g[0] == g[0];
    }
  }

  lemma {:induction false} JoinPush(parts: seq<string>, part: string, sep: string)
    requires parts != []
    ensures Join(parts + [part], sep) == Join(parts, sep) + sep + part
  {
    if |parts| > 1 {
      assert (parts + [part])[1..] == parts[1..] + [part];
      JoinPush(parts[1..], part, sep);
    }
  }

  /** No width is asked for: the text comes back as it is. */
  lemma NoWidthNoWrap(width: Widths, content: string)
    ensures WrappedLines(width, content, 0) == [content]
  {
  }

  /** The lines of a text with words, each at least one column wide: the words in order, one space between two, every
      line within the width or a single word, and as few lines as that allows. */
  lemma WrappedMeaning(width: Widths, content: string, max: nat) returns (groups: seq<seq<string>>)
    requires max > 0 && Words(content) != [] && AllWide(width, Words(content))
    ensures var lines := WrappedLines(width, content, max);
            && Flatten(groups) == Words(content) && |lines| == |groups|
            && (forall i :: 0 <= i < |groups| ==>
                  && groups[i] != [] && lines[i] == Join(groups[i], " ")
                  && (SumWidths(width, groups[i]) + |groups[i]| - 1 <= max || |groups[i]| == 1))
            && forall other :: IsWrapping(width, max, Words(content), other) ==> |lines| <= |other|
  {
    var words := Words(content);
    groups := Greedy(width, max, words);
    GreedyWraps(width, max, words);
    forall i | 0 <= i < |groups|
      ensures groups[i] != [] && WrappedLines(width, content, max)[i] == Join(groups[i], " ")
      ensures SumWidths(width, groups[i]) + |groups[i]| - 1 <= max || |groups[i]| == 1
    {
      assert IsLegalLine(width, max, groups[i]);
      GroupIsWide(width, groups, i);
      RenderAllAt(width, groups, i);
      LineOfWideWords(width, groups[i]);
    }
    forall other | IsWrapping(width, max, words, other)
      ensures |groups| <= |other|
    {
      GreedyIsOptimal(width, max, words, other);
    }
  }

  lemma {:induction false} GroupIsWide(width: Widths, groups: seq<seq<string>>, i: nat)
    requires i < |groups| && AllWide(width, Flatten(groups))
    ensures AllWide(width, groups[i])
  {
    var rest := Flatten(groups[1..]);
    assert Flatten(groups) == groups[0] + rest;
    if i == 0 {
      assert forall k :: 0 <= k < |groups[0]| ==> Flatten(groups)[k] == groups[0][k];
    } else {
      assert forall k :: 0 <= k < |rest| ==> Flatten(groups)[|groups[0]| + k] == rest[k];
      GroupIsWide(width, groups[1..], i - 1);
    }
  }

  lemma {:induction false} RenderAllAt(width: Widths, groups: seq<seq<string>>, i: nat)
    requires i < |groups|
    ensures RenderAll(width, groups)[i] == Render(width, groups[i])
  {
    if i < |groups| - 1 {
      RenderAllAt(width, groups[..|groups| - 1], i);
    }
  }
}
