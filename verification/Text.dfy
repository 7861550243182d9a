/** The string functions of the standard library that the chat store relies on. */
module Text {

  import opened Wrappers

  /** Unicode White_Space. */
  predicate IsSpace(c: char) {
    || '\t' <= c <= '\r' || c == ' ' || c == '\U{0085}' || c == '\U{00A0}' || c == '\U{1680}'
    || '\U{2000}' <= c <= '\U{200A}' || c == '\U{2028}' || c == '\U{2029}' || c == '\U{202F}'
    || c == '\U{205F}' || c == '\U{3000}'
  }

  /** By code point: 25 of them. */
  lemma WhiteSpaceIs(c: char)
    ensures IsSpace(c) <==>
              || 9 <= c as int <= 13 || 8192 <= c as int <= 8202
              || c as int in {32, 133, 160, 5760, 8232, 8233, 8239, 8287, 12288}
  {
  }

  /** A non-empty text without white space. */
  predicate IsWord(s: string) {
    s != "" && forall i :: 0 <= i < |s| ==> !IsSpace(s[i])
  }

  /** `str::trim` */
  function TrimStart(s: string): string {
    if s != "" && IsSpace(s[0]) then TrimStart(s[1..]) else s
  }

  function TrimEnd(s: string): string {
    if s != "" && IsSpace(s[|s| - 1]) then TrimEnd(s[..|s| - 1]) else s
  }

  function Trim(s: string): string {
    TrimEnd(TrimStart(s))
  }

  /** Nothing to trim. */
  predicate IsTrimmed(s: string) {
    s == "" || (!IsSpace(s[0]) && !IsSpace(s[|s| - 1]))
  }

  lemma TrimTrimmed(s: string)
    requires IsTrimmed(s)
    ensures Trim(s) == s
  {
  }

  lemma {:induction false} TrimEndTrims(s: string)
    requires s == "" || !IsSpace(s[0])
    ensures IsTrimmed(TrimEnd(s))
  {
    if s != "" && IsSpace(s[|s| - 1]) {
      TrimEndTrims(s[..|s| - 1]);
    }
  }

  lemma {:induction false} TrimTrims(s: string)
    ensures IsTrimmed(Trim(s))
  {
    if s != "" && IsSpace(s[0]) {
      TrimTrims(s[1..]);
    } else {
      TrimEndTrims(s);
    }
  }

  lemma {:induction false} TrimKeepsText(s: string)
    requires s != "" && !IsSpace(s[0])
    ensures Trim(s) != ""
  {
    if |s| > 1 && IsSpace(s[|s| - 1]) {
      TrimKeepsText(s[..|s| - 1]);
    }
  }

  /** Trimming stops at a text that needs none. */
  lemma {:induction false} TrimKeepsTail(s: string, b: string)
    requires IsTrimmed(b) && b != ""
    ensures |Trim(s + b)| >= |b|
  {
    if s == "" {
      assert s + b == b;
      TrimTrimmed(b);
    } else if IsSpace(s[0]) {
      assert (s + b)[1..] == s[1..] + b;
      TrimKeepsTail(s[1..], b);
    } else {
      assert (s + b)[|s + b| - 1] == b[|b| - 1];
      TrimTrimmed(s + b);
    }
  }

  lemma {:induction false} TrimEndKeeps(s: string, c: char)
    requires c in s && !IsSpace(c)
    ensures c in TrimEnd(s)
  {
    if IsSpace(s[|s| - 1]) {
      assert s == s[..|s| - 1] + [s[|s| - 1]];
      TrimEndKeeps(s[..|s| - 1], c);
    }
  }

  /** Trimming takes only white space. */
  lemma {:induction false} TrimKeeps(s: string, c: char)
    requires c in s && !IsSpace(c)
    ensures c in Trim(s)
  {
    if IsSpace(s[0]) {
      assert s == [s[0]] + s[1..];
      TrimKeeps(s[1..], c);
    } else {
      TrimEndKeeps(s, c);
    }
  }

  /** Nothing but white space. */
  predicate IsBlank(s: string) {
    forall i :: 0 <= i < |s| ==> IsSpace(s[i])
  }

  lemma {:induction false} TrimBlank(s: string)
    requires IsBlank(s)
    ensures Trim(s) == ""
  {
    if s != "" {
      TrimBlank(s[1..]);
    }
  }

  // ----- Searching and splitting -----

  /** Where `pat` first occurs in `s`. */
  function Find(s: string, pat: string): (r: Option<nat>)
    ensures r.Some? ==> r.value + |pat| <= |s| && s[r.value..r.value + |pat|] == pat
  {
    if |s| < |pat| then None
    else if s[..|pat|] == pat then Some(0)
    else if s == "" then None
    else match Find(s[1..], pat)
         case None => None
         case Some(i) => Some(i + 1)
  }

  predicate OccursAt(s: string, pat: string, i: nat) {
    i + |pat| <= |s| && s[i..i + |pat|] == pat
  }

  lemma OccursCharwise(s: string, pat: string, i: nat, j: nat)
    requires OccursAt(s, pat, i) && j < |pat|
    ensures s[i + j] == pat[j]
  {
    assert s[i..i + |pat|][j] == s[i + j];
  }

  lemma OccursInTail(s: string, pat: string, i: nat)
    requires s != ""
    ensures OccursAt(s[1..], pat, i) <==> OccursAt(s, pat, i + 1)
  {
    if i + 1 + |pat| <= |s| {
      assert s[1..][i..i + |pat|] == s[i + 1..i + 1 + |pat|];
    }
  }

  /** `Find` finds the first occurrence. */
  lemma {:induction false} FindIs(s: string, pat: string, k: nat)
    requires OccursAt(s, pat, k)
    requires forall i: nat :: i < k ==> !OccursAt(s, pat, i)
    ensures Find(s, pat) == Some(k)
  {
    assert OccursAt(s, pat, 0) <==> s[..|pat|] == pat;
    if k > 0 {
      forall i: nat | i < k
        ensures OccursAt(s[1..], pat, i) <==> OccursAt(s, pat, i + 1)
      {
        OccursInTail(s, pat, i);
      }
      FindIs(s[1..], pat, k - 1);
    }
  }

  /** Whatever occurs is found, there or before. */
  lemma {:induction false} FindFirst(s: string, pat: string, i: nat)
    requires OccursAt(s, pat, i)
    ensures Find(s, pat).Some? && Find(s, pat).value <= i
  {
    if i > 0 && s[..|pat|] != pat {
      OccursInTail(s, pat, i - 1);
      FindFirst(s[1..], pat, i - 1);
    }
  }

  /** `str::split` at a non-empty separator. */
  function Split(s: string, pat: string): (r: seq<string>)
    requires pat != ""
    ensures r != []
  {
    match Find(s, pat)
    case None => [s]
    case Some(k) => [s[..k]] + Split(s[k + |pat|..], pat)
  }

  /** `str::splitn(3, pat)` when it yields all three parts. */
  function SplitInThree(s: string, pat: string): Option<(string, string, string)> {
    match Find(s, pat)
    case None => None
    case Some(i) =>
      var rest := s[i + |pat|..];
      match Find(rest, pat)
      case None => None
      case Some(j) => Some((s[..i], rest[..j], rest[j + |pat|..]))
  }

  function Join(parts: seq<string>, sep: string): string {
    if parts == [] then ""
    else if |parts| == 1 then parts[0]
    else parts[0] + sep + Join(parts[1..], sep)
  }

  // ----- Lines -----

  function NewlineAt(s: string): (k: nat)
    ensures k <= |s| && (k < |s| ==> s[k] == '\n') && forall i :: 0 <= i < k ==> s[i] != '\n'
  {
    if s == "" || s[0] == '\n' then 0 else 1 + NewlineAt(s[1..])
  }

  function DropCr(s: string): string {
    if s != "" && s[|s| - 1] == '\r' then s[..|s| - 1] else s
  }

  /** `str::lines` */
  function Lines(s: string): seq<string> {
    if s == "" then []
    else
      var k := NewlineAt(s);
      if k == |s| then [s] else [DropCr(s[..k])] + Lines(s[k + 1..])
  }

  predicate IsLine(s: string) {
    forall i :: 0 <= i < |s| ==> s[i] != '\n' && s[i] != '\r'
  }

  /** A text without line breaks that does not end in a carriage return is the line it stands for. */
  predicate IsOneLine(s: string) {
    (forall i :: 0 <= i < |s| ==> s[i] != '\n') && (s != "" ==> s[|s| - 1] != '\r')
  }

  lemma LinesCons(line: string, rest: string)
    requires IsOneLine(line)
    ensures Lines(line + "\n" + rest) == [line] + Lines(rest)
  {
    var s := line + "\n" + rest;
    var k := NewlineAt(s);
    assert s[|line|] == '\n';
    assert forall i :: 0 <= i < |line| ==> s[i] == line[i];
    assert s[..k] == line && s[k + 1..] == rest;
  }

  /** Joining non-empty lines and splitting again gives the lines back. */
  lemma {:induction false} LinesOfJoin(lines: seq<string>)
    requires forall i :: 0 <= i < |lines| ==> IsLine(lines[i]) && lines[i] != ""
    ensures Lines(Join(lines, "\n")) == lines
  {
    if |lines| == 1 {
      assert NewlineAt(lines[0]) == |lines[0]|;
    } else if |lines| > 1 {
      LinesCons(lines[0], Join(lines[1..], "\n"));
      LinesOfJoin(lines[1..]);
    }
  }

  lemma {:induction false} LinesOfBlank(s: string)
    requires IsBlank(s)
    ensures forall i :: 0 <= i < |Lines(s)| ==> IsBlank(Lines(s)[i])
    decreases |s|
  {
    var k := NewlineAt(s);
    if k < |s| {
      LinesOfBlank(s[k + 1..]);
    }
  }

  lemma {:induction false} JoinOfBlank(lines: seq<string>)
    requires forall i :: 0 <= i < |lines| ==> IsBlank(lines[i])
    ensures IsBlank(Join(lines, "\n"))
  {
    if |lines| > 1 {
      JoinOfBlank(lines[1..]);
    }
  }

  // ----- Words -----

  function WordLength(s: string): (k: nat)
    ensures k <= |s| && (k < |s| ==> IsSpace(s[k])) && forall i :: 0 <= i < k ==> !IsSpace(s[i])
  {
    if s == "" || IsSpace(s[0]) then 0 else 1 + WordLength(s[1..])
  }

  /** `str::split_whitespace` */
  function Words(s: string): (r: seq<string>)
    ensures forall i :: 0 <= i < |r| ==> IsWord(r[i])
  {
    if s == "" then []
    else if IsSpace(s[0]) then Words(s[1..])
    else
      var k := WordLength(s);
      [s[..k]] + Words(s[k..])
  }

  lemma {:induction false} WordlessIsBlank(s: string)
    requires Words(s) == []
    ensures IsBlank(s)
  {
    if s != "" {
      assert IsSpace(s[0]);
      WordlessIsBlank(s[1..]);
    }
  }

  lemma WordsOfWord(w: string)
    requires IsWord(w)
    ensures Words(w) == [w]
  {
    assert WordLength(w) == |w|;
    assert w[..|w|] == w;
  }

  lemma WordsCons(w: string, c: char, rest: string)
    requires IsWord(w) && IsSpace(c)
    ensures Words(w + [c] + rest) == [w] + Words(rest)
  {
    var s := w + [c] + rest;
    var k := WordLength(s);
    assert s[|w|] == c;
    assert forall i :: 0 <= i < |w| ==> s[i] == w[i];
    assert s[..k] == w && s[k..] == [c] + rest;
    assert ([c] + rest)[1..] == rest;
  }

  /** A text that starts with a word and goes on: the word, the space behind it, and the rest. */
  lemma FirstWord(s: string) returns (w: string, c: char, rest: string)
    requires s != "" && !IsSpace(s[0]) && WordLength(s) < |s|
    ensures IsWord(w) && IsSpace(c) && s == w + [c] + rest && |rest| < |s|
    ensures Words(s) == [w] + Words(rest)
  {
    var k := WordLength(s);
    w, c, rest := s[..k], s[k], s[k + 1..];
    WordsCons(w, c, rest);
  }

  /** White space separates: the words of both sides are the words of the whole. */
  lemma {:induction false} WordsAroundSpace(a: string, c: char, b: string)
    requires IsSpace(c)
    ensures Words(a + [c] + b) == Words(a) + Words(b)
    decreases |a|
  {
    var s := a + [c] + b;
    if a == "" {
      assert s[1..] == b;
    } else if IsSpace(a[0]) {
      assert s[1..] == a[1..] + [c] + b;
      WordsAroundSpace(a[1..], c, b);
    } else if WordLength(a) == |a| {
      WordsOfWord(a);
      WordsCons(a, c, b);
    } else {
      var w, d, rest := FirstWord(a);
      assert s == w + [d] + (rest + [c] + b);
      WordsCons(w, d, rest + [c] + b);
      WordsAroundSpace(rest, c, b);
    }
  }

  /** Appending a word without white space adds at most one word. */
  lemma {:induction false} WordCountOfAppend(a: string, w: string)
    requires IsWord(w)
    ensures |Words(a + w)| <= |Words(a)| + 1
    decreases |a|
  {
    var s := a + w;
    if a == "" {
      assert s == w;
      WordsOfWord(w);
    } else if IsSpace(a[0]) {
      assert s[1..] == a[1..] + w;
      WordCountOfAppend(a[1..], w);
    } else {
      if WordLength(a) == |a| {
        WordsOfWord(s);
      } else {
        var v, d, rest := FirstWord(a);
        assert s == v + [d] + (rest + w);
        WordsCons(v, d, rest + w);
        WordCountOfAppend(rest, w);
      }
    }
  }
}
