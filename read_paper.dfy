/**
 * The paper summary of scripts/read_paper.py: title and author from the PDF
 * metadata, the page count, and a snippet of at most 30 stripped, non-blank
 * lines of the text of the first two pages.
 */
module ReadPaper {
  import opened Wrappers

  // ---------------------------------------------------------------------------
  // Python string operations

  /** `str.isspace` for one character. */
  predicate IsPySpace(c: char)
  {
    ('\t' <= c <= '\r') || ('\U{1C}' <= c <= '\U{1F}') || c == ' ' || c == '\U{85}' || c == '\U{A0}' ||
    c == '\U{1680}' || ('\U{2000}' <= c <= '\U{200A}') || c == '\U{2028}' || c == '\U{2029}' ||
    c == '\U{202F}' || c == '\U{205F}' || c == '\U{3000}'
  }

  /** A line boundary for `str.splitlines`. */
  predicate IsLineBreak(c: char)
  {
    c == '\n' || c == '\r' || c == '\U{B}' || c == '\U{C}' || ('\U{1C}' <= c <= '\U{1E}') ||
    c == '\U{85}' || c == '\U{2028}' || c == '\U{2029}'
  }

  predicate NoBreaks(s: string)
  {
    forall i :: 0 <= i < |s| ==> !IsLineBreak(s[i])
  }

  /** Every character is whitespace. */
  predicate AllSpace(s: string)
  {
    forall k :: 0 <= k < |s| ==> IsPySpace(s[k])
  }

  /** How many whitespace characters `s` starts with. */
  function LeadingCount(s: string): (n: nat)
    ensures n <= |s| && (n < |s| ==> !IsPySpace(s[n]))
    decreases |s|
  {
    if s != [] && IsPySpace(s[0]) then 1 + LeadingCount(s[1..]) else 0
  }

  /** Where the whitespace `s` ends with begins. */
  function TrailingStart(s: string): (n: nat)
    ensures n <= |s| && (n > 0 ==> !IsPySpace(s[n - 1]))
    decreases |s|
  {
    if s != [] && IsPySpace(s[|s| - 1]) then TrailingStart(s[..|s| - 1]) else |s|
  }

  /** `str.strip()`: the slice between the leading and the trailing whitespace. */
  function Strip(s: string): (r: string)
    ensures r == [] || (!IsPySpace(r[0]) && !IsPySpace(r[|r| - 1]))
  {
    var t := s[LeadingCount(s)..];
    t[..TrailingStart(t)]
  }

  /** Only whitespace is dropped from the front. */
  lemma {:induction false} LeadingSpaces(s: string)
    ensures AllSpace(s[..LeadingCount(s)])
    decreases |s|
  {
    if s != [] && IsPySpace(s[0]) {
      LeadingSpaces(s[1..]);
      SpacesFront(s, LeadingCount(s));
    }
  }

  lemma SpacesFront(s: string, n: nat)
    requires 1 <= n <= |s| && IsPySpace(s[0]) && AllSpace(s[1..][..n - 1])
    ensures AllSpace(s[..n])
  {
    forall k | 0 <= k < n ensures IsPySpace(s[..n][k]) {
      if k > 0 {
        assert s[..n][k] == s[1..][..n - 1][k - 1];
      }
    }
  }

  /** Only whitespace is dropped from the back. */
  lemma {:induction false} TrailingSpaces(s: string)
    ensures AllSpace(s[TrailingStart(s)..])
    decreases |s|
  {
    if s != [] && IsPySpace(s[|s| - 1]) {
      TrailingSpaces(s[..|s| - 1]);
      SpacesBack(s, TrailingStart(s));
    }
  }

  lemma SpacesBack(s: string, n: nat)
    requires n < |s| && IsPySpace(s[|s| - 1]) && AllSpace(s[..|s| - 1][n..])
    ensures AllSpace(s[n..])
  {
    forall k | 0 <= k < |s| - n ensures IsPySpace(s[n..][k]) {
      if k < |s| - 1 - n {
        assert s[n..][k] == s[..|s| - 1][n..][k];
      }
    }
  }

  /** The stripped text is a slice of the original with only whitespace outside it. */
  lemma StripIsSlice(s: string)
    ensures var i := LeadingCount(s); var j := i + |Strip(s)|;
      j <= |s| && Strip(s) == s[i..j] && AllSpace(s[..i]) && AllSpace(s[j..])
  {
    var i := LeadingCount(s);
    var t := s[i..];
    var k := TrailingStart(t);
    assert Strip(s) == t[..k];
    SliceOfSuffix(s, i, k);
    LeadingSpaces(s);
    TrailingSpaces(t);
    assert Strip(s) == s[i..i + k] && s[i + k..] == t[k..];
  }

  lemma SliceOfSuffix(s: string, i: nat, k: nat)
    requires i + k <= |s|
    ensures s[i..][..k] == s[i..i + k] && s[i..][k..] == s[i + k..]
  {
  }

  /** The index of the first line boundary, or the length when there is none. */
  function FirstBreak(s: string): (k: nat)
    ensures k <= |s| && NoBreaks(s[..k])
    ensures k < |s| ==> IsLineBreak(s[k])
    decreases |s|
  {
    if s == [] || IsLineBreak(s[0]) then 0
    else
      var k := 1 + FirstBreak(s[1..]);
      assert forall i :: 1 <= i < k ==> s[..k][i] == s[1..][..k - 1][i - 1];
      k
  }

  /** `str.splitlines()`: `\r\n` is one boundary, and no empty line follows a final boundary. */
  function SplitLines(s: string): (ls: seq<string>)
    ensures forall i :: 0 <= i < |ls| ==> NoBreaks(ls[i])
    decreases |s|
  {
    if s == [] then []
    else
      var k := FirstBreak(s);
      if k == |s| then [s]
      else
        var next := if s[k] == '\r' && k + 1 < |s| && s[k + 1] == '\n' then k + 2 else k + 1;
        [s[..k]] + SplitLines(s[next..])
  }

  /** `"\n".join(ls)`. */
  function JoinLines(ls: seq<string>): string
    decreases |ls|
  {
    if ls == [] then "" else if |ls| == 1 then ls[0] else ls[0] + "\n" + JoinLines(ls[1..])
  }

  /** Splitting joined lines gives them back when none is empty or holds a boundary. */
  lemma {:induction false} SplitJoin(ls: seq<string>)
    requires forall i :: 0 <= i < |ls| ==> ls[i] != "" && NoBreaks(ls[i])
    ensures SplitLines(JoinLines(ls)) == ls
    decreases |ls|
  {
    if |ls| == 1 {
      FirstBreakOfLine(ls[0], "");
      assert ls[0] + "" == ls[0];
    } else if |ls| > 1 {
      var rest := ls[1..];
      assert forall i :: 0 <= i < |rest| ==> rest[i] == ls[i + 1];
      SplitJoin(rest);
      SplitAtNewline(ls[0], JoinLines(rest));
      assert ls == [ls[0]] + rest;
    }
  }

  /** A line that is not empty and holds no boundary, then `\n`, splits off as the first line. */
  lemma SplitAtNewline(line: string, rest: string)
    requires line != "" && NoBreaks(line)
    ensures SplitLines(line + "\n" + rest) == [line] + SplitLines(rest)
  {
    var s := line + "\n" + rest;
    var k := |line|;
    FirstBreakOfLine(line, "\n" + rest);
    assert s == line + ("\n" + rest);
    assert s[k] == '\n' && s[..k] == line && s[k + 1..] == rest;
  }

  /** A line without boundaries, followed by text that starts with one (or nothing), ends at its own length. */
  lemma FirstBreakOfLine(line: string, t: string)
    requires line != "" && NoBreaks(line)
    requires t == [] || IsLineBreak(t[0])
    ensures FirstBreak(line + t) == |line|
  {
    var s := line + t;
    assert s[..|line|] == line;
    var k := FirstBreak(s);
    if k < |line| {
      assert false;
    } else if k > |line| {
      assert false;
    }
  }

  // ---------------------------------------------------------------------------
  // The snippet

  const MaxLines: nat := 30

  /** `[line.strip() for line in lines if line.strip()]`. */
  function NonBlank(lines: seq<string>): (r: seq<string>)
    ensures |r| <= |lines|
    ensures forall i :: 0 <= i < |r| ==> r[i] != ""
    decreases |lines|
  {
    if lines == [] then []
    else if Strip(lines[0]) != "" then [Strip(lines[0])] + NonBlank(lines[1..])
    else NonBlank(lines[1..])
  }

  /** `'\n'.join([...][:30])` over `text.splitlines()`. */
  function Snippet(text: string): string
  {
    var lines := NonBlank(SplitLines(text));
    JoinLines(lines[..if |lines| < MaxLines then |lines| else MaxLines])
  }

  /** A non-empty line, with no boundary and no whitespace at either end. */
  predicate CleanLine(l: string)
  {
    l != "" && NoBreaks(l) && !IsPySpace(l[0]) && !IsPySpace(l[|l| - 1])
  }

  lemma {:induction false} NonBlankClean(lines: seq<string>)
    requires forall i :: 0 <= i < |lines| ==> NoBreaks(lines[i])
    ensures AllClean(NonBlank(lines))
    decreases |lines|
  {
    if lines != [] {
      assert forall i :: 0 <= i < |lines[1..]| ==> lines[1..][i] == lines[i + 1];
      NonBlankClean(lines[1..]);
      if Strip(lines[0]) != "" {
        StripKeepsNoBreaks(lines[0]);
        CleanCons(Strip(lines[0]), NonBlank(lines[1..]));
      }
    }
  }

  predicate AllClean(ls: seq<string>)
  {
    forall i :: 0 <= i < |ls| ==> CleanLine(ls[i])
  }

  lemma CleanCons(l: string, ls: seq<string>)
    requires CleanLine(l) && AllClean(ls)
    ensures AllClean([l] + ls)
  {
    forall i | 0 <= i < |[l] + ls| ensures CleanLine(([l] + ls)[i]) {
      if i > 0 {
        assert ([l] + ls)[i] == ls[i - 1];
      }
    }
  }

  lemma StripKeepsNoBreaks(l: string)
    requires NoBreaks(l)
    ensures NoBreaks(Strip(l))
  {
    var i := LeadingCount(l);
    var t := l[i..];
    NoBreaksSlice(l, i, |l|);
    assert t == l[i..|l|];
    NoBreaksSlice(t, 0, TrailingStart(t));
    assert Strip(l) == t[0..TrailingStart(t)];
  }

  lemma NoBreaksSlice(s: string, i: nat, j: nat)
    requires NoBreaks(s) && i <= j <= |s|
    ensures NoBreaks(s[i..j])
  {
    assert forall k :: 0 <= k < j - i ==> s[i..j][k] == s[i + k];
  }

  /**
   * The snippet's lines, split again, are the first at most 30 stripped
   * non-blank lines of the text, in order; each is non-empty and has no
   * whitespace at either end.
   */
  lemma SnippetLines(text: string)
    ensures var ls := NonBlank(SplitLines(text));
      SplitLines(Snippet(text)) == ls[..if |ls| < MaxLines then |ls| else MaxLines]
    ensures |SplitLines(Snippet(text))| <= MaxLines
    ensures forall i :: 0 <= i < |SplitLines(Snippet(text))| ==> CleanLine(SplitLines(Snippet(text))[i])
  {
    var ls := NonBlank(SplitLines(text));
    NonBlankClean(SplitLines(text));
    KeptLines(ls);
  }

  /** The first at most 30 clean lines survive joining and splitting again. */
  lemma KeptLines(ls: seq<string>)
    requires AllClean(ls)
    ensures var kept := ls[..if |ls| < MaxLines then |ls| else MaxLines];
      SplitLines(JoinLines(kept)) == kept && AllClean(kept)
  {
    var kept := ls[..if |ls| < MaxLines then |ls| else MaxLines];
    assert forall i :: 0 <= i < |kept| ==> kept[i] == ls[i];
    SplitJoin(kept);
  }

  // ---------------------------------------------------------------------------
  // The page loop

  /** What `reader.pages[i].extract_text()` does: gives text, gives `None`, or raises. */
  datatype PageText = Text(s: string) | NoText | Fails(error: string)

  /** How many pages are read at most. */
  const PagesToRead: nat := 2

  function Body(p: PageText): string
  {
    if p.Text? then p.s else ""
  }

  /** The text of pages that all yield: each one's text followed by a blank line. */
  function Bodies(ps: seq<PageText>): string
    decreases |ps|
  {
    if ps == [] then "" else Body(ps[0]) + "\n\n" + Bodies(ps[1..])
  }

  /** The position of the first page that raises, or the count when none does. */
  function FirstFailure(ps: seq<PageText>): (k: nat)
    ensures k <= |ps| && (k < |ps| ==> ps[k].Fails?)
    ensures forall i :: 0 <= i < k ==> !ps[i].Fails?
    decreases |ps|
  {
    if ps == [] || ps[0].Fails? then 0 else 1 + FirstFailure(ps[1..])
  }

  function Min(a: nat, b: nat): nat { if a < b then a else b }

  /** `for i in range(min(2, pages))` with `break` at the first page that raises. */
  method AccumulateText(pages: seq<PageText>) returns (text: string)
    ensures var read := pages[..Min(PagesToRead, |pages|)];
      text == Bodies(read[..FirstFailure(read)])
  {
    var n := Min(PagesToRead, |pages|);
    ghost var read := pages[..n];
    ghost var stop := FirstFailure(read);
    text := "";
    var i := 0;
    while i < n
      invariant 0 <= i <= n && i <= stop
      invariant text + Bodies(read[i..stop]) == Bodies(read[..stop])
    {
      var page := pages[i];
      assert read[i] == page;
      if page.Fails? {
        break;
      }
      BodiesStep(read, i, stop);
      text := text + Body(page) + "\n\n";
      i := i + 1;
    }
    assert read[i..stop] == [];
  }

  /** Splitting the first page off a run that yields. */
  lemma BodiesStep(ps: seq<PageText>, i: nat, k: nat)
    requires i < k <= |ps|
    ensures forall text: string :: text + Bodies(ps[i..k]) == text + Body(ps[i]) + "\n\n" + Bodies(ps[i + 1..k])
  {
    assert ps[i..k][0] == ps[i] && ps[i..k][1..] == ps[i + 1..k];
  }

  // ---------------------------------------------------------------------------
  // The summary

  /** A PDF as the reader presents it: the `/Title` and `/Author` metadata strings, and its pages. */
  datatype Paper = Paper(title: Option<string>, author: Option<string>, pages: seq<PageText>)

  datatype PaperSummary = PaperSummary(path: string, pages: nat, title: string, author: string, snippet: string)

  /** `str(meta.get(key) or '').strip()`: missing metadata gives `''`. */
  function MetaText(v: Option<string>): (r: string)
    ensures v.None? ==> r == ""
    ensures r == [] || (!IsPySpace(r[0]) && !IsPySpace(r[|r| - 1]))
  {
    if v.None? then "" else Strip(v.value)
  }

  /**
   * `extract_pdf_summary`: the page count, the stripped title and author, and
   * the snippet of the text of the pages read before the first failure.
   */
  method Summarize(path: string, paper: Paper) returns (r: PaperSummary)
    ensures r.path == path && r.pages == |paper.pages|
    ensures r.title == MetaText(paper.title) && r.author == MetaText(paper.author)
    ensures var read := paper.pages[..Min(PagesToRead, |paper.pages|)];
      r.snippet == Snippet(Bodies(read[..FirstFailure(read)]))
    ensures |SplitLines(r.snippet)| <= MaxLines
  {
    var title := MetaText(paper.title);
    var author := MetaText(paper.author);
    var text := AccumulateText(paper.pages);
    var snippet := Snippet(text);
    SnippetLines(text);
    r := PaperSummary(path, |paper.pages|, title, author, snippet);
  }
}
