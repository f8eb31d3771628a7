/** The article page: the lookup of a post by id in the page's own table,
    and the content renderer. Content is cut into prose and fenced code
    segments by the pairs of triple backticks; a fenced segment whose
    opening fence is followed by an optional word and a newline becomes a
    numbered code block; every other non-blank segment is split into lines
    that are classified as breaks, headings, emphasised lines, lines with
    inline code or paragraphs. */
module BlogPost {
  import opened Text
  import opened Wrappers
  import opened BlogData

  // ---------------------------------------------------------------------
  // Lookup

  /** An entry of the page's own article table. */
  datatype Article = Article(title: string, category: string, date: string, readTime: string)

  const CdnSlug := "building-high-performance-cdn"

  /** The table holds a single article. */
  const Articles: map<string, Article> :=
    map[CdnSlug := Article("Building a High-Performance CDN: From Concept to Production",
                           "Infrastructure", "Dec 19, 2024", "8 min read")]

  /** `blogPosts[postId]`, as written, over the table's own keys; names the
      object literal inherits are not looked up. */
  function Lookup(postId: string): Option<Article>
  {
    if postId in Articles then Some(Articles[postId]) else None
  }

  /** Among the table's own keys only the CDN slug resolves; any other id
      shows "Post Not Found". */
  lemma OnlyCdnResolves(postId: string)
    ensures Lookup(postId).Some? <==> postId == CdnSlug
  {
  }

  /** The cards of the second and third sample posts open "Post Not
      Found", though both posts define a body. */
  lemma LaterCardsNotFound()
    ensures SamplePosts[1].hasContent && Lookup(SamplePosts[1].slug) == None
    ensures SamplePosts[2].hasContent && Lookup(SamplePosts[2].slug) == None
  {
    assert SamplePosts[1].slug[0] != CdnSlug[0];
    assert SamplePosts[2].slug[0] != CdnSlug[0];
  }

  /** The first post with the slug, if any. */
  function FindBySlug(posts: seq<Post>, slug: string): (r: Option<Post>)
    ensures r.Some? ==> r.value in posts && r.value.slug == slug
    ensures r.None? ==> forall k :: 0 <= k < |posts| ==> posts[k].slug != slug
  {
    if posts == [] then None
    else if posts[0].slug == slug then Some(posts[0])
    else FindBySlug(posts[1..], slug)
  }

  /** The lookup the listing needs: by slug among the sample posts. */
  function LookupPost(postId: string): Option<Post>
  {
    FindBySlug(SamplePosts, postId)
  }

  /** With distinct slugs, each post is found by its own slug. */
  lemma {:induction false} FindOwnSlug(posts: seq<Post>, i: nat)
    requires i < |posts|
    requires forall a, b :: 0 <= a < b < |posts| ==> posts[a].slug != posts[b].slug
    ensures FindBySlug(posts, posts[i].slug) == Some(posts[i])
  {
    if i > 0 {
      assert posts[0].slug != posts[i].slug;
      FindOwnSlug(posts[1..], i - 1);
    }
  }

  /** Every card opens its own post. */
  lemma EveryCardOpensItsPost(i: nat)
    requires i < |SamplePosts|
    ensures LookupPost(SamplePosts[i].slug) == Some(SamplePosts[i])
  {
    IdsAndSlugsDistinct();
    FindOwnSlug(SamplePosts, i);
  }

  // ---------------------------------------------------------------------
  // Segmenting on fence pairs

  const Fence := "```"

  /** Three backticks start at index `i`. */
  predicate FenceAt(s: string, i: int)
  {
    0 <= i && i + 3 <= |s| && s[i] == '`' && s[i + 1] == '`' && s[i + 2] == '`'
  }

  lemma FenceAtIsOccurrence(s: string, i: int)
    ensures FenceAt(s, i) <==> OccursAt(s, Fence, i)
  {
    if 0 <= i && i + 3 <= |s| {
      assert s[i..i + 3] == [s[i], s[i + 1], s[i + 2]];
    }
  }

  /** The first index at or after `from` where a fence starts. */
  function FindFence(s: string, from: nat): (r: Option<nat>)
    decreases |s| - from
    ensures r.Some? ==> from <= r.value && FenceAt(s, r.value)
                        && forall k :: from <= k < r.value ==> !FenceAt(s, k)
    ensures r.None? ==> forall k :: from <= k ==> !FenceAt(s, k)
  {
    if from + 3 > |s| then None
    else if FenceAt(s, from) then Some(from)
    else FindFence(s, from + 1)
  }

  /** `content.split(/(```[\s\S]*?```)/)`: the text before the leftmost
      fence, the fence pair with the shortest body, and the segments of the
      rest; without a pair the whole string is one segment. */
  function Segments(s: string): seq<string>
    decreases |s|
  {
    match Cut(s)
    case None => [s]
    case Some((p, q)) => [s[..p], s[p..q + 3]] + Segments(s[q + 3..])
  }

  /** Where the leftmost fence starts, and the first fence that starts after
      it ends. */
  function Cut(s: string): (r: Option<(nat, nat)>)
    ensures r.Some? ==> var (p, q) := r.value;
              p + 3 <= q && q + 3 <= |s| && FenceAt(s, p) && FenceAt(s, q)
              && (forall k :: 0 <= k < p ==> !FenceAt(s, k))
              && (forall k :: p + 3 <= k < q ==> !FenceAt(s, k))
  {
    match FindFence(s, 0)
    case None => None
    case Some(p) =>
      match FindFence(s, p + 3)
      case None => None
      case Some(q) => Some((p, q))
  }

  /** A fenced segment: opens and closes with a fence and holds no other
      fence between the two. */
  predicate IsFenced(x: string)
  {
    |x| >= 6 && FenceAt(x, 0) && FenceAt(x, |x| - 3)
    && forall i :: 3 <= i < |x| - 3 ==> !FenceAt(x, i)
  }

  /** Two fences, the second starting after the first ends. */
  ghost predicate HasPair(x: string)
  {
    exists i, j :: FenceAt(x, i) && FenceAt(x, j) && i + 3 <= j
  }

  /** Concatenating the segments gives back the content. */
  lemma {:induction false} SegmentsConcat(s: string)
    ensures Join(Segments(s), "") == s
    decreases |s|
  {
    match Cut(s)
    case None =>
    case Some((p, q)) =>
      var rest := s[q + 3..];
      SegmentsConcat(rest);
      var segs := Segments(s);
      assert segs[1..][1..] == Segments(rest);
      JoinEmptyFront(segs);
      JoinEmptyFront(segs[1..]);
      assert s == s[..p] + (s[p..q + 3] + rest);
  }

  /** An occurrence inside a slice is an occurrence in the whole. */
  lemma FenceInSlice(s: string, a: nat, b: nat, i: nat)
    requires a <= b <= |s|
    ensures FenceAt(s[a..b], i) <==> (i + 3 <= b - a && FenceAt(s, a + i))
  {
  }

  /** Without a cut there is no fence pair; with one, the text before the
      leftmost fence holds no fence and the cut-out pair is fenced. */
  lemma CutSpec(s: string)
    ensures Cut(s).None? ==> !HasPair(s)
    ensures Cut(s).Some? ==> var (p, q) := Cut(s).value;
              (forall k :: 0 <= k < p ==> !FenceAt(s, k))
              && (forall i :: !FenceAt(s[..p], i)) && IsFenced(s[p..q + 3])
  {
    match FindFence(s, 0)
    case None =>
      NoPairWithoutOpener(s, 0);
    case Some(p) =>
      match FindFence(s, p + 3)
      case None =>
        NoPairWithoutOpener(s, p);
      case Some(q) =>
        forall i | 0 <= i ensures !FenceAt(s[..p], i) {
          FenceInSlice(s, 0, p, i);
        }
        var x := s[p..q + 3];
        FenceInSlice(s, p, q + 3, 0);
        FenceInSlice(s, p, q + 3, q - p);
        forall i | 3 <= i < |x| - 3 ensures !FenceAt(x, i) {
          FenceInSlice(s, p, q + 3, i);
        }
  }

  /** With no fence before `p` and no second fence after one at `p`, no
      pair exists. */
  lemma NoPairWithoutOpener(s: string, p: nat)
    requires forall k :: 0 <= k < p ==> !FenceAt(s, k)
    requires forall k :: p + 3 <= k ==> !FenceAt(s, k)
    ensures !HasPair(s)
  {
  }

  /** There is one more prose segment than there are fenced ones. */
  lemma {:induction false} SegmentsOdd(s: string)
    ensures |Segments(s)| % 2 == 1
    decreases |s|
  {
    match Cut(s)
    case None =>
    case Some((p, q)) =>
      SegmentsOdd(s[q + 3..]);
      Parity(|Segments(s)|);
  }

  lemma Parity(n: nat)
    requires n >= 2
    ensures n % 2 == (n - 2) % 2
  {
  }

  /** Segments alternate: even ones hold no fence pair (and all but the last
      hold no fence at all), odd ones are fenced. */
  lemma {:induction false} SegmentsShape(s: string, k: nat)
    requires k < |Segments(s)|
    ensures k % 2 == 1 ==> IsFenced(Segments(s)[k])
    ensures k % 2 == 0 ==> !HasPair(Segments(s)[k])
    ensures k % 2 == 0 && k + 1 < |Segments(s)| ==> forall i :: !FenceAt(Segments(s)[k], i)
    decreases |s|
  {
    CutSpec(s);
    match Cut(s)
    case None =>
    case Some((p, q)) =>
      var rest := s[q + 3..];
      var segs := Segments(s);
      assert segs == [s[..p], s[p..q + 3]] + Segments(rest);
      if k >= 2 {
        SegmentsShape(rest, k - 2);
        Parity(k);
        assert segs[k] == Segments(rest)[k - 2];
      } else if k == 0 {
        var x := s[..p];
        assert forall i :: !FenceAt(x, i);
        assert !HasPair(x);
      }
  }

  // ---------------------------------------------------------------------
  // The code-block pattern

  /** `\w`. */
  predicate IsWordChar(c: char)
  {
    'a' <= c <= 'z' || 'A' <= c <= 'Z' || '0' <= c <= '9' || c == '_'
  }

  /** The length of the run of word characters starting at `from`. */
  function WordRun(s: string, from: nat): (n: nat)
    decreases |s| - from
    ensures from + n <= |s| || (from > |s| && n == 0)
    ensures forall k :: from <= k < from + n ==> IsWordChar(s[k])
    ensures from + n < |s| ==> !IsWordChar(s[from + n])
  {
    if from < |s| && IsWordChar(s[from]) then 1 + WordRun(s, from + 1) else 0
  }

  /** The groups of `/```(\w+)?\n([\s\S]*?)```/`: the language word, if
      the optional group took part, and the body. */
  datatype CodeMatch = CodeMatch(lang: Option<string>, body: string)

  /** An attempt of the pattern at index `p`. Backtracking into the greedy
      word group never helps, because what follows a shorter run is a word
      character and not the newline. */
  function MatchAt(s: string, p: nat): Option<CodeMatch>
  {
    if !FenceAt(s, p) then None
    else
      var w := WordRun(s, p + 3);
      var nl := p + 3 + w;
      if nl < |s| && s[nl] == '\n' then
        match FindFence(s, nl + 1)
        case None => None
        case Some(q) => Some(CodeMatch(if w == 0 then None else Some(s[p + 3..nl]), s[nl + 1..q]))
      else None
  }

  /** `section.match(...)`: the leftmost index where the pattern matches. */
  function MatchCode(s: string, from: nat): Option<CodeMatch>
    decreases |s| - from
  {
    if from >= |s| then None
    else match MatchAt(s, from)
      case Some(m) => Some(m)
      case None => MatchCode(s, from + 1)
  }

  /** A match at `p` needs a fence at `p` and a later one. */
  lemma MatchNeedsPair(s: string, p: nat)
    ensures MatchAt(s, p).Some? ==> HasPair(s)
  {
    if MatchAt(s, p).Some? {
      var nl := p + 3 + WordRun(s, p + 3);
      var q := FindFence(s, nl + 1).value;
      assert FenceAt(s, p) && FenceAt(s, q) && p + 3 <= q;
    }
  }

  /** A segment without a fence pair never matches the pattern, so prose
      segments are never taken for code. */
  lemma {:induction false} NoPairNoMatch(s: string, from: nat)
    requires !HasPair(s)
    ensures MatchCode(s, from) == None
    decreases |s| - from
  {
    if from < |s| {
      MatchNeedsPair(s, from);
      NoPairNoMatch(s, from + 1);
    }
  }

  /** `codeBlockMatch[1] || 'python'`. */
  function Language(m: CodeMatch): string
  {
    if m.lang.Some? then m.lang.value else "python"
  }

  /** A fenced segment written as a fence, an optional word, a newline, a
      body and a fence matches with that word (or no word) and that body;
      the block's language is the word, or `python` without one. */
  lemma FencedMatch(x: string, w: string, body: string)
    requires x == Fence + w + "\n" + body + Fence
    requires forall k :: 0 <= k < |w| ==> IsWordChar(w[k])
    requires IsFenced(x)
    ensures MatchCode(x, 0) == Some(CodeMatch(if w == "" then None else Some(w), body))
    ensures Language(MatchCode(x, 0).value) == if w == "" then "python" else w
  {
    var nl := 3 + |w|;
    assert x[nl] == '\n';
    WordRunIs(x, 3, |w|);
    assert x[3..nl] == w;
    assert FenceAt(x, 0) by { assert x[..3] == Fence; }
    var q := |x| - 3;
    assert FindFence(x, nl + 1) == Some(q) by {
      FindFirstIs(x, nl + 1, q);
    }
    assert x[nl + 1..q] == body;
  }

  lemma {:induction false} WordRunIs(s: string, from: nat, n: nat)
    requires from + n < |s| && !IsWordChar(s[from + n])
    requires forall k :: from <= k < from + n ==> IsWordChar(s[k])
    ensures WordRun(s, from) == n
    decreases n
  {
    if n > 0 {
      WordRunIs(s, from + 1, n - 1);
    }
  }

  lemma {:induction false} FindFirstIs(s: string, from: nat, q: nat)
    requires from <= q && FenceAt(s, q)
    requires forall k :: from <= k < q ==> !FenceAt(s, k)
    ensures FindFence(s, from) == Some(q)
    decreases q - from
  {
    if from < q {
      FindFirstIs(s, from + 1, q);
    }
  }

  // ---------------------------------------------------------------------
  // Rendering

  /** A numbered code line; an empty line shows one space. */
  datatype CodeLine = CodeLine(number: nat, text: string)

  function NumberLines(lines: seq<string>, first: nat): (r: seq<CodeLine>)
    ensures |r| == |lines|
    ensures forall k :: 0 <= k < |lines| ==>
              r[k] == CodeLine(first + k, if lines[k] == "" then " " else lines[k])
  {
    if lines == [] then [] else [CodeLine(first, if lines[0] == "" then " " else lines[0])] + NumberLines(lines[1..], first + 1)
  }

  /** How one prose line renders. */
  datatype Line = Break | H1(text: string) | H2(text: string) | H3(text: string)
                | Emphasis(source: string) | InlineCode(source: string) | Paragraph(source: string)

  function Classify(line: string): Line
  {
    if Trim(line) == "" then Break
    else if StartsWith(line, "# ") then H1(line[2..])
    else if StartsWith(line, "## ") then H2(line[3..])
    else if StartsWith(line, "### ") then H3(line[4..])
    else if Contains(line, "**") then Emphasis(line)
    else if Contains(line, "`") then InlineCode(line)
    else Paragraph(line)
  }

  /** A line that begins with a non-space character is not blank. */
  lemma NotBlank(line: string)
    requires |line| > 0 && !IsSpace(line[0])
    ensures Trim(line) != ""
  {
    TrimEmptyIffAllSpace(line);
  }

  /** A `# ` line is a level-one heading of the rest of the line. */
  lemma HeadingOne(line: string)
    requires StartsWith(line, "# ")
    ensures Classify(line) == H1(line[2..]) && line == "# " + Classify(line).text
  {
    assert line[0] == "# "[0];
    NotBlank(line);
  }

  /** A `## ` line is a level-two heading, never level one. */
  lemma HeadingTwo(line: string)
    requires StartsWith(line, "## ")
    ensures Classify(line) == H2(line[3..]) && line == "## " + Classify(line).text
  {
    assert line[0] == "## "[0] && line[1] == "## "[1];
    NotBlank(line);
    assert !StartsWith(line, "# ") by { assert line[..2][1] == line[1]; }
  }

  /** A `### ` line is a level-three heading, never level one or two. */
  lemma HeadingThree(line: string)
    requires StartsWith(line, "### ")
    ensures Classify(line) == H3(line[4..]) && line == "### " + Classify(line).text
  {
    assert line[0] == "### "[0] && line[1] == "### "[1] && line[2] == "### "[2];
    NotBlank(line);
    assert !StartsWith(line, "# ") by { assert line[..2][1] == line[1]; }
    assert !StartsWith(line, "## ") by { assert line[..3][2] == line[2]; }
  }

  /** The order of the remaining tests: blank first, then the headings, and
      only then emphasis over inline code over a plain paragraph. */
  lemma ClassifyPrecedence(line: string)
    ensures Classify(line) == Break <==> AllSpace(line)
    ensures Classify(line).Emphasis? <==>
              !AllSpace(line) && !StartsWith(line, "# ") && !StartsWith(line, "## ") && !StartsWith(line, "### ")
              && Contains(line, "**")
    ensures Classify(line).InlineCode? <==>
              !AllSpace(line) && !StartsWith(line, "# ") && !StartsWith(line, "## ") && !StartsWith(line, "### ")
              && !Contains(line, "**") && Contains(line, "`")
    ensures Classify(line).Paragraph? ==> Classify(line) == Paragraph(line)
  {
    TrimEmptyIffAllSpace(line);
  }

  function ClassifyAll(lines: seq<string>): (r: seq<Line>)
    ensures |r| == |lines| && forall k :: 0 <= k < |lines| ==> r[k] == Classify(lines[k])
  {
    if lines == [] then [] else [Classify(lines[0])] + ClassifyAll(lines[1..])
  }

  /** What one segment renders as. */
  datatype Block = Code(lang: string, lines: seq<CodeLine>) | Prose(paragraphs: seq<Line>) | Nothing

  function RenderSection(section: string): Block
  {
    match MatchCode(section, 0)
    case Some(m) => Code(Language(m), NumberLines(SplitOn(Trim(m.body), '\n'), 1))
    case None =>
      if Trim(section) != "" then Prose(ClassifyAll(SplitOn(section, '\n'))) else Nothing
  }

  function RenderAll(sections: seq<string>): (r: seq<Block>)
    ensures |r| == |sections| && forall k :: 0 <= k < |sections| ==> r[k] == RenderSection(sections[k])
  {
    if sections == [] then [] else [RenderSection(sections[0])] + RenderAll(sections[1..])
  }

  /** `renderContent`: nothing for empty content. */
  function RenderContent(content: string): Option<seq<Block>>
  {
    if content == "" then None else Some(RenderAll(Segments(content)))
  }

  /** Empty content renders nothing; otherwise there is one block per
      segment, prose segments never become code: a blank one renders
      nothing and any other renders its lines, each classified. */
  lemma RenderShape(content: string, k: nat)
    ensures content == "" <==> RenderContent(content) == None
    ensures content != "" && k < |Segments(content)| && k % 2 == 0 ==>
              var x := Segments(content)[k];
              RenderContent(content).value[k]
                == if AllSpace(x) then Nothing else Prose(ClassifyAll(SplitOn(x, '\n')))
  {
    if content != "" && k < |Segments(content)| && k % 2 == 0 {
      var x := Segments(content)[k];
      SegmentsShape(content, k);
      NoPairNoMatch(x, 0);
      TrimEmptyIffAllSpace(x);
    }
  }

  /** A code block numbers its lines 1 to n, one per line of the trimmed
      body, and joining the lines (blank ones shown as a space) gives the
      trimmed body back with each blank line written as a space. */
  lemma CodeBlockLines(x: string, w: string, body: string)
    requires x == Fence + w + "\n" + body + Fence
    requires forall k :: 0 <= k < |w| ==> IsWordChar(w[k])
    requires IsFenced(x)
    ensures RenderSection(x).Code?
    ensures RenderSection(x).lang == if w == "" then "python" else w
    ensures var pieces := SplitOn(Trim(body), '\n');
            var lines := RenderSection(x).lines;
            |lines| == |pieces| && Join(pieces, "\n") == Trim(body)
            && forall k :: 0 <= k < |lines| ==>
                 lines[k].number == k + 1 && lines[k].text == if pieces[k] == "" then " " else pieces[k]
  {
    FencedMatch(x, w, body);
    SplitThenJoin(Trim(body), '\n');
  }
}
