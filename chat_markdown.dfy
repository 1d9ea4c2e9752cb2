/** The small Markdown renderer of the chat window: a reply is cut into
 *  lines, runs of `-`/`*` and `1.` lines become lists, other non-blank
 *  lines become paragraphs, and inside a line `**bold**`, `__bold__` and
 *  `[label](url)` are picked out.  The regular expressions of the source
 *  are modelled by their JavaScript meaning: `.` is any character but a
 *  line terminator, `\s` is the whitespace set below, `+` is greedy and
 *  `+?` lazy, and a match is the leftmost one. */
module ChatMarkdown {
  import opened Base

  // ---------------------------------------------------------------------
  // Characters

  /** JavaScript's `\s`, which is also the set `String.prototype.trim`
   *  removes: white space and line terminators. */
  predicate IsSpace(c: char)
  {
    || c == '\t' || c == '\n' || c == '\U{000B}' || c == '\U{000C}' || c == '\r' || c == ' '
    || c == '\U{00A0}' || c == '\U{1680}' || ('\U{2000}' <= c <= '\U{200A}')
    || c == '\U{2028}' || c == '\U{2029}' || c == '\U{202F}' || c == '\U{205F}'
    || c == '\U{3000}' || c == '\U{FEFF}'
  }

  /** No line terminator among `s[from..to]`. */
  predicate NoBreakIn(s: string, from: int, to: int)
    requires 0 <= from && to <= |s|
  {
    forall t :: from <= t < to ==> !LineTerminator(s[t])
  }

  /** `line.trim() === ''` */
  predicate Blank(line: string)
  {
    forall t :: 0 <= t < |line| ==> IsSpace(line[t])
  }

  // ---------------------------------------------------------------------
  // text.split('\n')

  /** The index of the first `'\n'` in `s`, if any. */
  function NewlineIndex(s: string): (r: Option<nat>)
    ensures r.Some? ==> r.value < |s| && s[r.value] == '\n' && '\n' !in s[..r.value]
    ensures r.None? ==> '\n' !in s
  {
    if |s| == 0 then None
    else if s[0] == '\n' then Some(0)
    else
      match NewlineIndex(s[1..])
      case None => None
      case Some(i) =>
        assert s[..i + 1] == [s[0]] + s[1..][..i];
        Some(i + 1)
  }

  /** `text.split('\n')`: the pieces between newlines, empty ones included. */
  function Lines(text: string): (r: seq<string>)
    ensures |r| >= 1
    ensures forall k :: 0 <= k < |r| ==> '\n' !in r[k]
    decreases |text|
  {
    match NewlineIndex(text)
    case None => [text]
    case Some(i) => [text[..i]] + Lines(text[i + 1..])
  }

  /** The pieces put back together with newlines between them. */
  function JoinLines(lines: seq<string>): string
    requires |lines| >= 1
  {
    if |lines| == 1 then lines[0] else lines[0] + "\n" + JoinLines(lines[1..])
  }

  /** Splitting loses nothing: joining the lines gives the text back. */
  lemma {:induction false} LinesJoin(text: string)
    ensures JoinLines(Lines(text)) == text
    decreases |text|
  {
    match NewlineIndex(text)
    case None =>
    case Some(i) =>
      var rest := text[i + 1..];
      LinesJoin(rest);
      assert Lines(text) == [text[..i]] + Lines(rest);
      assert JoinLines(Lines(text)) == text[..i] + "\n" + rest;
      assert text == text[..i] + "\n" + rest;
  }

  // ---------------------------------------------------------------------
  // The tail `\s+(.+)$` of both list patterns

  /** How many characters of white space `s` starts with. */
  function SpaceRun(s: string): (w: nat)
    ensures w <= |s| && (forall t :: 0 <= t < w ==> IsSpace(s[t])) && (w < |s| ==> !IsSpace(s[w]))
  {
    if |s| == 0 || !IsSpace(s[0]) then 0 else 1 + SpaceRun(s[1..])
  }

  /** `\s+(.+)$` matches `s` with `\s+` taking the first `j` characters. */
  predicate TailSplit(s: string, j: int)
  {
    1 <= j < |s| && (forall t :: 0 <= t < j ==> IsSpace(s[t])) && NoBreakIn(s, j, |s|)
  }

  /** The group `(.+)` of `\s+(.+)$` on `s`: the greedy `\s+` keeps as much
   *  white space as still leaves a non-empty rest free of line breaks. */
  function SpacedTail(s: string): Option<string>
  {
    var w := SpaceRun(s);
    if w == 0 then None
    else if w < |s| then
      if NoBreakIn(s, w, |s|) then Some(s[w..]) else None
    else if w >= 2 && !LineTerminator(s[w - 1]) then Some(s[w - 1..])
    else None
  }

  /** The tail matches exactly when some split into white space and a
   *  non-empty rest free of line breaks exists, and the group is the rest
   *  of the split with the longest white space. */
  lemma SpacedTailMeaning(s: string)
    ensures SpacedTail(s).None? <==> forall j :: !TailSplit(s, j)
    ensures SpacedTail(s).Some? ==> exists j :: && TailSplit(s, j) && SpacedTail(s).value == s[j..]
                                                && forall j' :: TailSplit(s, j') ==> j' <= j
  {
    var w := SpaceRun(s);
    if w == 0 {
      assert |s| == 0 || !IsSpace(s[0]);
    } else if w < |s| {
      SpacedTailBeforeText(s);
    } else {
      SpacedTailAllSpace(s);
    }
  }

  /** The case of `SpacedTailMeaning` where text follows the white space. */
  lemma SpacedTailBeforeText(s: string)
    requires 0 < SpaceRun(s) < |s|
    ensures SpacedTail(s).None? <==> forall j :: !TailSplit(s, j)
    ensures SpacedTail(s).Some? ==> exists j :: && TailSplit(s, j) && SpacedTail(s).value == s[j..]
                                                && forall j' :: TailSplit(s, j') ==> j' <= j
  {
    var w := SpaceRun(s);
    assert forall j :: TailSplit(s, j) ==> j <= w;
    if NoBreakIn(s, w, |s|) {
      assert TailSplit(s, w);
    } else {
      var b :| w <= b < |s| && LineTerminator(s[b]);
      var ch := s[b];
      assert forall j :: TailSplit(s, j) ==> !LineTerminator(ch);
    }
  }

  /** The case of `SpacedTailMeaning` where `s` is all white space: only
   *  the last character can be the rest. */
  lemma SpacedTailAllSpace(s: string)
    requires 0 < SpaceRun(s) == |s|
    ensures SpacedTail(s).None? <==> forall j :: !TailSplit(s, j)
    ensures SpacedTail(s).Some? ==> exists j :: && TailSplit(s, j) && SpacedTail(s).value == s[j..]
                                                && forall j' :: TailSplit(s, j') ==> j' <= j
  {
    var n := |s|;
    forall j | TailSplit(s, j)
      ensures n >= 2 && !LineTerminator(s[n - 1])
    {
      assert j <= n - 1;
    }
    if n >= 2 && !LineTerminator(s[n - 1]) {
      assert TailSplit(s, n - 1);
    }
  }

  // ---------------------------------------------------------------------
  // The list patterns

  datatype ListKind = Bulleted | Numbered

  /** `line.match(/^[\-\*]\s+(.+)$/)?.[1]` */
  function BulletBody(line: string): (r: Option<string>)
    ensures r.Some? ==> |line| >= 1 && (line[0] == '-' || line[0] == '*')
  {
    if |line| >= 1 && (line[0] == '-' || line[0] == '*') then SpacedTail(line[1..]) else None
  }

  /** How many ASCII digits `s` starts with. */
  function DigitRun(s: string): (d: nat)
    ensures d <= |s| && (forall t :: 0 <= t < d ==> IsDigit(s[t])) && (d < |s| ==> !IsDigit(s[d]))
  {
    if |s| == 0 || !IsDigit(s[0]) then 0 else 1 + DigitRun(s[1..])
  }

  /** `line` is `d` ASCII digits followed by a dot. */
  predicate DigitsThenDot(line: string, d: int)
  {
    1 <= d < |line| && (forall t :: 0 <= t < d ==> IsDigit(line[t])) && line[d] == '.'
  }

  /** `line.match(/^\d+\.\s+(.+)$/)?.[1]`: the digits the greedy `\d+` takes
   *  are all of them, the dot has to follow. */
  function NumberedBody(line: string): (r: Option<string>)
    ensures r.Some? ==> DigitsThenDot(line, DigitRun(line))
  {
    var d := DigitRun(line);
    if 1 <= d < |line| && line[d] == '.' then SpacedTail(line[d + 1..]) else None
  }

  /** The digits before the dot can be split in one way only, so the
   *  pattern matches exactly when some digits-and-dot prefix is followed
   *  by a `\s+(.+)$` tail, the group being that tail's. */
  lemma NumberedBodyMeaning(line: string)
    ensures forall d :: DigitsThenDot(line, d) ==> NumberedBody(line) == SpacedTail(line[d + 1..])
    ensures (forall d :: !DigitsThenDot(line, d)) ==> NumberedBody(line).None?
  {
    var e := DigitRun(line);
    if DigitsThenDot(line, e) {
      assert NumberedBody(line) == SpacedTail(line[e + 1..]);
    } else {
      assert NumberedBody(line).None?;
    }
    forall d | DigitsThenDot(line, d)
      ensures d == e
    {
      DigitsThenDotAtRun(line, d);
    }
  }

  /** The dot can only come right after all of the leading digits. */
  lemma {:induction false} DigitsThenDotAtRun(line: string, d: int)
    requires DigitsThenDot(line, d)
    ensures d == DigitRun(line)
  {
    if d > 1 {
      assert DigitsThenDot(line[1..], d - 1);
      DigitsThenDotAtRun(line[1..], d - 1);
    }
  }

  /** What a line is, as the line loop sees it. */
  datatype LineKind = Item(kind: ListKind, body: string) | Empty | Text(line: string)

  /** The tests of the line loop, in their order: the bullet pattern, the
   *  numbered pattern, a blank line, anything else. */
  function Classify(line: string): LineKind
  {
    match BulletBody(line)
    case Some(b) => Item(Bulleted, b)
    case None =>
      match NumberedBody(line)
      case Some(b) => Item(Numbered, b)
      case None => if Blank(line) then Empty else Text(line)
  }

  /** A line is a bulleted item exactly when the bullet pattern matches, a
   *  numbered item exactly when only the numbered one does, blank when
   *  neither matches and it trims to nothing, and text otherwise; an item
   *  carries the pattern's group. */
  lemma ClassifyMeaning(line: string)
    ensures var c := Classify(line);
            && (c.Item? && c.kind == Bulleted <==> BulletBody(line).Some?)
            && (c.Item? && c.kind == Numbered <==> BulletBody(line).None? && NumberedBody(line).Some?)
            && (c.Empty? <==> BulletBody(line).None? && NumberedBody(line).None? && Blank(line))
            && (c.Text? <==> BulletBody(line).None? && NumberedBody(line).None? && !Blank(line))
            && (c.Item? ==> c.body == (if c.kind == Bulleted then BulletBody(line) else NumberedBody(line)).value)
            && (c.Text? ==> c.line == line)
  {
  }

  // ---------------------------------------------------------------------
  // Inline markup: /\*\*(.+?)\*\*|__(.+?)__/ and /\[(.+?)\]\((.+?)\)/

  /** The literal that ends a lazy group: `**`, `__` or `](` (two
   *  characters), or `)`. */
  datatype Closer = Two(first: char, second: char) | One(only: char)

  function Width(c: Closer): nat
  {
    if c.Two? then 2 else 1
  }

  /** `c` stands at `pos`. */
  predicate ClosedAt(s: string, pos: int, c: Closer)
  {
    0 <= pos && pos + Width(c) <= |s| &&
    match c
    case Two(a, b) => s[pos] == a && s[pos + 1] == b
    case One(a) => s[pos] == a
  }

  /** From `from` on, `k` characters free of line breaks, then `c`: a lazy
   *  `(.+?)` of length `k` followed by the literal `c`. */
  ghost predicate ClosesAt(s: string, from: int, c: Closer, k: int)
  {
    0 <= from && 1 <= k && ClosedAt(s, from + k, c) && NoBreakIn(s, from, from + k)
  }

  /** `k` is the length the lazy `(.+?)` settles on: the shortest that works. */
  ghost predicate LeastClose(s: string, from: int, c: Closer, k: int)
  {
    ClosesAt(s, from, c, k) && forall k' :: 1 <= k' < k ==> !ClosesAt(s, from, c, k')
  }

  /** The lazy search: try the lengths from `k` up, giving up at the end of
   *  the text or at a line break, which every longer group would hold. */
  function LazyClose(s: string, from: nat, c: Closer, k: nat): (r: Option<nat>)
    requires 1 <= k && from + k - 1 <= |s| && NoBreakIn(s, from, from + k - 1)
    requires forall k' :: 1 <= k' < k ==> !ClosesAt(s, from, c, k')
    ensures r.Some? ==> LeastClose(s, from, c, r.value) && from + r.value + Width(c) <= |s|
    ensures r.None? ==> forall k' :: !ClosesAt(s, from, c, k')
    decreases |s| - k
  {
    if from + k + Width(c) > |s| then None
    else if LineTerminator(s[from + k - 1]) then
      var ch := s[from + k - 1];
      assert forall k' :: k' >= k && ClosesAt(s, from, c, k') ==> !LineTerminator(ch);
      None
    else if ClosedAt(s, from + k, c) then Some(k)
    else LazyClose(s, from, c, k + 1)
  }

  /** The two patterns the line is searched for. */
  datatype Markup = Bold | Link

  /** A match: where it starts, how long it is, and its groups (the bold
   *  text, or the link's label and address). */
  datatype Match = Match(index: nat, length: nat, first: string, second: string)

  /** Delimiter `d d` (`**` or `__`) at `i`, then `k` characters of text and
   *  the delimiter again. */
  ghost predicate BoldOpenClose(s: string, i: int, d: char, k: int)
  {
    ClosedAt(s, i, Two(d, d)) && ClosesAt(s, i + 2, Two(d, d), k)
  }

  /** The bold match the lazy `(.+?)` settles on: the shortest text. */
  ghost predicate BoldSplit(s: string, i: int, d: char, k: int)
  {
    ClosedAt(s, i, Two(d, d)) && LeastClose(s, i + 2, Two(d, d), k)
  }

  /** A link at `i` with a label `k` and an address `m` characters long. */
  ghost predicate LinkSplit(s: string, i: int, k: int, m: int)
  {
    ClosedAt(s, i, One('[')) && ClosesAt(s, i + 1, Two(']', '('), k) && ClosesAt(s, i + 3 + k, One(')'), m)
  }

  /** The pair the lazy groups of the link pattern settle on: the label as
   *  short as possible, then the address as short as possible. */
  ghost predicate LeastLink(s: string, i: int, k: int, m: int)
  {
    && LinkSplit(s, i, k, m)
    && (forall k', m' :: 1 <= k' < k ==> !LinkSplit(s, i, k', m'))
    && (forall m' :: 1 <= m' < m ==> !LinkSplit(s, i, k, m'))
  }

  /** The shortest label from `k` on that is followed by `](`, an address
   *  and `)`. */
  function LabelFrom(s: string, i: nat, k: nat): (r: Option<(nat, nat)>)
    requires ClosedAt(s, i, One('[')) && 1 <= k && i + k <= |s| && NoBreakIn(s, i + 1, i + k)
    requires forall k', m' :: 1 <= k' < k ==> !LinkSplit(s, i, k', m')
    ensures r.Some? ==> LeastLink(s, i, r.value.0, r.value.1) && i + 4 + r.value.0 + r.value.1 <= |s|
    ensures r.None? ==> forall k', m' :: !LinkSplit(s, i, k', m')
    decreases |s| - k
  {
    if i + 3 + k > |s| then None
    else if LineTerminator(s[i + k]) then
      var ch := s[i + k];
      assert forall k', m' :: k' >= k && LinkSplit(s, i, k', m') ==> !LineTerminator(ch);
      None
    else if ClosedAt(s, i + 1 + k, Two(']', '(')) then
      match LazyClose(s, i + 3 + k, One(')'), 1)
      case Some(m) => Some((k, m))
      case None => LabelFrom(s, i, k + 1)
    else LabelFrom(s, i, k + 1)
  }

  /** The pattern `p` matched at index `i`, if it matches there. */
  function MatchAt(s: string, i: nat, p: Markup): (r: Option<Match>)
    requires i <= |s|
    ensures r.Some? ==> r.value.index == i && 4 <= r.value.length && i + r.value.length <= |s|
  {
    match p
    case Bold =>
      if ClosedAt(s, i, Two('*', '*')) || ClosedAt(s, i, Two('_', '_')) then
        var d := Two(s[i], s[i]);
        match LazyClose(s, i + 2, d, 1)
        case Some(k) => Some(Match(i, k + 4, s[i + 2..i + 2 + k], ""))
        case None => None
      else None
    case Link =>
      if ClosedAt(s, i, One('[')) then
        match LabelFrom(s, i, 1)
        case Some((k, m)) => Some(Match(i, k + m + 4, s[i + 1..i + 1 + k], s[i + 3 + k..i + 3 + k + m]))
        case None => None
      else None
  }

  /** A bold match at `i` is a delimiter, the shortest text that the same
   *  delimiter closes, and that delimiter; no match means no delimited
   *  text of any length starts at `i`. */
  lemma BoldMatchMeaning(s: string, i: nat)
    requires i <= |s|
    ensures var r := MatchAt(s, i, Bold);
            r.Some? ==> && r.value.length == |r.value.first| + 4
                        && r.value.first == s[i + 2..i + 2 + |r.value.first|]
                        && (BoldSplit(s, i, '*', |r.value.first|) || BoldSplit(s, i, '_', |r.value.first|))
    ensures MatchAt(s, i, Bold).None? ==> forall k :: !BoldOpenClose(s, i, '*', k) && !BoldOpenClose(s, i, '_', k)
  {
  }

  /** A link match at `i` has the shortest label that can be completed,
   *  then the shortest address; no match means no label and address of
   *  any lengths fit at `i`. */
  lemma LinkMatchMeaning(s: string, i: nat)
    requires i <= |s|
    ensures var r := MatchAt(s, i, Link);
            r.Some? ==> && r.value.length == |r.value.first| + |r.value.second| + 4
                        && r.value.first == s[i + 1..i + 1 + |r.value.first|]
                        && r.value.second == s[i + 3 + |r.value.first|..i + 3 + |r.value.first| + |r.value.second|]
                        && LeastLink(s, i, |r.value.first|, |r.value.second|)
    ensures MatchAt(s, i, Link).None? ==> forall k, m :: !LinkSplit(s, i, k, m)
  {
  }

  /** The first index from `i` on, below `n`, at which `at` has a match. */
  function FirstHit(at: nat -> Option<Match>, i: nat, n: nat): (r: Option<nat>)
    ensures r.Some? ==> i <= r.value < n && at(r.value).Some? && forall j :: i <= j < r.value ==> at(j).None?
    ensures r.None? ==> forall j :: i <= j < n ==> at(j).None?
    decreases n - i
  {
    if i >= n then None
    else if at(i).Some? then Some(i)
    else FirstHit(at, i + 1, n)
  }

  /** Where in `s` the pattern `p` matches. */
  function Matches(s: string, p: Markup): nat -> Option<Match>
  {
    (j: nat) => if j <= |s| then MatchAt(s, j, p) else None
  }

  /** `remaining.match(pattern)`: the leftmost match at or after `i`. */
  function FindFrom(s: string, i: nat, p: Markup): (r: Option<Match>)
    requires i <= |s|
    ensures r.Some? ==> i <= r.value.index && 4 <= r.value.length && r.value.index + r.value.length <= |s|
  {
    match FirstHit(Matches(s, p), i, |s|)
    case Some(j) => MatchAt(s, j, p)
    case None => None
  }

  /** The search finds the leftmost index the pattern matches at. */
  lemma FindFromLeftmost(s: string, i: nat, p: Markup)
    requires i <= |s|
    ensures var r := FindFrom(s, i, p);
            && (r.Some? ==> r.value.index < |s| && MatchAt(s, r.value.index, p) == r)
            && (r.Some? ==> forall j :: i <= j < r.value.index ==> MatchAt(s, j, p).None?)
            && (r.None? ==> forall j :: i <= j < |s| ==> MatchAt(s, j, p).None?)
  {
    var at := Matches(s, p);
    forall j | i <= j <= |s|
      ensures at(j) == MatchAt(s, j, p)
    {
    }
  }

  // ---------------------------------------------------------------------
  // parseInline

  /** A piece of a rendered line: text as it stands, `<strong>`, `<a>`. */
  datatype Inline = Plain(text: string) | Strong(text: string) | Anchor(linkText: string, href: string)

  /** The text before a match, pushed only when it is not empty. */
  function Leading(s: string, n: nat): (r: seq<Inline>)
    requires n <= |s|
    ensures n > 0 ==> r == [Plain(s[..n])]
    ensures n == 0 ==> r == []
  {
    if n > 0 then [Plain(s[..n])] else []
  }

  /** One turn of the loop of `parseInline` on a non-empty `s`: the pieces
   *  it pushes and what remains.  The leftmost bold is taken if there is
   *  one anywhere, and only otherwise the leftmost link; text with neither
   *  is pushed whole and ends the line. */
  function Step(s: string): (r: (seq<Inline>, string))
    requires |s| > 0
    ensures |r.1| < |s|
  {
    match FindFrom(s, 0, Bold)
    case Some(b) => (Leading(s, b.index) + [Strong(b.first)], s[b.index + b.length..])
    case None =>
      match FindFrom(s, 0, Link)
      case Some(l) => (Leading(s, l.index) + [Anchor(l.first, l.second)], s[l.index + l.length..])
      case None => ([Plain(s)], [])
  }

  /** The pieces `parseInline` produces for `s`. */
  function Pieces(s: string): seq<Inline>
    decreases |s|
  {
    if |s| == 0 then [] else Step(s).0 + Pieces(Step(s).1)
  }

  /** One turn of the `parseInline` loop: the pieces pushed and the rest
   *  of the line (empty after the last, unmatched text). */
  method InlineTurn(remaining: string) returns (pushed: seq<Inline>, rest: string)
    requires |remaining| > 0
    ensures (pushed, rest) == Step(remaining)
  {
    pushed := [];
    var boldMatch := FindFrom(remaining, 0, Bold);
    if boldMatch.Some? {
      var b := boldMatch.value;
      if b.index > 0 {
        pushed := pushed + [Plain(remaining[..b.index])];
      }
      pushed := pushed + [Strong(b.first)];
      assert pushed == Leading(remaining, b.index) + [Strong(b.first)];
      rest := remaining[b.index + b.length..];
      return;
    }
    var linkMatch := FindFrom(remaining, 0, Link);
    if linkMatch.Some? {
      var l := linkMatch.value;
      if l.index > 0 {
        pushed := pushed + [Plain(remaining[..l.index])];
      }
      pushed := pushed + [Anchor(l.first, l.second)];
      assert pushed == Leading(remaining, l.index) + [Anchor(l.first, l.second)];
      rest := remaining[l.index + l.length..];
      return;
    }
    pushed := pushed + [Plain(remaining)];
    rest := [];
    assert pushed == [Plain(remaining)];
  }

  /** `parseInline`: consume `remaining` match by match, until no markup is
   *  left. */
  method ParseInline(line: string) returns (parts: seq<Inline>)
    ensures parts == Pieces(line)
  {
    parts := [];
    var remaining := line;
    while |remaining| > 0
      invariant parts + Pieces(remaining) == Pieces(line)
      decreases |remaining|
    {
      var pushed, rest := InlineTurn(remaining);
      assert Pieces(remaining) == pushed + Pieces(rest);
      parts := parts + pushed;
      remaining := rest;
    }
  }

  /** A line renders as itself, in one piece, exactly when it holds
   *  neither bold nor link markup. */
  lemma PlainLineIsOnePiece(s: string)
    requires |s| > 0
    ensures Pieces(s) == [Plain(s)] <==> FindFrom(s, 0, Bold).None? && FindFrom(s, 0, Link).None?
  {
    match FindFrom(s, 0, Bold)
    case Some(b) =>
      assert Pieces(s)[|Leading(s, b.index)|] == Strong(b.first);
    case None =>
      match FindFrom(s, 0, Link)
      case Some(l) =>
        assert Pieces(s)[|Leading(s, l.index)|] == Anchor(l.first, l.second);
      case None =>
  }

  /** No piece is empty text: the text before a match is pushed only when
   *  there is some, and the unmatched rest only when the line is not used up. */
  lemma {:induction false} NoEmptyPlain(s: string)
    ensures forall j :: 0 <= j < |Pieces(s)| && Pieces(s)[j].Plain? ==> Pieces(s)[j].text != []
    decreases |s|
  {
    if |s| > 0 {
      NoEmptyPlain(Step(s).1);
      StepPlainNotEmpty(s);
      assert Pieces(s) == Step(s).0 + Pieces(Step(s).1);
    }
  }

  /** One turn pushes plain text only when there is some. */
  lemma StepPlainNotEmpty(s: string)
    requires |s| > 0
    ensures forall j :: 0 <= j < |Step(s).0| && Step(s).0[j].Plain? ==> Step(s).0[j].text != []
  {
  }

  /** Bold markup found in a prefix of `s` is found in `s` at the same place. */
  lemma BoldInPrefix(s: string, n: nat, j: nat)
    requires j <= n <= |s|
    requires MatchAt(s[..n], j, Bold).Some?
    ensures MatchAt(s, j, Bold).Some?
  {
    BoldMatchMeaning(s[..n], j);
    BoldMatchMeaning(s, j);
    var k := |MatchAt(s[..n], j, Bold).value.first|;
    if BoldSplit(s[..n], j, '*', k) {
      assert BoldOpenClose(s, j, '*', k);
    } else {
      assert BoldOpenClose(s, j, '_', k);
    }
  }

  /** The text before the leftmost bold match of `s` holds no bold markup. */
  lemma NoBoldBefore(s: string, n: nat)
    requires n <= |s|
    requires forall j :: 0 <= j < n ==> MatchAt(s, j, Bold).None?
    ensures FindFrom(s[..n], 0, Bold).None?
  {
    FindFromLeftmost(s[..n], 0, Bold);
    var r := FindFrom(s[..n], 0, Bold);
    if r.Some? {
      BoldInPrefix(s, n, r.value.index);
    }
  }

  /** Where the plain text of one turn ends: at the leftmost bold, else at
   *  the leftmost link, else at the end of `s`. */
  function PlainCut(s: string): (n: nat)
    requires |s| > 0
    ensures n <= |s|
  {
    match FindFrom(s, 0, Bold)
    case Some(b) => b.index
    case None =>
      match FindFrom(s, 0, Link)
      case Some(l) => l.index
      case None => |s|
  }

  /** The only text one turn leaves plain is the text before the cut. */
  lemma StepPlainIsCut(s: string)
    requires |s| > 0
    ensures forall j :: 0 <= j < |Step(s).0| && Step(s).0[j].Plain? ==> Step(s).0[j].text == s[..PlainCut(s)]
  {
    if FindFrom(s, 0, Bold).None? && FindFrom(s, 0, Link).None? {
      assert s[..|s|] == s;
    }
  }

  /** The text before the cut holds no bold markup. */
  lemma CutHasNoBold(s: string)
    requires |s| > 0
    ensures FindFrom(s[..PlainCut(s)], 0, Bold).None?
  {
    FindFromLeftmost(s, 0, Bold);
    NoBoldBefore(s, PlainCut(s));
  }

  /** The text one turn leaves plain holds no bold markup. */
  lemma StepPlainHasNoBold(s: string)
    requires |s| > 0
    ensures forall j :: 0 <= j < |Step(s).0| && Step(s).0[j].Plain? ==> FindFrom(Step(s).0[j].text, 0, Bold).None?
  {
    StepPlainIsCut(s);
    CutHasNoBold(s);
  }

  /** Text left plain holds no bold markup: bold is looked for first, in the
   *  whole rest of the line, and the leftmost match is taken. */
  lemma {:induction false} PlainHasNoBold(s: string)
    ensures forall j :: 0 <= j < |Pieces(s)| && Pieces(s)[j].Plain? ==> FindFrom(Pieces(s)[j].text, 0, Bold).None?
    decreases |s|
  {
    if |s| > 0 {
      PlainHasNoBold(Step(s).1);
      StepPlainHasNoBold(s);
    }
  }

  // ---------------------------------------------------------------------
  // parseSimpleMarkdown

  /** A rendered block: a paragraph, or a bulleted or numbered list whose
   *  items are each rendered by `parseInline`. */
  datatype Block = Paragraph(content: seq<Inline>) | List(kind: ListKind, items: seq<seq<Inline>>)

  /** `items.map(parseInline)` */
  function RenderAll(items: seq<string>, render: string -> seq<Inline>): (r: seq<seq<Inline>>)
    ensures |r| == |items| && forall j :: 0 <= j < |items| ==> r[j] == render(items[j])
  {
    if |items| == 0 then [] else RenderAll(items[..|items| - 1], render) + [render(items[|items| - 1])]
  }

  /** The bodies of the item lines among `cs`, in order. */
  function ItemBodies(cs: seq<LineKind>): (r: seq<string>)
    ensures |r| <= |cs|
  {
    if |cs| == 0 then []
    else ItemBodies(cs[..|cs| - 1]) + (if cs[|cs| - 1].Item? then [cs[|cs| - 1].body] else [])
  }

  /** The non-blank, non-item lines among `cs`, in order. */
  function TextLines(cs: seq<LineKind>): (r: seq<string>)
    ensures |r| <= |cs|
  {
    if |cs| == 0 then []
    else TextLines(cs[..|cs| - 1]) + (if cs[|cs| - 1].Text? then [cs[|cs| - 1].line] else [])
  }

  /** Line `j` of `cs` is an item of kind `k`. */
  predicate ItemOf(cs: seq<LineKind>, j: int, k: ListKind)
    requires 0 <= j < |cs|
  {
    cs[j].Item? && cs[j].kind == k
  }

  /** How many lines at the end of `cs` are items of kind `k`. */
  function TrailingRun(cs: seq<LineKind>, k: ListKind): (n: nat)
    ensures n <= |cs|
  {
    if |cs| == 0 || !ItemOf(cs, |cs| - 1, k) then 0
    else 1 + TrailingRun(cs[..|cs| - 1], k)
  }

  /** The blocks a sequence of classified lines renders to: blank lines
   *  vanish, every other non-item line is a paragraph, and each maximal run
   *  of item lines of one kind is one list of their bodies. */
  function RefBlocks(cs: seq<LineKind>, render: string -> seq<Inline>): seq<Block>
    decreases |cs|
  {
    if |cs| == 0 then []
    else
      match cs[|cs| - 1]
      case Empty => RefBlocks(cs[..|cs| - 1], render)
      case Text(line) => RefBlocks(cs[..|cs| - 1], render) + [Paragraph(render(line))]
      case Item(k, _) =>
        var n := TrailingRun(cs, k);
        assert ItemOf(cs, |cs| - 1, k);
        RefBlocks(cs[..|cs| - n], render) + [List(k, RenderAll(ItemBodies(cs[|cs| - n..]), render))]
  }

  /** The items of all lists of `bs`, in order. */
  function ListItems(bs: seq<Block>): seq<seq<Inline>>
  {
    if |bs| == 0 then []
    else ListItems(bs[..|bs| - 1]) + (if bs[|bs| - 1].List? then bs[|bs| - 1].items else [])
  }

  /** The contents of all paragraphs of `bs`, in order. */
  function Paragraphs(bs: seq<Block>): seq<seq<Inline>>
  {
    if |bs| == 0 then []
    else Paragraphs(bs[..|bs| - 1]) + (if bs[|bs| - 1].Paragraph? then [bs[|bs| - 1].content] else [])
  }

  lemma RenderAllAppend(a: seq<string>, b: seq<string>, render: string -> seq<Inline>)
    ensures RenderAll(a + b, render) == RenderAll(a, render) + RenderAll(b, render)
  {
    assert forall j :: 0 <= j < |a + b| ==> RenderAll(a + b, render)[j] == (RenderAll(a, render) + RenderAll(b, render))[j];
  }

  lemma {:induction false} LinesAppend(a: seq<LineKind>, b: seq<LineKind>)
    ensures ItemBodies(a + b) == ItemBodies(a) + ItemBodies(b)
    ensures TextLines(a + b) == TextLines(a) + TextLines(b)
    decreases |b|
  {
    if |b| > 0 {
      var b', x := b[..|b| - 1], b[|b| - 1];
      assert (a + b)[..|a + b| - 1] == a + b';
      LinesAppend(a, b');
    } else {
      assert a + b == a;
    }
  }

  /** The last `m + 1` elements are the last `m` before the final one,
   *  then the final one. */
  lemma SuffixSnoc<T>(s: seq<T>, m: nat)
    requires m < |s|
    ensures s[|s| - (m + 1)..] == s[..|s| - 1][|s| - 1 - m..] + [s[|s| - 1]]
  {
    var l, r := s[|s| - (m + 1)..], s[..|s| - 1][|s| - 1 - m..] + [s[|s| - 1]];
    assert |l| == |r|;
    forall j | 0 <= j < |l|
      ensures l[j] == r[j]
    {
      if j < m {
        assert r[j] == s[|s| - 1 - m + j];
      }
    }
  }

  /** The run of `k` items that ends `cs` gives one body per line. */
  lemma {:induction false} TrailingRunBodies(cs: seq<LineKind>, k: ListKind)
    ensures |ItemBodies(cs[|cs| - TrailingRun(cs, k)..])| == TrailingRun(cs, k)
  {
    if |cs| > 0 && ItemOf(cs, |cs| - 1, k) {
      var init, last := cs[..|cs| - 1], cs[|cs| - 1];
      var m := TrailingRun(init, k);
      assert last.Item? && TrailingRun(cs, k) == m + 1;
      TrailingRunBodies(init, k);
      var run := init[|init| - m..];
      SuffixSnoc(cs, m);
      LinesAppend(run, [last]);
      assert ItemBodies([last]) == [last.body];
    } else {
      assert TrailingRun(cs, k) == 0;
    }
  }

  /** The run of `k` items that ends `cs` gives no paragraph. */
  lemma {:induction false} TrailingRunTexts(cs: seq<LineKind>, k: ListKind)
    ensures TextLines(cs[|cs| - TrailingRun(cs, k)..]) == []
  {
    if |cs| > 0 && ItemOf(cs, |cs| - 1, k) {
      var init, last := cs[..|cs| - 1], cs[|cs| - 1];
      var m := TrailingRun(init, k);
      assert last.Item? && TrailingRun(cs, k) == m + 1;
      TrailingRunTexts(init, k);
      var run := init[|init| - m..];
      SuffixSnoc(cs, m);
      LinesAppend(run, [last]);
      assert TextLines([last]) == [];
    } else {
      assert TrailingRun(cs, k) == 0;
      assert cs[|cs|..] == [];
    }
  }

  /** Every item line ends up, in order, as an item of some list:
   *  no item is lost or reordered. */
  lemma {:induction false} EveryItemListed(cs: seq<LineKind>, render: string -> seq<Inline>)
    ensures ListItems(RefBlocks(cs, render)) == RenderAll(ItemBodies(cs), render)
    decreases |cs|
  {
    if |cs| > 0 {
      var init, last := cs[..|cs| - 1], cs[|cs| - 1];
      match last
      case Empty =>
        EveryItemListed(init, render);
      case Text(l) =>
        EveryItemListed(init, render);
        var bs := RefBlocks(init, render);
        assert (bs + [Paragraph(render(l))])[..|bs|] == bs;
      case Item(k, _) =>
        var n := TrailingRun(cs, k);
        assert ItemOf(cs, |cs| - 1, k);
        var pre, run := cs[..|cs| - n], cs[|cs| - n..];
        assert cs == pre + run;
        EveryItemListed(pre, render);
        LinesAppend(pre, run);
        var bs := RefBlocks(pre, render);
        assert (bs + [List(k, RenderAll(ItemBodies(run), render))])[..|bs|] == bs;
        RenderAllAppend(ItemBodies(pre), ItemBodies(run), render);
    }
  }

  /** Every text line ends up, in order, as a paragraph. */
  lemma {:induction false} EveryTextParagraph(cs: seq<LineKind>, render: string -> seq<Inline>)
    ensures Paragraphs(RefBlocks(cs, render)) == RenderAll(TextLines(cs), render)
    decreases |cs|
  {
    if |cs| > 0 {
      var init, last := cs[..|cs| - 1], cs[|cs| - 1];
      match last
      case Empty =>
        EveryTextParagraph(init, render);
      case Text(l) =>
        EveryTextParagraph(init, render);
        var bs := RefBlocks(init, render);
        assert (bs + [Paragraph(render(l))])[..|bs|] == bs;
        RenderAllAppend(TextLines(init), [l], render);
      case Item(k, _) =>
        var n := TrailingRun(cs, k);
        assert ItemOf(cs, |cs| - 1, k);
        var pre, run := cs[..|cs| - n], cs[|cs| - n..];
        assert cs == pre + run;
        EveryTextParagraph(pre, render);
        LinesAppend(pre, run);
        TrailingRunTexts(cs, k);
        var bs := RefBlocks(pre, render);
        assert (bs + [List(k, RenderAll(ItemBodies(run), render))])[..|bs|] == bs;
        assert TextLines(pre) + [] == TextLines(pre);
    }
  }

  /** No list is rendered without items. */
  lemma {:induction false} NoEmptyList(cs: seq<LineKind>, render: string -> seq<Inline>)
    ensures forall j :: 0 <= j < |RefBlocks(cs, render)| && RefBlocks(cs, render)[j].List? ==> RefBlocks(cs, render)[j].items != []
    decreases |cs|
  {
    if |cs| > 0 {
      var init, last := cs[..|cs| - 1], cs[|cs| - 1];
      match last
      case Empty =>
        NoEmptyList(init, render);
      case Text(l) =>
        NoEmptyList(init, render);
      case Item(k, _) =>
        var n := TrailingRun(cs, k);
        assert ItemOf(cs, |cs| - 1, k);
        NoEmptyList(cs[..|cs| - n], render);
        TrailingRunBodies(cs, k);
    }
  }

  /** A run of item lines of one kind that no item of that kind precedes
   *  renders as one list of all their bodies. */
  lemma {:induction false} RunIsOneList(p: seq<LineKind>, run: seq<LineKind>, k: ListKind, render: string -> seq<Inline>)
    requires |run| > 0 && forall j :: 0 <= j < |run| ==> run[j].Item? && run[j].kind == k
    requires |p| == 0 || !ItemOf(p, |p| - 1, k)
    ensures RefBlocks(p + run, render) == RefBlocks(p, render) + [List(k, RenderAll(ItemBodies(run), render))]
  {
    RunLength(p, run, k);
    var s := p + run;
    assert s[|s| - 1] == run[|run| - 1];
    assert s[..|s| - |run|] == p;
    assert s[|s| - |run|..] == run;
  }

  lemma {:induction false} RunLength(p: seq<LineKind>, run: seq<LineKind>, k: ListKind)
    requires forall j :: 0 <= j < |run| ==> run[j].Item? && run[j].kind == k
    requires |p| == 0 || !ItemOf(p, |p| - 1, k)
    ensures TrailingRun(p + run, k) == |run|
    decreases |run|
  {
    var s := p + run;
    if |run| > 0 {
      assert s[..|s| - 1] == p + run[..|run| - 1];
      assert s[|s| - 1] == run[|run| - 1];
      RunLength(p, run[..|run| - 1], k);
    } else {
      assert s == p;
    }
  }

  /** The classified lines of a text. */
  function ClassifyAll(lines: seq<string>): (cs: seq<LineKind>)
    ensures |cs| == |lines| && forall j :: 0 <= j < |lines| ==> cs[j] == Classify(lines[j])
  {
    seq(|lines|, j requires 0 <= j < |lines| => Classify(lines[j]))
  }

  /** What `parseSimpleMarkdown` renders `text` to. */
  function Rendered(text: string): seq<Block>
  {
    RefBlocks(ClassifyAll(Lines(text)), Pieces)
  }

  /** The list being collected, as `flushList` would render it: nothing
   *  unless a kind is set and some item is waiting. */
  function Pending(listType: Option<ListKind>, listItems: seq<string>, render: string -> seq<Inline>): seq<Block>
  {
    if listType.Some? && |listItems| > 0 then [List(listType.value, RenderAll(listItems, render))] else []
  }

  /** `flushList`: render the waiting items as one list of the set kind and
   *  start afresh; do nothing when no item waits or no kind is set. */
  method FlushList(result: seq<Block>, listItems: seq<string>, listType: Option<ListKind>)
    returns (result': seq<Block>, listItems': seq<string>, listType': Option<ListKind>)
    ensures result' == result + Pending(listType, listItems, Pieces)
    ensures if listType.Some? && |listItems| > 0 then listItems' == [] && listType' == None
            else listItems' == listItems && listType' == listType
  {
    result', listItems', listType' := result, listItems, listType;
    if |listItems| > 0 && listType.Some? {
      var rendered := [];
      for j := 0 to |listItems|
        invariant rendered == RenderAll(listItems[..j], Pieces)
      {
        var parts := ParseInline(listItems[j]);
        rendered := rendered + [parts];
      }
      assert listItems[..|listItems|] == listItems;
      result' := result + [List(listType.value, rendered)];
      listItems', listType' := [], None;
    }
  }

  /** The state of the line loop after the lines `cs`: with no kind set,
   *  nothing waits and the result is all of `cs` rendered; with kind `k`
   *  set, the waiting items are the bodies of the run of `k` items that
   *  ends `cs`, and the result is what comes before that run. */
  ghost predicate LoopState(cs: seq<LineKind>, result: seq<Block>, listItems: seq<string>, listType: Option<ListKind>, render: string -> seq<Inline>)
  {
    match listType
    case None =>
      listItems == [] && result == RefBlocks(cs, render) && (|cs| == 0 || !cs[|cs| - 1].Item?)
    case Some(k) =>
      var n := |listItems|;
      0 < n == TrailingRun(cs, k) && listItems == ItemBodies(cs[|cs| - n..]) && result == RefBlocks(cs[..|cs| - n], render)
  }

  /** The loop state with the waiting list flushed is the rendering. */
  lemma FlushedState(cs: seq<LineKind>, result: seq<Block>, listItems: seq<string>, listType: Option<ListKind>, render: string -> seq<Inline>)
    requires LoopState(cs, result, listItems, listType, render)
    ensures result + Pending(listType, listItems, render) == RefBlocks(cs, render)
  {
    if listType.Some? {
      assert ItemOf(cs, |cs| - 1, listType.value);
    }
  }

  /** A non-item line: the waiting list is flushed, then a blank line adds
   *  nothing and any other line adds a paragraph. */
  lemma OtherLineStep(all: seq<LineKind>, i: nat, result: seq<Block>, listItems: seq<string>, listType: Option<ListKind>, render: string -> seq<Inline>)
    requires i < |all| && !all[i].Item? && LoopState(all[..i], result, listItems, listType, render)
    ensures LoopState(all[..i + 1], result + Pending(listType, listItems, render) + (if all[i].Text? then [Paragraph(render(all[i].line))] else []), [], None, render)
  {
    var cs, c := all[..i], all[i];
    assert all[..i + 1] == cs + [c];
    FlushedState(cs, result, listItems, listType, render);
    assert (cs + [c])[..|cs|] == cs;
  }

  /** An item line of the kind being collected joins the waiting list. */
  lemma SameKindStep(all: seq<LineKind>, i: nat, result: seq<Block>, listItems: seq<string>, render: string -> seq<Inline>)
    requires i < |all| && all[i].Item? && LoopState(all[..i], result, listItems, Some(all[i].kind), render)
    ensures LoopState(all[..i + 1], result, listItems + [all[i].body], Some(all[i].kind), render)
  {
    var cs, k, body := all[..i], all[i].kind, all[i].body;
    var cs' := cs + [Item(k, body)];
    assert all[..i + 1] == cs';
    var n := |listItems|;
    assert cs'[..|cs|] == cs;
    assert TrailingRun(cs', k) == n + 1;
    var run := cs'[|cs'| - (n + 1)..];
    assert run[..n] == cs[|cs| - n..];
    assert ItemBodies(run) == ItemBodies(run[..n]) + [body];
    assert cs'[..|cs'| - (n + 1)] == cs[..|cs| - n];
  }

  /** An item line of another kind than the one being collected (or with
   *  none being collected) flushes the waiting list and starts a new one. */
  lemma NewListStep(all: seq<LineKind>, i: nat, result: seq<Block>, listItems: seq<string>, listType: Option<ListKind>, render: string -> seq<Inline>)
    requires i < |all| && all[i].Item? && LoopState(all[..i], result, listItems, listType, render) && listType != Some(all[i].kind)
    ensures LoopState(all[..i + 1], result + Pending(listType, listItems, render), [all[i].body], Some(all[i].kind), render)
  {
    var cs, k, body := all[..i], all[i].kind, all[i].body;
    var cs' := cs + [Item(k, body)];
    assert all[..i + 1] == cs';
    assert cs'[..|cs|] == cs;
    FlushedState(cs, result, listItems, listType, render);
    assert TrailingRun(cs, k) == 0;
    assert cs'[|cs'| - 1..] == [Item(k, body)];
    assert ItemBodies([Item(k, body)]) == [body];
  }

  /** The callback of `lines.forEach`: one line handled, given the state
   *  the loop is in (the result so far, the waiting items and their kind). */
  method HandleLine(ghost cs: seq<LineKind>, ghost i: nat, line: string,
                    result: seq<Block>, listItems: seq<string>, listType: Option<ListKind>)
    returns (result': seq<Block>, listItems': seq<string>, listType': Option<ListKind>)
    requires i < |cs| && cs[i] == Classify(line) && LoopState(cs[..i], result, listItems, listType, Pieces)
    ensures LoopState(cs[..i + 1], result', listItems', listType', Pieces)
  {
    var ulMatch := BulletBody(line);
    if ulMatch.Some? {
      result', listItems', listType' := HandleItem(cs, i, Bulleted, ulMatch.value, result, listItems, listType);
      return;
    }
    var olMatch := NumberedBody(line);
    if olMatch.Some? {
      result', listItems', listType' := HandleItem(cs, i, Numbered, olMatch.value, result, listItems, listType);
      return;
    }
    result', listItems', listType' := HandleOther(cs, i, line, result, listItems, listType);
  }

  /** A list line of kind `k`: a list of another kind (or none) is flushed
   *  first, then the item waits with the kind recorded. */
  method HandleItem(ghost cs: seq<LineKind>, ghost i: nat, k: ListKind, body: string,
                    result: seq<Block>, listItems: seq<string>, listType: Option<ListKind>)
    returns (result': seq<Block>, listItems': seq<string>, listType': Option<ListKind>)
    requires i < |cs| && cs[i] == Item(k, body) && LoopState(cs[..i], result, listItems, listType, Pieces)
    ensures LoopState(cs[..i + 1], result', listItems', listType', Pieces)
  {
    result', listItems', listType' := result, listItems, listType;
    if listType != Some(k) {
      NewListStep(cs, i, result, listItems, listType, Pieces);
      result', listItems', listType' := FlushList(result', listItems', listType');
    } else {
      SameKindStep(cs, i, result, listItems, Pieces);
    }
    listType' := Some(k);
    listItems' := listItems' + [body];
  }

  /** A line that is no list item: the waiting list is flushed; a blank
   *  line ends there, any other becomes a paragraph. */
  method HandleOther(ghost cs: seq<LineKind>, ghost i: nat, line: string,
                     result: seq<Block>, listItems: seq<string>, listType: Option<ListKind>)
    returns (result': seq<Block>, listItems': seq<string>, listType': Option<ListKind>)
    requires i < |cs| && BulletBody(line).None? && NumberedBody(line).None?
    requires cs[i] == (if Blank(line) then Empty else Text(line))
    requires LoopState(cs[..i], result, listItems, listType, Pieces)
    ensures LoopState(cs[..i + 1], result', listItems', listType', Pieces)
  {
    OtherLineStep(cs, i, result, listItems, listType, Pieces);
    result', listItems', listType' := FlushList(result, listItems, listType);
    if Blank(line) {
      return;
    }
    var paragraph := ParseInline(line);
    result' := result' + [Paragraph(paragraph)];
  }

  /** `parseSimpleMarkdown`: one pass over the lines, collecting list items
   *  until a line of another kind flushes them, and a last flush. */
  method ParseSimpleMarkdown(text: string) returns (result: seq<Block>)
    ensures result == Rendered(text)
  {
    var lines := Lines(text);
    var listItems, listType;
    result, listItems, listType := ScanLines(lines);
    FlushedState(ClassifyAll(lines), result, listItems, listType, Pieces);
    result, listItems, listType := FlushList(result, listItems, listType);
  }

  /** The line loop of `parseSimpleMarkdown`, up to the final flush. */
  method ScanLines(lines: seq<string>) returns (result: seq<Block>, listItems: seq<string>, listType: Option<ListKind>)
    ensures LoopState(ClassifyAll(lines), result, listItems, listType, Pieces)
  {
    ghost var cs := ClassifyAll(lines);
    result := [];
    listItems := [];
    listType := None;
    for i := 0 to |lines|
      invariant LoopState(cs[..i], result, listItems, listType, Pieces)
    {
      result, listItems, listType := HandleLine(cs, i, lines[i], result, listItems, listType);
    }
    assert cs[..|lines|] == cs;
  }
}
