/** The Markdown renderer of the chat front end: `escapeHtml` and the
    single forward scan of `renderMarkdown` over the lines of a message. */
module Markdown {
  import opened Text
  import opened Seqs

  // ---------------------------------------------------------------------
  // escapeHtml
  // ---------------------------------------------------------------------

  /** `s.replace(/c/g, rep)` for a one-character pattern. */
  function ReplaceAll(s: string, c: char, rep: string): string
    decreases |s|
  {
    if s == [] then []
    else (if s[0] == c then rep else [s[0]]) + ReplaceAll(s[1..], c, rep)
  }

  /** `escapeHtml` as written: replace every `&`, then every `<`, then every `>`. */
  function EscapeHtml(s: string): string {
    ReplaceAll(ReplaceAll(ReplaceAll(s, '&', "&amp;"), '<', "&lt;"), '>', "&gt;")
  }

  /** The entity a single character turns into. */
  function EscapeChar(c: char): string {
    if c == '&' then "&amp;"
    else if c == '<' then "&lt;"
    else if c == '>' then "&gt;"
    else [c]
  }

  /** Escaping read one character at a time: the reference meaning of `escapeHtml`. */
  function EscapeEach(s: string): string
    decreases |s|
  {
    if s == [] then [] else EscapeChar(s[0]) + EscapeEach(s[1..])
  }

  /** Reading the entities back: the inverse of `EscapeEach`. */
  function UnescapeHtml(s: string): string
    decreases |s|
  {
    if |s| >= 5 && s[..5] == "&amp;" then "&" + UnescapeHtml(s[5..])
    else if |s| >= 4 && s[..4] == "&lt;" then "<" + UnescapeHtml(s[4..])
    else if |s| >= 4 && s[..4] == "&gt;" then ">" + UnescapeHtml(s[4..])
    else if s == [] then []
    else [s[0]] + UnescapeHtml(s[1..])
  }

  lemma {:induction false} ReplaceAllAppend(a: string, b: string, c: char, rep: string)
    ensures ReplaceAll(a + b, c, rep) == ReplaceAll(a, c, rep) + ReplaceAll(b, c, rep)
    decreases |a|
  {
    if a == [] {
      assert a + b == b;
    } else {
      assert (a + b)[0] == a[0];
      assert (a + b)[1..] == a[1..] + b;
      ReplaceAllAppend(a[1..], b, c, rep);
    }
  }

  lemma {:induction false} EscapeHtmlAppend(a: string, b: string)
    ensures EscapeHtml(a + b) == EscapeHtml(a) + EscapeHtml(b)
  {
    ReplaceAllAppend(a, b, '&', "&amp;");
    ReplaceAllAppend(ReplaceAll(a, '&', "&amp;"), ReplaceAll(b, '&', "&amp;"), '<', "&lt;");
    ReplaceAllAppend(ReplaceAll(ReplaceAll(a, '&', "&amp;"), '<', "&lt;"),
                     ReplaceAll(ReplaceAll(b, '&', "&amp;"), '<', "&lt;"), '>', "&gt;");
  }

  lemma ReplaceAllOne(c: char, d: char, rep: string)
    ensures ReplaceAll([c], d, rep) == if c == d then rep else [c]
  {
    assert [c][1..] == [];
  }

  lemma {:induction false} ReplaceAllAbsent(s: string, d: char, rep: string)
    requires d !in s
    ensures ReplaceAll(s, d, rep) == s
    decreases |s|
  {
    if s != [] {
      ReplaceAllAbsent(s[1..], d, rep);
      assert s == [s[0]] + s[1..];
    }
  }

  lemma EscapeHtmlChar(c: char)
    ensures EscapeHtml([c]) == EscapeChar(c)
  {
    ReplaceAllOne(c, '&', "&amp;");
    var a := ReplaceAll([c], '&', "&amp;");
    if c == '&' {
      assert a == "&amp;";
      ReplaceAllAbsent(a, '<', "&lt;");
      ReplaceAllAbsent(a, '>', "&gt;");
      assert EscapeHtml([c]) == ReplaceAll(ReplaceAll(a, '<', "&lt;"), '>', "&gt;") == "&amp;";
    } else {
      assert a == [c];
      ReplaceAllOne(c, '<', "&lt;");
      var b := ReplaceAll(a, '<', "&lt;");
      if c == '<' {
        assert b == "&lt;";
        ReplaceAllAbsent(b, '>', "&gt;");
        assert EscapeHtml([c]) == ReplaceAll(b, '>', "&gt;") == "&lt;";
      } else {
        assert b == [c];
        ReplaceAllOne(c, '>', "&gt;");
        assert EscapeHtml([c]) == ReplaceAll(b, '>', "&gt;");
      }
    }
  }

  /** The three passes of `escapeHtml` amount to replacing each character
      by its entity: a `&` produced for `<` or `>` is never escaped again. */
  lemma {:induction false} EscapeHtmlPerChar(s: string)
    ensures EscapeHtml(s) == EscapeEach(s)
    decreases |s|
  {
    if s == [] {
    } else {
      assert s == [s[0]] + s[1..];
      EscapeHtmlAppend([s[0]], s[1..]);
      EscapeHtmlChar(s[0]);
      EscapeHtmlPerChar(s[1..]);
    }
  }

  lemma {:induction false} EscapeEachSafe(s: string)
    ensures '<' !in EscapeEach(s) && '>' !in EscapeEach(s)
    decreases |s|
  {
    if s != [] {
      EscapeEachSafe(s[1..]);
    }
  }

  /** The output of `escapeHtml` contains no `<` and no `>`. */
  lemma EscapeHtmlSafe(s: string)
    ensures '<' !in EscapeHtml(s) && '>' !in EscapeHtml(s)
  {
    EscapeHtmlPerChar(s);
    EscapeEachSafe(s);
  }

  lemma UnescapeEscapedChar(c: char, rest: string)
    ensures UnescapeHtml(EscapeChar(c) + rest) == [c] + UnescapeHtml(rest)
  {
    var x := EscapeChar(c) + rest;
    if c == '&' {
      assert x[..5] == "&amp;" && x[5..] == rest;
    } else if c == '<' {
      assert x[..4] == "&lt;" && x[4..] == rest;
      assert |x| >= 5 ==> x[..5][1] == 'l';
    } else if c == '>' {
      assert x[..4] == "&gt;" && x[4..] == rest;
      assert (|x| >= 5 ==> x[..5][1] == 'g') && x[..4][1] == 'g';
    } else {
      assert x[0] == c && x[1..] == rest;
      assert |x| >= 5 ==> x[..5][0] == c;
      assert |x| >= 4 ==> x[..4][0] == c;
    }
  }


  /** Reading the entities back recovers the original text. */
  lemma {:induction false} EscapeHtmlRoundTrip(s: string)
    ensures UnescapeHtml(EscapeHtml(s)) == s
    decreases |s|
  {
    EscapeHtmlPerChar(s);
    if s != [] {
      UnescapeEscapedChar(s[0], EscapeEach(s[1..]));
      EscapeHtmlRoundTrip(s[1..]);
      EscapeHtmlPerChar(s[1..]);
    }
  }

  /** Text with no `&`, `<` or `>` passes through `escapeHtml` unchanged. */
  lemma {:induction false} EscapeHtmlPlain(s: string)
    requires forall i :: 0 <= i < |s| ==> s[i] != '&' && s[i] != '<' && s[i] != '>'
    ensures EscapeHtml(s) == s
    decreases |s|
  {
    EscapeHtmlPerChar(s);
    if s != [] {
      EscapeHtmlPlain(s[1..]);
      EscapeHtmlPerChar(s[1..]);
      assert s == [s[0]] + s[1..];
    }
  }

  // ---------------------------------------------------------------------
  // applyInline
  // ---------------------------------------------------------------------

  /** The regular-expression passes of `applyInline` after its first
      unescaping pass (bold, italic, inline code, links), kept abstract. */
  type InlinePasses = string -> string

  /** `out.replace(/\\([*_`])/g, '$1')`: a backslash before `*`, `_` or a
      backquote is dropped, scanning left to right without overlap. */
  function UnescapeMarkers(s: string): string
    decreases |s|
  {
    if |s| >= 2 && s[0] == '\\' && (s[1] == '*' || s[1] == '_' || s[1] == '`') then
      [s[1]] + UnescapeMarkers(s[2..])
    else if s == [] then []
    else [s[0]] + UnescapeMarkers(s[1..])
  }

  /** `applyInline`: escape first, then unescape the Markdown markers, then
      the formatting passes. */
  function ApplyInline(s: string, passes: InlinePasses): string {
    passes(UnescapeMarkers(EscapeHtml(s)))
  }

  lemma {:induction false} UnescapeMarkersChars(s: string)
    ensures forall c :: c in UnescapeMarkers(s) ==> c in s
    decreases |s|
  {
    if |s| >= 2 && s[0] == '\\' && (s[1] == '*' || s[1] == '_' || s[1] == '`') {
      UnescapeMarkersChars(s[2..]);
    } else if s != [] {
      UnescapeMarkersChars(s[1..]);
    }
  }

  /** What the formatting passes of `applyInline` receive holds no `<` or
      `>` of the input: every angle bracket was escaped first. */
  lemma InlineInputSafe(s: string)
    ensures '<' !in UnescapeMarkers(EscapeHtml(s)) && '>' !in UnescapeMarkers(EscapeHtml(s))
  {
    EscapeHtmlSafe(s);
    UnescapeMarkersChars(EscapeHtml(s));
  }

  // ---------------------------------------------------------------------
  // The line tests
  // ---------------------------------------------------------------------

  /** `/^```/`: a code-fence marker. */
  predicate IsFence(raw: string) {
    |raw| >= 3 && raw[..3] == "```"
  }

  predicate IsRuleChar(c: char) {
    c == '-' || c == '*' || c == '_'
  }

  /** `/^\s*([-*_]){3,}\s*$/`: a horizontal rule. */
  predicate IsRule(raw: string) {
    var t := Trim(raw);
    |t| >= 3 && forall i :: 0 <= i < |t| ==> IsRuleChar(t[i])
  }

  /** A split of `raw` that the rule pattern accepts: whitespace before `i`,
      at least three rule characters from `i` to `j`, whitespace after. */
  ghost predicate RuleShape(raw: string, i: int, j: int) {
    && 0 <= i <= j <= |raw| && j - i >= 3
    && AllSpace(raw[..i])
    && (forall k :: i <= k < j ==> IsRuleChar(raw[k]))
    && AllSpace(raw[j..])
  }

  lemma RuleShapeOfRule(raw: string)
    requires IsRule(raw)
    ensures RuleShape(raw, LeadingSpace(raw), LeadingSpace(raw) + |Trim(raw)|)
  {
    TrimSpec(raw);
    var i := LeadingSpace(raw);
    var t := Trim(raw);
    forall k | i <= k < i + |t| ensures IsRuleChar(raw[k]) {
      assert raw[k] == raw[i..i + |t|][k - i] == t[k - i];
    }
  }

  lemma RuleOfRuleShape(raw: string, i: int, j: int)
    requires RuleShape(raw, i, j)
    ensures IsRule(raw)
  {
    assert IsRuleChar(raw[i]) && IsRuleChar(raw[j - 1]);
    LeadingSpaceUnique(raw, i);
    var u := raw[i..];
    RuleSuffix(raw, i, j);
    TrailingSpaceUnique(u, j - i);
    var t := Trim(raw);
    assert t == u[..j - i];
    forall k | 0 <= k < |t| ensures IsRuleChar(t[k]) {
      assert t[k] == raw[i + k];
    }
  }

  lemma RuleSuffix(raw: string, i: int, j: int)
    requires RuleShape(raw, i, j)
    ensures AllSpace(raw[i..][j - i..]) && !IsSpace(raw[i..][j - i - 1])
  {
    assert raw[i..][j - i..] == raw[j..];
    assert raw[i..][j - i - 1] == raw[j - 1];
  }

  /** The rule test accepts exactly the lines that the pattern matches. */
  lemma IsRuleMeaning(raw: string)
    ensures IsRule(raw) <==> exists i, j :: RuleShape(raw, i, j)
  {
    if IsRule(raw) {
      RuleShapeOfRule(raw);
    }
    if exists i, j :: RuleShape(raw, i, j) {
      var i, j :| RuleShape(raw, i, j);
      RuleOfRuleShape(raw, i, j);
    }
  }

  /** Length of the run of `#` that starts `s`. */
  function LeadingHashes(s: string): (n: nat)
    ensures n <= |s|
    ensures forall k :: 0 <= k < n ==> s[k] == '#'
    ensures n < |s| ==> s[n] != '#'
  {
    if s == [] || s[0] != '#' then 0 else 1 + LeadingHashes(s[1..])
  }

  datatype Heading = Heading(level: nat, text: string)

  /** `raw.match(/^(#{1,6})\s+(.*)$/)`: the level and the text of a heading. */
  function HeadingMatch(raw: string): (r: Option<Heading>)
    ensures r.Some? ==> 1 <= r.value.level <= 6
  {
    var k := LeadingHashes(raw);
    if 1 <= k <= 6 && k < |raw| && IsSpace(raw[k]) then
      var rest := raw[k..];
      var text := rest[LeadingSpace(rest)..];
      if NoLineTerminator(text) then Some(Heading(k, text)) else None
    else None
  }

  /** A split of `raw` that the heading pattern accepts: `k` hashes, whitespace
      from `k` to `j`, and a rest without line terminators. */
  ghost predicate HeadingShape(raw: string, k: int, j: int) {
    && 1 <= k <= 6 && k < j <= |raw|
    && (forall i :: 0 <= i < k ==> raw[i] == '#')
    && (forall i :: k <= i < j ==> IsSpace(raw[i]))
    && NoLineTerminator(raw[j..])
  }

  lemma HeadingShapeOfMatch(raw: string)
    requires HeadingMatch(raw).Some?
    ensures var h := HeadingMatch(raw).value;
      raw[|raw| - |h.text|..] == h.text && HeadingShape(raw, h.level, |raw| - |h.text|)
  {
    var n := LeadingHashes(raw);
    var rest := raw[n..];
    var m := LeadingSpace(rest);
    assert rest[m..] == raw[n + m..];
    assert forall i :: n <= i < n + m ==> raw[i] == rest[..m][i - n];
  }

  lemma MatchOfHeadingShape(raw: string, k: int, j: int)
    requires HeadingShape(raw, k, j)
    ensures HeadingMatch(raw).Some?
    ensures HeadingMatch(raw).value.level == k
    ensures j <= |raw| - |HeadingMatch(raw).value.text|
  {
    var n := LeadingHashes(raw);
    assert raw[k] != '#';
    assert forall i :: 0 <= i < k ==> raw[i] == '#';
    assert n == k;
    var rest := raw[k..];
    var m := LeadingSpace(rest);
    assert forall i :: 0 <= i < j - k ==> rest[i] == raw[k + i];
    assert j - k <= m;
    assert rest[j - k..] == raw[j..];
    SuffixNoLineTerminator(rest, j - k, m);
  }

  /** The heading test succeeds exactly when the pattern matches; its level is
      the only possible number of hashes, and its text is what follows the
      longest run of whitespace, as the greedy `\s+` leaves it. */
  lemma HeadingMatchMeaning(raw: string)
    ensures HeadingMatch(raw).Some? <==> exists k, j :: HeadingShape(raw, k, j)
    ensures HeadingMatch(raw).Some? ==>
      var h := HeadingMatch(raw).value;
      && raw[|raw| - |h.text|..] == h.text
      && HeadingShape(raw, h.level, |raw| - |h.text|)
      && forall k, j :: HeadingShape(raw, k, j) ==> k == h.level && j <= |raw| - |h.text|
  {
    if exists k, j :: HeadingShape(raw, k, j) {
      var k, j :| HeadingShape(raw, k, j);
      MatchOfHeadingShape(raw, k, j);
    }
    if HeadingMatch(raw).Some? {
      HeadingShapeOfMatch(raw);
      forall k, j | HeadingShape(raw, k, j)
        ensures k == HeadingMatch(raw).value.level
        ensures j <= |raw| - |HeadingMatch(raw).value.text|
      {
        MatchOfHeadingShape(raw, k, j);
      }
    }
  }

  lemma SuffixNoLineTerminator(s: string, a: nat, b: nat)
    requires a <= b <= |s| && NoLineTerminator(s[a..])
    ensures NoLineTerminator(s[b..])
  {
    assert forall i :: 0 <= i < |s| - b ==> s[b..][i] == s[a..][i + b - a];
  }

  /** `raw.match(/^\s*>\s?(.*)$/)`: the text of a quote line. */
  function QuoteMatch(raw: string): Option<string> {
    var n := LeadingSpace(raw);
    if n < |raw| && raw[n] == '>' then
      var a := raw[n + 1..];
      var body := if a != [] && IsSpace(a[0]) then a[1..] else a;
      if NoLineTerminator(body) then Some(body) else None
    else None
  }

  /** A split of `raw` that the quote pattern accepts: whitespace before the
      `>` at `i`, at most one whitespace character, and the rest from `j`. */
  ghost predicate QuoteShape(raw: string, i: int, j: int) {
    && 0 <= i < |raw| && i + 1 <= j <= i + 2 && j <= |raw|
    && AllSpace(raw[..i]) && raw[i] == '>'
    && (j == i + 2 ==> IsSpace(raw[i + 1]))
    && NoLineTerminator(raw[j..])
  }

  lemma QuoteShapeOfMatch(raw: string)
    requires QuoteMatch(raw).Some?
    ensures var body := QuoteMatch(raw).value;
      raw[|raw| - |body|..] == body && QuoteShape(raw, LeadingSpace(raw), |raw| - |body|)
  {
    var n := LeadingSpace(raw);
    var a := raw[n + 1..];
    if a != [] && IsSpace(a[0]) {
      assert a[1..] == raw[n + 2..];
    }
  }

  lemma MatchOfQuoteShape(raw: string, i: int, j: int)
    requires QuoteShape(raw, i, j)
    ensures QuoteMatch(raw).Some?
    ensures j <= |raw| - |QuoteMatch(raw).value|
  {
    LeadingSpaceUnique(raw, i);
    var a := raw[i + 1..];
    if a != [] && IsSpace(a[0]) {
      assert a[1..] == raw[i + 2..];
      SuffixNoLineTerminator(raw, j, i + 2);
    } else {
      assert j == i + 1;
    }
  }

  /** The quote test succeeds exactly when the pattern matches, and its text
      is the rest after the optional whitespace, taken whenever possible. */
  lemma QuoteMatchMeaning(raw: string)
    ensures QuoteMatch(raw).Some? <==> exists i, j :: QuoteShape(raw, i, j)
    ensures QuoteMatch(raw).Some? ==>
      var body := QuoteMatch(raw).value;
      && raw[|raw| - |body|..] == body
      && QuoteShape(raw, LeadingSpace(raw), |raw| - |body|)
      && forall i, j :: QuoteShape(raw, i, j) ==> j <= |raw| - |body|
  {
    if exists i, j :: QuoteShape(raw, i, j) {
      var i, j :| QuoteShape(raw, i, j);
      MatchOfQuoteShape(raw, i, j);
    }
    if QuoteMatch(raw).Some? {
      QuoteShapeOfMatch(raw);
      forall i, j | QuoteShape(raw, i, j) ensures j <= |raw| - |QuoteMatch(raw).value| {
        MatchOfQuoteShape(raw, i, j);
      }
    }
  }

  /** `raw.match(/^\s*[-*]\s+(.*)$/)`: the text of a list item. */
  function ItemMatch(raw: string): Option<string> {
    var n := LeadingSpace(raw);
    if n + 1 < |raw| && (raw[n] == '-' || raw[n] == '*') && IsSpace(raw[n + 1]) then
      var rest := raw[n + 1..];
      var body := rest[LeadingSpace(rest)..];
      if NoLineTerminator(body) then Some(body) else None
    else None
  }

  /** A split of `raw` that the list-item pattern accepts: whitespace before
      the marker at `i`, whitespace from `i + 1` to `j`, the rest from `j`. */
  ghost predicate ItemShape(raw: string, i: int, j: int) {
    && 0 <= i && i + 1 < j <= |raw|
    && AllSpace(raw[..i]) && (raw[i] == '-' || raw[i] == '*')
    && (forall k :: i < k < j ==> IsSpace(raw[k]))
    && NoLineTerminator(raw[j..])
  }

  lemma ItemShapeOfMatch(raw: string)
    requires ItemMatch(raw).Some?
    ensures var body := ItemMatch(raw).value;
      raw[|raw| - |body|..] == body && ItemShape(raw, LeadingSpace(raw), |raw| - |body|)
  {
    var n := LeadingSpace(raw);
    var rest := raw[n + 1..];
    var m := LeadingSpace(rest);
    DropDrop(raw, n + 1, m);
    PrefixSpaces(rest, m);
    forall k | n < k < n + 1 + m ensures IsSpace(raw[k]) {
      assert raw[k] == rest[k - n - 1];
    }
  }

  lemma MatchOfItemShape(raw: string, i: int, j: int)
    requires ItemShape(raw, i, j)
    ensures ItemMatch(raw).Some?
    ensures j <= |raw| - |ItemMatch(raw).value|
  {
    LeadingSpaceUnique(raw, i);
    var rest := raw[i + 1..];
    var m := LeadingSpace(rest);
    assert forall k :: 0 <= k < j - i - 1 ==> rest[k] == raw[i + 1 + k];
    assert j - i - 1 <= m;
    assert rest[j - i - 1..] == raw[j..];
    SuffixNoLineTerminator(rest, j - i - 1, m);
  }

  /** The list-item test succeeds exactly when the pattern matches, and its
      text is what follows the longest run of whitespace after the marker. */
  lemma ItemMatchMeaning(raw: string)
    ensures ItemMatch(raw).Some? <==> exists i, j :: ItemShape(raw, i, j)
    ensures ItemMatch(raw).Some? ==>
      var body := ItemMatch(raw).value;
      && raw[|raw| - |body|..] == body
      && ItemShape(raw, LeadingSpace(raw), |raw| - |body|)
      && forall i, j :: ItemShape(raw, i, j) ==> j <= |raw| - |body|
  {
    if exists i, j :: ItemShape(raw, i, j) {
      var i, j :| ItemShape(raw, i, j);
      MatchOfItemShape(raw, i, j);
    }
    if ItemMatch(raw).Some? {
      ItemShapeOfMatch(raw);
      forall i, j | ItemShape(raw, i, j) ensures j <= |raw| - |ItemMatch(raw).value| {
        MatchOfItemShape(raw, i, j);
      }
    }
  }

  // ---------------------------------------------------------------------
  // The scan: state, blocks and one step per line
  // ---------------------------------------------------------------------

  /** The variables of `renderMarkdown`: the output so far and, for each
      kind of open block, its flag and its buffered lines. */
  datatype Scan = Scan(
    html: string,
    inCode: bool, codeBuffer: seq<string>,
    inList: bool, listBuffer: seq<string>,
    inQuote: bool, quoteBuffer: seq<string>)

  const Start := Scan("", false, [], false, [], false, [])

  /** At most one block is open, and a closed block has an empty buffer. */
  predicate WellFormed(s: Scan) {
    && (s.inCode ==> !s.inList && !s.inQuote)
    && (s.inList ==> !s.inQuote)
    && (!s.inCode ==> s.codeBuffer == [])
    && (!s.inList ==> s.listBuffer == [])
    && (!s.inQuote ==> s.quoteBuffer == [])
  }

  /** No block is open and nothing is buffered. */
  predicate AllClosed(s: Scan) {
    && !s.inCode && !s.inList && !s.inQuote
    && s.codeBuffer == [] && s.listBuffer == [] && s.quoteBuffer == []
  }

  /** What `flushCode` appends: the escaped lines joined by newlines; no
      inline formatting. */
  function CodeBlock(lines: seq<string>): string {
    "<pre><code>" + EscapeHtml(Join(lines, "\n")) + "</code></pre>"
  }

  function ListItems(items: seq<string>): string
    decreases |items|
  {
    if items == [] then "" else "<li>" + items[0] + "</li>" + ListItems(items[1..])
  }

  /** What `flushList` appends. */
  function ListBlock(items: seq<string>): string {
    "<ul>" + ListItems(items) + "</ul>"
  }

  /** What `flushQuote` appends. */
  function QuoteBlock(lines: seq<string>): string {
    "<blockquote>" + Join(lines, "<br>") + "</blockquote>"
  }

  /** `flushCode` on the scan state. */
  function CloseCode(s: Scan): Scan {
    if s.inCode then s.(html := s.html + CodeBlock(s.codeBuffer), inCode := false, codeBuffer := [])
    else s
  }

  /** `flushList` on the scan state. */
  function CloseList(s: Scan): Scan {
    if s.inList then s.(html := s.html + ListBlock(s.listBuffer), inList := false, listBuffer := [])
    else s
  }

  /** `flushQuote` on the scan state. */
  function CloseQuote(s: Scan): Scan {
    if s.inQuote then s.(html := s.html + QuoteBlock(s.quoteBuffer), inQuote := false, quoteBuffer := [])
    else s
  }

  /** The final flush after the last line: code, then list, then quote. */
  function Finish(s: Scan): Scan {
    CloseQuote(CloseList(CloseCode(s)))
  }

  /** The decimal digit of a heading level. */
  function LevelDigit(k: nat): string
    requires 1 <= k <= 6
  {
    [('0' as int + k) as char]
  }

  function HeadingHtml(h: Heading, passes: InlinePasses): string
    requires 1 <= h.level <= 6
  {
    "<h" + LevelDigit(h.level) + ">" + ApplyInline(h.text, passes) + "</h" + LevelDigit(h.level) + ">"
  }

  /** What the tests of the line loop make of a line, in the order they
      are tried; `BlankLine` and `TextLine` are the lines none of them takes. */
  datatype LineKind =
    | FenceLine
    | RuleLine
    | HeadingLine(heading: Heading)
    | QuoteLine(quote: string)
    | ItemLine(item: string)
    | BlankLine
    | TextLine

  function Classify(raw: string): (k: LineKind)
    ensures k.FenceLine? <==> IsFence(raw)
    ensures k.HeadingLine? ==> 1 <= k.heading.level <= 6
    ensures k.BlankLine? ==> AllSpace(raw)
  {
    if IsFence(raw) then FenceLine
    else if IsRule(raw) then RuleLine
    else if HeadingMatch(raw).Some? then HeadingLine(HeadingMatch(raw).value)
    else if QuoteMatch(raw).Some? then QuoteLine(QuoteMatch(raw).value)
    else if ItemMatch(raw).Some? then ItemLine(ItemMatch(raw).value)
    else if AllSpace(raw) then BlankLine
    else TextLine
  }

  /** `html += x`. */
  function Emit(s: Scan, x: string): Scan {
    s.(html := s.html + x)
  }

  /** A fence marker: close the code block, or close list and quote and open one. */
  function FenceStep(s: Scan): Scan {
    if s.inCode then CloseCode(s) else CloseQuote(CloseList(s)).(inCode := true)
  }

  /** A quote line: open the quote if needed and buffer its formatted text. */
  function QuoteStep(s: Scan, text: string): Scan {
    var t := if !s.inQuote then s.(inQuote := true, quoteBuffer := []) else s;
    t.(quoteBuffer := t.quoteBuffer + [text])
  }

  /** A list item: open the list if needed and buffer its formatted text. */
  function ItemStep(s: Scan, text: string): Scan {
    var t := if !s.inList then s.(inList := true, listBuffer := []) else s;
    t.(listBuffer := t.listBuffer + [text])
  }

  /** One iteration of the line loop, given what the tests made of the line. */
  function Step(s: Scan, k: LineKind, raw: string, passes: InlinePasses): Scan
    requires k.HeadingLine? ==> 1 <= k.heading.level <= 6
  {
    if k.FenceLine? then FenceStep(s)
    else if s.inCode then s.(codeBuffer := s.codeBuffer + [raw])
    else match k
      case RuleLine => Emit(CloseQuote(CloseList(s)), "<hr>")
      case HeadingLine(h) => Emit(CloseQuote(CloseList(s)), HeadingHtml(h, passes))
      case QuoteLine(q) => QuoteStep(CloseList(s), ApplyInline(q, passes))
      case ItemLine(it) => ItemStep(CloseQuote(CloseQuote(s)), ApplyInline(it, passes))
      case BlankLine => CloseList(CloseQuote(s))
      case TextLine => Emit(CloseList(CloseQuote(s)), "<p>" + ApplyInline(raw, passes) + "</p>")
  }

  /** One iteration of the line loop of `renderMarkdown`. */
  function ScanLine(s: Scan, raw: string, passes: InlinePasses): Scan {
    Step(s, Classify(raw), raw, passes)
  }

  /** The loop over `lines`, from state `s`. */
  function ScanLines(s: Scan, lines: seq<string>, passes: InlinePasses): Scan
    decreases |lines|
  {
    if lines == [] then s
    else ScanLine(ScanLines(s, lines[..|lines| - 1], passes), lines[|lines| - 1], passes)
  }

  /** What `renderMarkdown(md)` returns. */
  function Render(md: string, passes: InlinePasses): string {
    if md == "" then "" else Finish(ScanLines(Start, Split(md, '\n'), passes)).html
  }

  // ---------------------------------------------------------------------
  // Properties of the scan
  // ---------------------------------------------------------------------

  lemma StepWellFormed(s: Scan, k: LineKind, raw: string, passes: InlinePasses)
    requires WellFormed(s)
    requires k.HeadingLine? ==> 1 <= k.heading.level <= 6
    ensures WellFormed(Step(s, k, raw, passes))
  {
  }

  /** Each line keeps at most one block open. */
  lemma ScanLineWellFormed(s: Scan, raw: string, passes: InlinePasses)
    requires WellFormed(s)
    ensures WellFormed(ScanLine(s, raw, passes))
  {
    StepWellFormed(s, Classify(raw), raw, passes);
  }

  /** At the head of every iteration at most one block is open. */
  lemma {:induction false} ScanLinesWellFormed(s: Scan, lines: seq<string>, passes: InlinePasses)
    requires WellFormed(s)
    ensures WellFormed(ScanLines(s, lines, passes))
    decreases |lines|
  {
    if lines != [] {
      ScanLinesWellFormed(s, lines[..|lines| - 1], passes);
      ScanLineWellFormed(ScanLines(s, lines[..|lines| - 1], passes), lines[|lines| - 1], passes);
    }
  }

  /** After the final flush no block is open, and the flush appended the
      one block that was open, if any. */
  lemma FinishCloses(s: Scan)
    requires WellFormed(s)
    ensures AllClosed(Finish(s))
    ensures Finish(s).html == s.html +
      (if s.inCode then CodeBlock(s.codeBuffer)
       else if s.inList then ListBlock(s.listBuffer)
       else if s.inQuote then QuoteBlock(s.quoteBuffer)
       else "")
  {
  }

  /** Scanning two runs of lines is scanning the first, then the second. */
  lemma {:induction false} ScanLinesAppend(s: Scan, a: seq<string>, b: seq<string>, passes: InlinePasses)
    ensures ScanLines(s, a + b, passes) == ScanLines(ScanLines(s, a, passes), b, passes)
    decreases |b|
  {
    if b == [] {
      assert a + b == a;
    } else {
      var b' := b[..|b| - 1];
      assert (a + b)[..|a + b| - 1] == a + b';
      assert (a + b)[|a + b| - 1] == b[|b| - 1];
      ScanLinesAppend(s, a, b', passes);
    }
  }

  /** Inside a code block every non-fence line goes into the buffer
      verbatim: no escaping, no inline formatting, no output yet. */
  lemma {:induction false} CodeLinesBuffered(s: Scan, lines: seq<string>, passes: InlinePasses)
    requires s.inCode
    requires forall k :: 0 <= k < |lines| ==> !IsFence(lines[k])
    ensures ScanLines(s, lines, passes) == s.(codeBuffer := s.codeBuffer + lines)
    decreases |lines|
  {
    if lines != [] {
      var init := lines[..|lines| - 1];
      var raw := lines[|lines| - 1];
      var t := s.(codeBuffer := s.codeBuffer + init);
      assert forall k :: 0 <= k < |init| ==> init[k] == lines[k];
      CodeLinesBuffered(s, init, passes);
      assert ScanLines(s, lines, passes) == ScanLine(t, raw, passes);
      CodeLineBuffered(t, raw, passes);
      FrontLast(lines);
      AppendSnoc(s.codeBuffer, init, raw);
    }
  }

  /** Inside a code block a non-fence line goes into the buffer verbatim. */
  lemma CodeLineBuffered(s: Scan, raw: string, passes: InlinePasses)
    requires s.inCode && !IsFence(raw)
    ensures ScanLine(s, raw, passes) == s.(codeBuffer := s.codeBuffer + [raw])
  {
    assert !Classify(raw).FenceLine?;
  }

  /** A fence that is never closed still emits its lines: the final flush
      appends one `<pre><code>` block holding the escaped lines after the
      fence, joined by newlines. */
  lemma UnterminatedFence(pre: seq<string>, fence: string, post: seq<string>, passes: InlinePasses)
    requires IsFence(fence)
    requires !ScanLines(Start, pre, passes).inCode
    requires WellFormed(ScanLines(Start, pre, passes))
    requires forall k :: 0 <= k < |post| ==> !IsFence(post[k])
    ensures Finish(ScanLines(Start, pre + [fence] + post, passes)).html
         == Finish(ScanLines(Start, pre, passes)).html + CodeBlock(post)
  {
    var s := ScanLines(Start, pre, passes);
    ScanLinesAppend(Start, pre, [fence], passes);
    assert ScanLines(s, [fence], passes) == ScanLine(s, fence, passes) by {
      assert [fence][..0] == [];
    }
    var t := ScanLine(s, fence, passes);
    assert t.inCode && t.codeBuffer == [] && !t.inList && !t.inQuote;
    ScanLinesAppend(Start, pre + [fence], post, passes);
    CodeLinesBuffered(t, post, passes);
    assert t.codeBuffer + post == post;
  }

  /** The same guarantee for a whole message: text whose lines are a fence
      followed only by non-fence lines renders as one code block. */
  lemma RenderUnterminatedFence(md: string, passes: InlinePasses)
    requires md != ""
    requires IsFence(Split(md, '\n')[0])
    requires forall k :: 1 <= k < |Split(md, '\n')| ==> !IsFence(Split(md, '\n')[k])
    ensures Render(md, passes) == CodeBlock(Split(md, '\n')[1..])
  {
    var lines := Split(md, '\n');
    var post := lines[1..];
    assert lines == [] + [lines[0]] + post;
    assert ScanLines(Start, [], passes) == Start;
    UnterminatedFence([], lines[0], post, passes);
  }

  /** A fence marker emits nothing itself: it only flushes the open block
      and toggles the code flag. */
  lemma FenceLineToggles(s: Scan, raw: string, passes: InlinePasses)
    requires WellFormed(s) && IsFence(raw)
    ensures var r := ScanLine(s, raw, passes);
      && r.html == Finish(s).html
      && r.inCode == !s.inCode && r.codeBuffer == []
      && !r.inList && !r.inQuote && r.listBuffer == [] && r.quoteBuffer == []
  {
  }

  /** A heading line outside code closes the open list or quote and emits
      `<hk>…</hk>` around the formatted heading text. */
  lemma HeadingLineEmits(s: Scan, raw: string, passes: InlinePasses)
    requires WellFormed(s) && !s.inCode
    requires !IsFence(raw) && !IsRule(raw)
    requires HeadingMatch(raw).Some?
    ensures var r := ScanLine(s, raw, passes);
      var h := HeadingMatch(raw).value;
      && AllClosed(r)
      && r.html == Finish(s).html + HeadingHtml(h, passes)
  {
    var h := HeadingMatch(raw).value;
    ClassifyHeading(raw);
    FinishCloses(s);
    assert Step(s, HeadingLine(h), raw, passes) == Emit(Finish(s), HeadingHtml(h, passes));
  }

  lemma ClassifyHeading(raw: string)
    requires !IsFence(raw) && !IsRule(raw) && HeadingMatch(raw).Some?
    ensures Classify(raw) == HeadingLine(HeadingMatch(raw).value)
  {
  }

  /** A blank line outside code closes the open list or quote and emits nothing. */
  lemma BlankLineCloses(s: Scan, raw: string, passes: InlinePasses)
    requires WellFormed(s) && !s.inCode && AllSpace(raw)
    ensures ScanLine(s, raw, passes) == Finish(s)
  {
    ClassifyBlank(raw);
    assert Step(s, BlankLine, raw, passes) == Finish(s);
  }

  /** `/^\s*$/`: a line is classed blank exactly when it is all whitespace,
      since no earlier test takes such a line. */
  lemma ClassifyBlank(raw: string)
    ensures Classify(raw) == BlankLine <==> AllSpace(raw)
  {
    if !AllSpace(raw) {
      return;
    }
    assert Classify(raw) == BlankLine by {
      assert !IsFence(raw) by {
        if |raw| >= 3 { assert raw[0] == raw[..3][0]; }
      }
      TrimEmptyOfAllSpace(raw);
      assert LeadingHashes(raw) == 0 by {
        if raw != [] { assert IsSpace(raw[0]); }
      }
      assert raw[..|raw|] == raw;
      LeadingSpaceUnique(raw, |raw|);
    }
  }


  lemma HeadingMatchHi()
    ensures HeadingMatch("# Hi") == Some(Heading(1, "Hi"))
  {
    var raw := "# Hi";
    assert raw[1..] == " Hi";
    assert LeadingHashes(" Hi") == 0;
    assert LeadingHashes(raw) == 1;
    assert " Hi"[..1] == " ";
    LeadingSpaceUnique(" Hi", 1);
    assert " Hi"[1..] == "Hi";
  }

  lemma NotRuleHi()
    ensures !IsRule("# Hi")
  {
    var raw := "# Hi";
    assert !IsSpace(raw[0]);
    TrimSpec(raw);
    LeadingSpaceUnique(raw, 0);
    assert Trim(raw)[0] == raw[0];
  }

  /** The tests take `# Hi` as a level-one heading with text `Hi`. */
  lemma ClassifyHi()
    ensures Classify("# Hi") == HeadingLine(Heading(1, "Hi"))
  {
    assert !IsFence("# Hi") by {
      assert "# Hi"[..3][0] == '#';
    }
    NotRuleHi();
    HeadingMatchHi();
  }

  lemma ScanHi(passes: InlinePasses)
    ensures ScanLines(Start, Split("# Hi", '\n'), passes) == Start.(html := HeadingHtml(Heading(1, "Hi"), passes))
  {
    SplitWithoutSep("# Hi", '\n');
    assert ["# Hi"][..0] == [];
    ClassifyHi();
    assert Step(Start, HeadingLine(Heading(1, "Hi")), "# Hi", passes) == Start.(html := HeadingHtml(Heading(1, "Hi"), passes));
  }

  lemma HeadingHtmlHi(passes: InlinePasses)
    ensures HeadingHtml(Heading(1, "Hi"), passes) == "<h1>" + passes(UnescapeMarkers(EscapeHtml("Hi"))) + "</h1>"
  {
    assert LevelDigit(1) == "1";
  }

  /** The one-line message `# Hi` renders as a level-one heading. */
  lemma RenderHeadingExample(passes: InlinePasses)
    ensures Render("# Hi", passes) == "<h1>" + passes(UnescapeMarkers(EscapeHtml("Hi"))) + "</h1>"
  {
    ScanHi(passes);
    var s1 := Start.(html := HeadingHtml(Heading(1, "Hi"), passes));
    assert Finish(s1) == s1;
    HeadingHtmlHi(passes);
  }

  /** A step only appends to the output. */
  lemma StepExtends(s: Scan, k: LineKind, raw: string, passes: InlinePasses)
    requires k.HeadingLine? ==> 1 <= k.heading.level <= 6
    ensures s.html <= Step(s, k, raw, passes).html
  {
  }

  /** The output is only ever appended to. */
  lemma {:induction false} ScanLinesExtends(s: Scan, lines: seq<string>, passes: InlinePasses)
    ensures s.html <= ScanLines(s, lines, passes).html
    decreases |lines|
  {
    if lines != [] {
      var init := lines[..|lines| - 1];
      var raw := lines[|lines| - 1];
      ScanLinesExtends(s, init, passes);
      StepExtends(ScanLines(s, init, passes), Classify(raw), raw, passes);
    }
  }

  // ---------------------------------------------------------------------
  // renderMarkdown
  // ---------------------------------------------------------------------

  /** The local variables of `renderMarkdown`, which its flush closures
      update in place. */
  class Renderer {
    var html: string
    var inCode: bool
    var codeBuffer: seq<string>
    var inList: bool
    var listBuffer: seq<string>
    var inQuote: bool
    var quoteBuffer: seq<string>

    function State(): Scan
      reads this
    {
      Scan(html, inCode, codeBuffer, inList, listBuffer, inQuote, quoteBuffer)
    }

    constructor ()
      ensures State() == Start
    {
      html := "";
      inCode, codeBuffer := false, [];
      inList, listBuffer := false, [];
      inQuote, quoteBuffer := false, [];
    }

    method FlushCode()
      modifies this
      ensures State() == CloseCode(old(State()))
    {
      if inCode {
        html := html + CodeBlock(codeBuffer);
        inCode := false;
        codeBuffer := [];
      }
    }

    method FlushList()
      modifies this
      ensures State() == CloseList(old(State()))
    {
      if inList {
        html := html + ListBlock(listBuffer);
        inList := false;
        listBuffer := [];
      }
    }

    method FlushQuote()
      modifies this
      ensures State() == CloseQuote(old(State()))
    {
      if inQuote {
        html := html + QuoteBlock(quoteBuffer);
        inQuote := false;
        quoteBuffer := [];
      }
    }

    /** The body of the line loop of `renderMarkdown` for the line `raw`,
        with the outcome of its pattern tests given by `Classify`; each
        `return` is the loop's `continue`. */
    method Line(raw: string, passes: InlinePasses)
      modifies this
      ensures State() == ScanLine(old(State()), raw, passes)
    {
      var k := Classify(raw);
      LineOfKind(k, raw, passes);
    }

    /** The branches of the loop body for a line the tests classified as `k`. */
    method LineOfKind(k: LineKind, raw: string, passes: InlinePasses)
      requires k.HeadingLine? ==> 1 <= k.heading.level <= 6
      modifies this
      ensures State() == Step(old(State()), k, raw, passes)
    {
      if k.FenceLine? {
        if inCode {
          FlushCode();
        } else {
          FlushList();
          FlushQuote();
          inCode := true;
        }
        return;
      }
      if inCode {
        codeBuffer := codeBuffer + [raw];
        return;
      }
      if k.RuleLine? {
        FlushList();
        FlushQuote();
        html := html + "<hr>";
        return;
      }
      if k.HeadingLine? {
        FlushList();
        FlushQuote();
        html := html + HeadingHtml(k.heading, passes);
        return;
      }
      if k.QuoteLine? {
        FlushList();
        if !inQuote {
          inQuote := true;
          quoteBuffer := [];
        }
        quoteBuffer := quoteBuffer + [ApplyInline(k.quote, passes)];
        return;
      } else {
        FlushQuote();
      }
      if k.ItemLine? {
        FlushQuote();
        if !inList {
          inList := true;
          listBuffer := [];
        }
        listBuffer := listBuffer + [ApplyInline(k.item, passes)];
        return;
      } else {
        FlushList();
      }
      if k.BlankLine? {
        return;
      }
      html := html + ("<p>" + ApplyInline(raw, passes) + "</p>");
    }
  }

  /** `renderMarkdown(md)`, with the inline formatting passes as a parameter. */
  method RenderMarkdown(md: string, passes: InlinePasses) returns (html: string)
    ensures html == Render(md, passes)
    ensures md == "" ==> html == ""
  {
    if md == "" {
      return "";
    }
    var lines := Split(md, '\n');
    var r := new Renderer();
    for i := 0 to |lines|
      invariant r.State() == ScanLines(Start, lines[..i], passes)
      invariant WellFormed(r.State())
    {
      assert lines[..i + 1][..i] == lines[..i];
      ScanLineWellFormed(r.State(), lines[i], passes);
      r.Line(lines[i], passes);
    }
    assert lines[..|lines|] == lines;
    r.FlushCode();
    r.FlushList();
    r.FlushQuote();
    html := r.html;
  }
}
