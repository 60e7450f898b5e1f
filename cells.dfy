/** The cell-level conventions of the docket spreadsheet (services/google_requests.py):
    the HYPERLINK formulas the bot writes, the regular expressions it uses to read
    them back, the case-number normalisation of the lookup, the counter cells that
    hold the next available case number, and the test that routes a case number
    to the criminal or the civil case log.

    Every regular expression here is one whose match is unique at a given start
    position, so `re.search` is modelled as "the leftmost position at which the
    pattern matches" and the pattern itself as a function of that position. */
module Cells {
  import opened Text

  // ---------------------------------------------------------------- formulas

  /** `=HYPERLINK("url", "caption")`, as add_to_docket, edit_docket and finish_case write it. */
  function HyperlinkFormula(url: string, caption: string): string {
    "=HYPERLINK(\"" + url + "\", \"" + caption + "\")"
  }

  /** The formula of a filing link. */
  function LinkFormula(url: string): string {
    HyperlinkFormula(url, "Link")
  }

  /** The filing-link cell: the link formula for a non-empty link, else an empty cell. */
  function LinkCell(link: string): string {
    if link != [] then LinkFormula(link) else ""
  }

  /** The ending cell of the case log: the ending type, hyperlinked when a link was given. */
  function EndingCell(ending: string, link: string): string {
    if link != [] then HyperlinkFormula(link, ending) else ending
  }

  /** The six cells add_to_docket appends: judge, status, name, number, filing date, link. */
  function DocketRow(judge: string, status: string, name: string, number: string,
                     filingDate: string, filingLink: string): seq<string> {
    [judge, status, name, number, filingDate, LinkCell(filingLink)]
  }

  /** The six cells finish_case writes to a case log. */
  function LogRow(name: string, number: string, filingDate: string, filingLink: string,
                  verdictDate: string, ending: string, endingLink: string): seq<string> {
    [name, number, filingDate, LinkCell(filingLink), verdictDate, EndingCell(ending, endingLink)]
  }

  // ---------------------------------------------------------------- pattern pieces

  /** The character classes the patterns repeat. */
  datatype CharClass =
    | Space                 // \s
    | Letter                // [A-Za-z]
    | Digit                 // [0-9]
    | Except(q: char)       // [^q]
    | UrlChar(quotes: bool) // [^\s"'] with `quotes`, else \S

  predicate InClass(c: char, cls: CharClass) {
    match cls
    case Space => IsSpace(c)
    case Letter => IsAsciiLetter(c)
    case Digit => IsDigit(c)
    case Except(q) => c != q
    case UrlChar(quotes) => !UrlStop(c, quotes)
  }

  /** The characters that end a plain URL: whitespace, and with `quotes` also both quote marks. */
  predicate UrlStop(c: char, quotes: bool) {
    IsSpace(c) || (quotes && (c == '"' || c == '\''))
  }

  /** The end of the longest run of characters of class `cls` that starts at `i`. */
  function SkipWhile(s: string, i: nat, cls: CharClass): (j: nat)
    requires i <= |s|
    ensures i <= j <= |s|
    ensures j < |s| ==> !InClass(s[j], cls)
    decreases |s| - i
  {
    if i < |s| && InClass(s[i], cls) then SkipWhile(s, i + 1, cls) else i
  }

  /** Every character of the run is of the class. */
  lemma {:induction false} SkipWhileRun(s: string, i: nat, cls: CharClass)
    requires i <= |s|
    ensures forall k :: i <= k < SkipWhile(s, i, cls) ==> InClass(s[k], cls)
    decreases |s| - i
  {
    if i < |s| && InClass(s[i], cls) {
      SkipWhileRun(s, i + 1, cls);
    }
  }

  /** A run end is determined by where the run stops. */
  lemma SkipWhileAt(s: string, i: nat, j: nat, cls: CharClass)
    requires i <= j <= |s|
    requires forall k :: i <= k < j ==> InClass(s[k], cls)
    requires j < |s| ==> !InClass(s[j], cls)
    ensures SkipWhile(s, i, cls) == j
    decreases j - i
  {
    if i < j {
      SkipWhileAt(s, i + 1, j, cls);
    }
  }

  function SkipSpaces(s: string, i: nat): nat
    requires i <= |s|
  {
    SkipWhile(s, i, Space)
  }

  /** `HYPERLINK` at position `i`, in any letter case. */
  predicate KeywordAt(s: string, i: nat) {
    i + 9 <= |s| && Lower(s[i..i + 9]) == "hyperlink"
  }

  /** A quoted string of at least one character opening at `i`: the index of its closing quote. */
  function QuotedAt(s: string, i: nat, q: char): (r: Option<nat>)
    ensures r.Some? ==> i + 1 < r.value < |s| && s[i] == q && s[r.value] == q
  {
    if i < |s| && s[i] == q then
      var j := SkipWhile(s, i + 1, Except(q));
      if i + 1 < j < |s| then Some(j) else None
    else None
  }

  /** `HYPERLINK\s*\(\s*"([^"]+)"` (quote `q`, and with `spaced` false the variant
      without `\s*` before the parenthesis) matched at `i`: the captured target. */
  function TargetAt(s: string, i: nat, q: char, spaced: bool): Option<string> {
    if !KeywordAt(s, i) then None
    else
      var b := if spaced then SkipSpaces(s, i + 9) else i + 9;
      if b < |s| && s[b] == '(' then
        var c := SkipSpaces(s, b + 1);
        match QuotedAt(s, c, q)
        case Some(j) => Some(s[c + 1..j])
        case None => None
      else None
  }

  /** `HYPERLINK\(\s*"[^"]+"\s*,\s*"([^"]+)"` matched at `i`: the captured caption. */
  function LabelAt(s: string, i: nat): Option<string> {
    if !KeywordAt(s, i) || i + 9 >= |s| || s[i + 9] != '(' then None
    else
      var c := SkipSpaces(s, i + 10);
      match QuotedAt(s, c, '"')
      case None => None
      case Some(j) =>
        var e := SkipSpaces(s, j + 1);
        if e < |s| && s[e] == ',' then
          var f := SkipSpaces(s, e + 1);
          match QuotedAt(s, f, '"')
          case Some(g) => Some(s[f + 1..g])
          case None => None
        else None
  }

  /** `(https?://[^\s"']+)` (with `quotes`) or `(https?://\S+)` matched at `i`. */
  function PlainUrlAt(s: string, i: nat, quotes: bool): Option<string> {
    if i + 7 <= |s| && s[i..i + 4] == "http" then
      var k := if i + 8 <= |s| && s[i + 4..i + 8] == "s://" then i + 8
               else if s[i + 4..i + 7] == "://" then i + 7
               else i;
      if k == i then None
      else
        var j := SkipWhile(s, k, UrlChar(quotes));
        if j > k then Some(s[i..j]) else None
    else None
  }

  /** The three kinds of pattern the bot searches cells with. */
  datatype Pattern =
    | Target(quote: char, spaced: bool)   // HYPERLINK formula target
    | Caption                             // HYPERLINK formula caption
    | PlainUrl(quotes: bool)              // a bare http(s) URL

  function MatchAt(p: Pattern, s: string, i: nat): Option<string> {
    match p
    case Target(q, spaced) => TargetAt(s, i, q, spaced)
    case Caption => LabelAt(s, i)
    case PlainUrl(quotes) => PlainUrlAt(s, i, quotes)
  }

  /** The first position at or after `i` where `p` matches. */
  function FirstMatchFrom(p: Pattern, s: string, i: nat): (r: Option<nat>)
    ensures r.Some? ==> i <= r.value < |s| && MatchAt(p, s, r.value).Some?
    decreases |s| - i
  {
    if i >= |s| then None
    else if MatchAt(p, s, i).Some? then Some(i)
    else FirstMatchFrom(p, s, i + 1)
  }

  /** `re.search`: what the pattern captures at the leftmost position where it matches. */
  function Search(p: Pattern, s: string): Option<string> {
    match FirstMatchFrom(p, s, 0)
    case Some(k) => MatchAt(p, s, k)
    case None => None
  }

  /** The search finds the match at `k` when nothing matches before it. */
  lemma SearchFinds(p: Pattern, s: string, k: nat)
    requires k < |s| && MatchAt(p, s, k).Some?
    requires forall j :: 0 <= j < k ==> MatchAt(p, s, j).None?
    ensures Search(p, s) == MatchAt(p, s, k)
  {
    FirstMatchFromAt(p, s, 0, k);
  }

  /** The first match at or after `i` is at `k` when nothing matches between them. */
  lemma {:induction false} FirstMatchFromAt(p: Pattern, s: string, i: nat, k: nat)
    requires i <= k < |s| && MatchAt(p, s, k).Some?
    requires forall j :: i <= j < k ==> MatchAt(p, s, j).None?
    ensures FirstMatchFrom(p, s, i) == Some(k)
    decreases k - i
  {
    if i < k {
      FirstMatchFromAt(p, s, i + 1, k);
    }
  }

  predicate IsHttp(u: string) {
    StartsWith(u, "http://") || StartsWith(u, "https://")
  }

  // ---------------------------------------------------------------- reading links back

  /** The stripped target of the first HYPERLINK formula quoted with `q`, if it is an http(s) URL. */
  function FormulaUrl(c: string, q: char): (r: Option<string>)
    ensures r.Some? ==> IsHttp(r.value)
  {
    match Search(Target(q, true), c)
    case Some(u) => if IsHttp(Strip(u)) then Some(Strip(u)) else None
    case None => None
  }

  /** The first plain URL, without trailing quotes and parentheses. */
  function BareUrl(c: string): (r: Option<string>)
    ensures r.Some? ==> IsHttp(r.value)
  {
    match Search(PlainUrl(true), c)
    case Some(u) =>
      var v := RStripChars(u, {'"', '\'', ')'});
      if IsHttp(v) then Some(v) else None
    case None => None
  }

  function OrElse<T>(a: Option<T>, b: Option<T>): Option<T> {
    if a.Some? then a else b
  }

  /** `_extract_url` of get_case_info_from_number: the target of a double- or then
      single-quoted HYPERLINK formula when it is an http(s) URL, else the first plain URL. */
  function ExtractUrl(cell: string): (r: Option<string>)
    ensures r.Some? ==> IsHttp(r.value)
    ensures Strip(cell) == [] ==> r.None?
  {
    var c := Strip(cell);
    if c == [] then None
    else OrElse(FormulaUrl(c, '"'), OrElse(FormulaUrl(c, '\''), BareUrl(c)))
  }

  /** The filing link get_all_cases reports: the target of the first HYPERLINK formula
      (neither stripped nor checked), else the first run of non-space characters
      starting with http(s)://, without trailing quotes and parentheses. */
  function ListedLink(cell: string): Option<string> {
    match Search(Target('"', false), cell)
    case Some(u) => Some(u)
    case None =>
      match Search(PlainUrl(false), cell)
      case Some(u) => Some(RStripChars(u, {'"', ')'}))
      case None => None
  }

  /** The visible text the lookup compares: the caption of a HYPERLINK formula, else the cell. */
  function VisibleText(cell: string): string {
    match Search(Caption, cell)
    case Some(caption) => caption
    case None => cell
  }

  /** Where the parts of `HyperlinkFormula(url, caption)` sit. */
  lemma FormulaLayout(url: string, caption: string)
    ensures var s := HyperlinkFormula(url, caption);
      && |s| == 18 + |url| + |caption|
      && s[0] == '=' && s[1..10] == "HYPERLINK" && s[10] == '(' && s[11] == '"'
      && s[12..12 + |url|] == url && s[12 + |url|] == '"' && s[13 + |url|] == ','
      && s[14 + |url|] == ' ' && s[15 + |url|] == '"'
      && s[16 + |url|..16 + |url| + |caption|] == caption
      && s[16 + |url| + |caption|] == '"' && s[|s| - 1] == ')'
  {
    FormulaHead(url, caption);
    FormulaMiddle(url, caption);
    FormulaTail(url, caption);
  }

  lemma FormulaHead(url: string, caption: string)
    ensures var s := HyperlinkFormula(url, caption);
      && |s| == 18 + |url| + |caption|
      && s[0] == '=' && s[1..10] == "HYPERLINK" && s[10] == '(' && s[11] == '"'
  {
    var s := HyperlinkFormula(url, caption);
    var head := "=HYPERLINK(\"";
    assert s == head + (url + "\", \"" + caption + "\")");
    assert s[..12] == head;
    assert s[1..10] == head[1..10];
  }

  lemma FormulaMiddle(url: string, caption: string)
    ensures var s := HyperlinkFormula(url, caption);
      && |s| == 18 + |url| + |caption|
      && s[12..12 + |url|] == url && s[12 + |url|] == '"' && s[13 + |url|] == ','
      && s[14 + |url|] == ' ' && s[15 + |url|] == '"'
  {
    var s := HyperlinkFormula(url, caption);
    var head := "=HYPERLINK(\"";
    var mid := "\", \"";
    var rest := caption + "\")";
    assert s == head + url + mid + rest;
    assert s[12..12 + |url|] == url;
    assert s[12 + |url|..16 + |url|] == mid;
  }

  lemma FormulaTail(url: string, caption: string)
    ensures var s := HyperlinkFormula(url, caption);
      && |s| == 18 + |url| + |caption|
      && s[16 + |url|..16 + |url| + |caption|] == caption
      && s[16 + |url| + |caption|] == '"' && s[|s| - 1] == ')'
  {
    var s := HyperlinkFormula(url, caption);
    var front := "=HYPERLINK(\"" + url + "\", \"";
    assert |front| == 16 + |url|;
    assert s == front + caption + "\")";
    assert s[16 + |url|..16 + |url| + |caption|] == caption;
  }

  /** A formula is matched by the HYPERLINK patterns at position 1 and at no earlier one. */
  lemma FormulaTarget(url: string, caption: string, q: char, spaced: bool)
    requires url != [] && '"' !in url && q == '"'
    ensures var s := HyperlinkFormula(url, caption);
      TargetAt(s, 0, q, spaced).None? && TargetAt(s, 1, q, spaced) == Some(url)
  {
    var s := HyperlinkFormula(url, caption);
    FormulaLayout(url, caption);
    FormulaKeyword(url, caption);
    SkipWhileAt(s, 10, 10, Space);
    SkipWhileAt(s, 11, 11, Space);
    QuotedSpan(s, 11, url);
  }

  /** The bot's own filing-link formula reads back as the URL it was made from,
      through both `_extract_url` and get_all_cases. */
  lemma ExtractLinkFormula(url: string)
    requires IsHttp(url) && '"' !in url && !IsSpace(url[|url| - 1])
    ensures ExtractUrl(LinkFormula(url)) == Some(url)
    ensures ListedLink(LinkFormula(url)) == Some(url)
  {
    LinkFormulaStripped(url);
    FormulaSearch(url, true);
    FormulaSearch(url, false);
    StripHttp(url);
    ExtractFound(LinkFormula(url), url);
  }

  lemma StripHttp(url: string)
    requires IsHttp(url) && !IsSpace(url[|url| - 1])
    ensures Strip(url) == url
  {
    assert url[0] == 'h' by { assert url[..4] == "http"; }
    StripKeeps(url);
  }

  lemma ExtractFound(s: string, url: string)
    requires Strip(s) == s && s != [] && Search(Target('"', true), s) == Some(url)
    requires Strip(url) == url && IsHttp(url)
    ensures ExtractUrl(s) == Some(url)
  {
    assert FormulaUrl(s, '"') == Some(url);
  }

  lemma LinkFormulaStripped(url: string)
    ensures Strip(LinkFormula(url)) == LinkFormula(url)
  {
    FormulaLayout(url, "Link");
    StripKeeps(LinkFormula(url));
  }

  lemma FormulaSearch(url: string, spaced: bool)
    requires url != [] && '"' !in url
    ensures Search(Target('"', spaced), LinkFormula(url)) == Some(url)
  {
    FormulaTarget(url, "Link", '"', spaced);
    SearchFinds(Target('"', spaced), LinkFormula(url), 1);
  }

  /** The caption pattern reads the caption back out of a formula. */
  lemma VisibleLabel(url: string, caption: string)
    requires url != [] && '"' !in url && caption != [] && '"' !in caption
    ensures VisibleText(HyperlinkFormula(url, caption)) == caption
  {
    FormulaCaption(url, caption);
    SearchFinds(Caption, HyperlinkFormula(url, caption), 1);
  }

  lemma FormulaCaption(url: string, caption: string)
    requires url != [] && '"' !in url && caption != [] && '"' !in caption
    ensures var s := HyperlinkFormula(url, caption);
      LabelAt(s, 0).None? && LabelAt(s, 1) == Some(caption)
  {
    var s := HyperlinkFormula(url, caption);
    FormulaKeyword(url, caption);
    CaptionAfterTarget(url, caption);
  }

  /** Past the keyword and the parenthesis: the quoted target, the comma, the quoted caption. */
  lemma CaptionAfterTarget(url: string, caption: string)
    requires url != [] && '"' !in url && caption != [] && '"' !in caption
    ensures var s := HyperlinkFormula(url, caption);
      && SkipSpaces(s, 11) == 11 && QuotedAt(s, 11, '"') == Some(12 + |url|)
      && SkipSpaces(s, 13 + |url|) == 13 + |url| && s[13 + |url|] == ','
      && SkipSpaces(s, 14 + |url|) == 15 + |url|
      && QuotedAt(s, 15 + |url|, '"') == Some(16 + |url| + |caption|)
      && s[16 + |url|..16 + |url| + |caption|] == caption
  {
    var s := HyperlinkFormula(url, caption);
    FormulaLayout(url, caption);
    QuotedTarget(s, url, caption);
    QuotedCaption(s, url, caption);
  }

  lemma QuotedTarget(s: string, url: string, caption: string)
    requires url != [] && '"' !in url
    requires |s| == 18 + |url| + |caption| && s[11] == '"' && s[12..12 + |url|] == url && s[12 + |url|] == '"'
    ensures SkipSpaces(s, 11) == 11 && QuotedAt(s, 11, '"') == Some(12 + |url|)
  {
    SkipWhileAt(s, 11, 11, Space);
    QuotedSpan(s, 11, url);
  }

  lemma QuotedCaption(s: string, url: string, caption: string)
    requires caption != [] && '"' !in caption
    requires |s| == 18 + |url| + |caption|
    requires s[13 + |url|] == ',' && s[14 + |url|] == ' ' && s[15 + |url|] == '"'
    requires s[16 + |url|..16 + |url| + |caption|] == caption && s[16 + |url| + |caption|] == '"'
    ensures SkipSpaces(s, 13 + |url|) == 13 + |url|
    ensures SkipSpaces(s, 14 + |url|) == 15 + |url|
    ensures QuotedAt(s, 15 + |url|, '"') == Some(16 + |url| + |caption|)
  {
    SkipWhileAt(s, 13 + |url|, 13 + |url|, Space);
    SkipWhileAt(s, 14 + |url|, 15 + |url|, Space);
    QuotedSpan(s, 15 + |url|, caption);
  }

  /** `HYPERLINK` starts at position 1 of a formula. */
  lemma FormulaKeyword(url: string, caption: string)
    ensures var s := HyperlinkFormula(url, caption); KeywordAt(s, 1) && !KeywordAt(s, 0)
  {
    var s := HyperlinkFormula(url, caption);
    FormulaLayout(url, caption);
    assert Lower(s[1..10]) == "hyperlink";
    assert Lower(s[0..9])[0] == '=';
  }

  /** A double-quoted `content` at `i`. */
  lemma QuotedSpan(s: string, i: nat, content: string)
    requires content != [] && '"' !in content
    requires i + 1 + |content| < |s| && s[i] == '"' && s[i + 1 + |content|] == '"'
    requires s[i + 1..i + 1 + |content|] == content
    ensures QuotedAt(s, i, '"') == Some(i + 1 + |content|)
  {
    forall k | i + 1 <= k < i + 1 + |content| ensures s[k] != '"' {
      assert s[k] == content[k - i - 1];
    }
    SkipWhileAt(s, i + 1, i + 1 + |content|, Except('"'));
  }

  /** Text in which no HYPERLINK keyword starts anywhere. */
  ghost predicate NoKeyword(s: string) {
    forall i :: !KeywordAt(s, i)
  }

  /** A cell without any HYPERLINK is compared as it stands. */
  lemma VisibleTextPlain(cell: string)
    requires NoKeyword(cell)
    ensures VisibleText(cell) == cell
  {
    assert forall k :: LabelAt(cell, k).None?;
  }

  // ---------------------------------------------------------------- case-number normalisation

  /** Every run of whitespace is a single space. */
  predicate Collapsed(t: string)
    decreases |t|
  {
    t == [] ||
    ((IsSpace(t[0]) ==> t[0] == ' ' && (|t| > 1 ==> !IsSpace(t[1]))) && Collapsed(t[1..]))
  }

  /** `re.sub(r'\s+', ' ', s)`. */
  function Collapse(s: string): (r: string)
    ensures Collapsed(r)
    ensures r == [] <==> s == []
    ensures r != [] ==> (IsSpace(r[0]) <==> IsSpace(s[0]))
    ensures r != [] ==> (IsSpace(r[|r| - 1]) <==> IsSpace(s[|s| - 1]))
    decreases |s|
  {
    if s == [] then []
    else if IsSpace(s[0]) then
      var t := TrimLeft(s[1..]);
      var r := [' '] + Collapse(t);
      assert r[1..] == Collapse(t);
      assert t != [] ==> t[|t| - 1] == s[|s| - 1];
      assert t == [] && |s| > 1 ==> IsSpace(s[1..][|s| - 2]) by { TrimLeftDropsSpaces(s[1..]); }
      r
    else
      var r := [s[0]] + Collapse(s[1..]);
      assert r[1..] == Collapse(s[1..]);
      r
  }

  lemma {:induction false} CollapseKeeps(t: string)
    requires Collapsed(t)
    ensures Collapse(t) == t
    decreases |t|
  {
    if t != [] {
      if IsSpace(t[0]) {
        assert t[1..] != [] ==> !IsSpace(t[1..][0]);
        assert TrimLeft(t[1..]) == t[1..];
      }
      CollapseKeeps(t[1..]);
      assert t == [t[0]] + t[1..];
    }
  }

  /** Lower-casing changes neither whitespace nor the zero-width space. */
  lemma LowerCharFacts(c: char)
    ensures IsSpace(LowerChar(c)) <==> IsSpace(c)
    ensures LowerChar(c) == ' ' <==> c == ' '
    ensures LowerChar(c) == '\U{200B}' <==> c == '\U{200B}'
    ensures !IsUpper(LowerChar(c))
  {
  }

  lemma {:induction false} LowerKeepsCollapsed(t: string)
    requires Collapsed(t)
    ensures Collapsed(Lower(t))
    decreases |t|
  {
    if t != [] {
      var r := Lower(t);
      assert r[1..] == Lower(t[1..]);
      LowerCharFacts(t[0]);
      if |t| > 1 { LowerCharFacts(t[1]); }
      LowerKeepsCollapsed(t[1..]);
    }
  }

  /** What `_normalize` produces: no zero-width space, whitespace collapsed to single
      spaces and none at either end, no ASCII capitals. */
  predicate NormalForm(t: string) {
    && '\U{200B}' !in t
    && Collapsed(t)
    && (t != [] ==> !IsSpace(t[0]) && !IsSpace(t[|t| - 1]))
    && forall i :: 0 <= i < |t| ==> !IsUpper(t[i])
  }

  /** `_normalize` of get_case_info_from_number: NBSP becomes a space, zero-width spaces
      go, the text is stripped, whitespace runs collapse to one space, and it is lower-cased. */
  function Normalize(s: string): string {
    Lower(Collapse(Strip(RemoveChar(ReplaceChar(s, '\U{00A0}', ' '), '\U{200B}'))))
  }

  lemma StripKeepsChars(s: string)
    ensures forall c :: c in Strip(s) ==> c in s
  {
    var t := TrimLeft(s);
    assert forall c :: c in t ==> c in s;
  }

  /** A character that is not in `x` is not in any suffix of it. */
  lemma SuffixOut(x: string, k: nat, ch: char)
    requires ch !in x && k <= |x|
    ensures ch !in x[k..]
  {
    forall i | 0 <= i < |x[k..]| ensures x[k..][i] != ch {
      assert x[k..][i] == x[k + i];
    }
  }

  /** Collapsing whitespace brings in no character but the space. */
  lemma {:induction false} CollapseKeepsOut(s: string, ch: char)
    requires ch !in s && ch != ' '
    ensures ch !in Collapse(s)
    decreases |s|
  {
    if s != [] {
      if IsSpace(s[0]) {
        var t := TrimLeft(s[1..]);
        assert ch !in s[1..];
        SuffixOut(s[1..], |s[1..]| - |t|, ch);
        CollapseKeepsOut(t, ch);
        assert Collapse(s) == [' '] + Collapse(t);
      } else {
        assert ch !in s[1..];
        CollapseKeepsOut(s[1..], ch);
        assert Collapse(s) == [s[0]] + Collapse(s[1..]);
      }
    }
  }

  lemma NormalizeIsNormal(s: string)
    ensures NormalForm(Normalize(s))
  {
    var a := RemoveChar(ReplaceChar(s, '\U{00A0}', ' '), '\U{200B}');
    var b := Strip(a);
    var c := Collapse(b);
    var r := Lower(c);
    assert r == Normalize(s);
    assert '\U{200B}' !in b by { StripKeepsChars(a); }
    assert '\U{200B}' !in c by { CollapseKeepsOut(b, '\U{200B}'); }
    assert '\U{200B}' !in r by { LowerKeepsOut(c); }
    assert Collapsed(r) by { LowerKeepsCollapsed(c); }
    assert r != [] ==> !IsSpace(r[0]) && !IsSpace(r[|r| - 1]) by {
      if r != [] {
        LowerCharFacts(c[0]);
        LowerCharFacts(c[|c| - 1]);
      }
    }
    forall i | 0 <= i < |r| ensures !IsUpper(r[i]) {
      LowerCharFacts(c[i]);
    }
  }

  lemma LowerKeepsOut(c: string)
    requires '\U{200B}' !in c
    ensures '\U{200B}' !in Lower(c)
  {
    var r := Lower(c);
    forall i | 0 <= i < |r| ensures r[i] != '\U{200B}' {
      LowerCharFacts(c[i]);
    }
  }

  /** In collapsed text the only whitespace character is the plain space. */
  lemma {:induction false} CollapsedSpaces(t: string)
    requires Collapsed(t)
    ensures forall i :: 0 <= i < |t| && IsSpace(t[i]) ==> t[i] == ' '
    decreases |t|
  {
    if t != [] {
      CollapsedSpaces(t[1..]);
      assert forall i :: 1 <= i < |t| ==> t[i] == t[1..][i - 1];
    }
  }

  lemma NormalizeKeeps(t: string)
    requires NormalForm(t)
    ensures Normalize(t) == t
  {
    CollapsedSpaces(t);
    assert ReplaceChar(t, '\U{00A0}', ' ') == t;
    RemoveCharAbsent(t, '\U{200B}');
    StripKeeps(t);
    CollapseKeeps(t);
    LowerOfLower(t);
  }

  /** Normalising twice is normalising once, so normalised keys compare stably. */
  lemma NormalizeIdempotent(s: string)
    ensures Normalize(Normalize(s)) == Normalize(s)
  {
    NormalizeIsNormal(s);
    NormalizeKeeps(Normalize(s));
  }

  /** The key edit_docket and delete_case_row compare: `strip().lower()`. */
  function EditKey(s: string): string {
    Lower(Strip(s))
  }

  /** Text that holds no whitespace and no zero-width space. */
  predicate Solid(x: string) {
    forall i :: 0 <= i < |x| ==> !IsSpace(x[i]) && x[i] != '\U{200B}'
  }

  lemma {:induction false} SolidCollapsed(x: string)
    requires Solid(x)
    ensures Collapsed(x)
    decreases |x|
  {
    if x != [] { SolidCollapsed(x[1..]); }
  }

  /** Two solid words joined by one space are already collapsed. */
  lemma {:induction false} JoinCollapsed(x: string, y: string)
    requires Solid(x) && Solid(y) && y != []
    ensures Collapsed(x + " " + y)
    decreases |x|
  {
    if x == [] {
      assert ([] + " " + y)[1..] == y;
      SolidCollapsed(y);
    } else {
      assert (x + " " + y)[1..] == x[1..] + " " + y;
      JoinCollapsed(x[1..], y);
    }
  }

  /** A doubled space between two solid words collapses to one. */
  lemma {:induction false} CollapseDoubled(x: string, y: string)
    requires Solid(x) && Solid(y) && y != []
    ensures Collapse(x + "  " + y) == x + " " + y
    decreases |x|
  {
    if x == [] {
      assert x + "  " + y == "  " + y && x + " " + y == " " + y;
      CollapseDoubledFront(y);
    } else {
      var u := x + "  " + y;
      var w := x + " " + y;
      assert w == [x[0]] + (x[1..] + " " + y);
      assert u[0] == x[0] && u[1..] == x[1..] + "  " + y;
      CollapseSolidHead(u);
      CollapseDoubled(x[1..], y);
    }
  }

  lemma CollapseSolidHead(u: string)
    requires u != [] && !IsSpace(u[0])
    ensures Collapse(u) == [u[0]] + Collapse(u[1..])
  {
  }

  lemma CollapseDoubledFront(y: string)
    requires Solid(y) && y != []
    ensures Collapse("  " + y) == " " + y
  {
    var u := "  " + y;
    var v := " " + y;
    assert u[1..] == v && v[1..] == y;
    assert y[0] != ' ' && !IsSpace(y[0]);
    assert TrimLeft(y) == y;
    assert TrimLeft(v) == y;
    assert Collapse(u) == [' '] + Collapse(y);
    SolidCollapsed(y);
    CollapseKeeps(y);
  }

  /** Where the two comparisons disagree: a doubled space inside a case number is
      ignored by the lookup's normalisation but not by the `strip().lower()` key of
      the edit and delete scans. */
  lemma DoubledSpaceKeys(x: string, y: string)
    requires Solid(x) && Solid(y) && x != [] && y != []
    ensures Normalize(x + "  " + y) == Normalize(x + " " + y)
    ensures EditKey(x + "  " + y) != EditKey(x + " " + y)
  {
    assert Normalize(x + "  " + y) == Normalize(x + " " + y) by {
      NormalizeJoin(x, "  ", y);
      NormalizeJoin(x, " ", y);
    }
    assert |EditKey(x + "  " + y)| != |EditKey(x + " " + y)| by {
      StripJoin(x, "  ", y);
      StripJoin(x, " ", y);
    }
  }

  /** Two solid words with one or two spaces between them normalise to the
      lower-cased words joined by one space. */
  lemma NormalizeJoin(x: string, gap: string, y: string)
    requires Solid(x) && Solid(y) && x != [] && y != []
    requires gap == " " || gap == "  "
    ensures Normalize(x + gap + y) == Lower(x + " " + y)
  {
    JoinedPlain(x, gap, y);
    CollapseJoin(x, gap, y);
    NormalizePlain(x + gap + y);
  }

  lemma CollapseJoin(x: string, gap: string, y: string)
    requires Solid(x) && Solid(y) && x != [] && y != []
    requires gap == " " || gap == "  "
    ensures Collapse(Strip(x + gap + y)) == x + " " + y
  {
    StripJoin(x, gap, y);
    if gap == "  " {
      CollapseDoubled(x, y);
    } else {
      JoinCollapsed(x, y);
      CollapseKeeps(x + " " + y);
    }
  }

  lemma StripJoin(x: string, gap: string, y: string)
    requires Solid(x) && Solid(y) && x != [] && y != []
    ensures Strip(x + gap + y) == x + gap + y
  {
    var u := x + gap + y;
    assert u[0] == x[0] && u[|u| - 1] == y[|y| - 1];
    StripKeeps(u);
  }

  /** Solid words around spaces hold no NBSP and no zero-width space. */
  lemma JoinedPlain(x: string, gap: string, y: string)
    requires Solid(x) && Solid(y)
    requires forall i :: 0 <= i < |gap| ==> gap[i] == ' '
    ensures var u := x + gap + y;
      forall i :: 0 <= i < |u| ==> u[i] != '\U{00A0}' && u[i] != '\U{200B}'
  {
    var u := x + gap + y;
    forall i | 0 <= i < |u| ensures u[i] != '\U{00A0}' && u[i] != '\U{200B}' {
      if i < |x| { assert u[i] == x[i]; }
      else if i < |x| + |gap| { assert u[i] == gap[i - |x|]; }
      else { assert u[i] == y[i - |x| - |gap|]; }
    }
  }

  /** Text without NBSP and zero-width spaces is only stripped, collapsed and lower-cased. */
  lemma NormalizePlain(u: string)
    requires forall i :: 0 <= i < |u| ==> u[i] != '\U{00A0}' && u[i] != '\U{200B}'
    ensures Normalize(u) == Lower(Collapse(Strip(u)))
  {
    assert ReplaceChar(u, '\U{00A0}', ' ') == u;
    assert '\U{200B}' !in u;
    RemoveCharAbsent(u, '\U{200B}');
  }

  // ---------------------------------------------------------------- configured cell references

  /** `_normalize_range_ref` on a configured reference (None when the key is absent):
      nothing for a missing or empty one, and `Tab:Cell` becomes `Tab!Cell`. */
  function NormalizeRangeRef(r: Option<string>): (n: Option<string>)
    ensures n.None? <==> (r.None? || r.value == [])
    ensures n.Some? && '!' in r.value ==> n == r
    ensures n.Some? && ':' !in r.value ==> n == r
    ensures n.Some? && ':' in r.value && '!' !in r.value ==>
      var (before, after) := SplitFirst(r.value, ':').value;
      n.value == before + "!" + after
  {
    match r
    case None => None
    case Some(v) =>
      if v == [] then None
      else if ':' in v && '!' !in v then
        var (before, after) := SplitFirst(v, ':').value;
        Some(before + "!" + after)
      else Some(v)
  }

  /** A normalised reference always has its tab separator once it had a colon, and
      normalising again changes nothing. */
  lemma NormalizeRangeRefIdempotent(r: Option<string>)
    ensures NormalizeRangeRef(NormalizeRangeRef(r)) == NormalizeRangeRef(r)
  {
    match r
    case None =>
    case Some(v) =>
      if v != [] && ':' in v && '!' !in v {
        var (before, after) := SplitFirst(v, ':').value;
        var w := before + "!" + after;
        assert w[|before|] == '!';
      }
  }

  // ---------------------------------------------------------------- case-number counters

  /** The start of the longest run of digits that ends `t`. */
  function TrailingDigitsStart(t: string): (k: nat)
    ensures k <= |t|
    ensures forall i :: k <= i < |t| ==> IsDigit(t[i])
    ensures k > 0 ==> !IsDigit(t[k - 1])
  {
    if t != [] && IsDigit(t[|t| - 1]) then TrailingDigitsStart(t[..|t| - 1]) else |t|
  }

  /** `(?:([A-Za-z]+)\s*[-]?\s*)?` matching all of `p`. */
  predicate CounterPrefix(p: string) {
    p == [] ||
    var l := SkipWhile(p, 0, Letter);
    var r1 := TrimLeft(p[l..]);
    var r2 := if r1 != [] && r1[0] == '-' then r1[1..] else r1;
    l > 0 && TrimLeft(r2) == []
  }

  /** The number increment_available_case_number reads with
      `^(?:([A-Za-z]+)\s*[-]?\s*)?0*([0-9]+)\s*$`: the value of the trailing digits when
      the text is an optional letter prefix, an optional dash and those digits. */
  function ParseCounter(s: string): (r: Option<nat>)
    ensures r.Some? ==> var t := TrimRight(s); var k := TrailingDigitsStart(t);
      k < |t| && r.value == DigitsValue(t[k..])
  {
    var t := TrimRight(s);
    var k := TrailingDigitsStart(t);
    if k < |t| && CounterPrefix(t[..k]) then Some(DigitsValue(t[k..])) else None
  }

  /** The position of the first digit at or after `i`. */
  function FirstDigitFrom(s: string, i: nat): (r: Option<nat>)
    ensures r.Some? ==> i <= r.value < |s| && IsDigit(s[r.value])
    ensures r.Some? ==> forall k :: i <= k < r.value ==> !IsDigit(s[k])
    ensures r.None? ==> forall k :: i <= k < |s| ==> !IsDigit(s[k])
    decreases |s| - i
  {
    if i >= |s| then None else if IsDigit(s[i]) then Some(i) else FirstDigitFrom(s, i + 1)
  }

  /** The first run of digits in `s`, as `re.search(r'(\d+)', s)` finds it. */
  function FirstDigitRun(s: string): (r: Option<string>)
    ensures r.Some? ==> r.value != [] && AllDigits(r.value)
    ensures r.None? <==> forall i :: 0 <= i < |s| ==> !IsDigit(s[i])
  {
    match FirstDigitFrom(s, 0)
    case None => None
    case Some(k) => SkipWhileRun(s, k, Digit); Some(s[k..SkipWhile(s, k, Digit)])
  }

  /** The number part of get_available_case_number: the first digit run of the cell,
      or the whole cell when it has no digit. */
  function CounterNumber(cell: string): string {
    match FirstDigitRun(cell)
    case Some(d) => d
    case None => cell
  }

  /** What get_available_case_number returns: `"{prefix} {number}"`. */
  function AvailableNumber(prefix: string, cell: string): string {
    prefix + " " + CounterNumber(cell)
  }

  /** `f"{n:03d}"`: at least three digits, zero-padded. */
  function Pad3(n: nat): (r: string)
    ensures |r| >= 3 && AllDigits(r)
    ensures DigitsValue(r) == n
  {
    NatToStringLength(n);
    DigitsValueOfNatToString(n);
    if n < 10 then
      DigitsValueLeadingZeros("00", NatToString(n));
      "00" + NatToString(n)
    else if n < 100 then
      DigitsValueLeadingZeros("0", NatToString(n));
      "0" + NatToString(n)
    else NatToString(n)
  }

  lemma {:induction false} NatToStringLength(n: nat)
    ensures n < 10 ==> |NatToString(n)| == 1
    ensures 10 <= n < 100 ==> |NatToString(n)| == 2
    ensures n >= 100 ==> |NatToString(n)| >= 3
    ensures n >= 10 ==> |NatToString(n)| >= 2
  {
    if n >= 10 { NatToStringLength(n / 10); }
  }

  /** A cell holding only digits is its own number part. */
  lemma CounterNumberOfDigits(d: string)
    requires d != [] && AllDigits(d)
    ensures CounterNumber(d) == d
  {
    assert FirstDigitFrom(d, 0) == Some(0);
    SkipWhileAt(d, 0, |d|, Digit);
  }

  /** The counter that get_available_case_number reports is read back by the increment
      as the value of the cell's first digit run. */
  lemma ParseAvailableNumber(prefix: string, cell: string)
    requires Word(prefix)
    requires FirstDigitRun(cell).Some?
    ensures ParseCounter(Strip(AvailableNumber(prefix, cell))) == Some(DigitsValue(FirstDigitRun(cell).value))
  {
    ParseWordNumber(prefix, FirstDigitRun(cell).value);
  }

  /** A non-empty run of ASCII letters, such as a counter prefix. */
  predicate Word(p: string) {
    p != [] && forall i :: 0 <= i < |p| ==> IsAsciiLetter(p[i])
  }

  /** A word, a space and digits parse as the value of the digits. */
  lemma ParseWordNumber(prefix: string, d: string)
    requires Word(prefix)
    requires d != [] && AllDigits(d)
    ensures ParseCounter(Strip(prefix + " " + d)) == Some(DigitsValue(d))
  {
    WordNumberStripped(prefix, d);
    ParseWordNumberPlain(prefix, d);
  }

  lemma ParseWordNumberPlain(prefix: string, d: string)
    requires Word(prefix)
    requires d != [] && AllDigits(d)
    ensures ParseCounter(prefix + " " + d) == Some(DigitsValue(d))
  {
    var s := prefix + " " + d;
    var k := |prefix| + 1;
    assert TrimRight(s) == s by { WordNumberStripped(prefix, d); }
    assert TrailingDigitsStart(s) == k by { WordNumberDigits(prefix, d); }
    assert s[k..] == d && CounterPrefix(s[..k]) by { WordNumberParts(prefix, d); }
    ParseAt(s, k);
  }

  lemma WordNumberParts(prefix: string, d: string)
    requires Word(prefix)
    ensures (prefix + " " + d)[|prefix| + 1..] == d && CounterPrefix((prefix + " " + d)[..|prefix| + 1])
  {
    var s := prefix + " " + d;
    assert s[..|prefix| + 1] == prefix + " ";
    WordIsPrefix(prefix);
  }

  /** Text that ends in digits after a counter prefix parses as the value of those digits. */
  lemma ParseAt(s: string, k: nat)
    requires TrimRight(s) == s && TrailingDigitsStart(s) == k && k < |s|
    requires CounterPrefix(s[..k])
    ensures ParseCounter(s) == Some(DigitsValue(s[k..]))
  {
  }

  lemma WordNumberStripped(prefix: string, d: string)
    requires Word(prefix)
    requires d != [] && AllDigits(d)
    ensures Strip(prefix + " " + d) == prefix + " " + d
    ensures TrimRight(prefix + " " + d) == prefix + " " + d
  {
    var s := prefix + " " + d;
    assert s[0] == prefix[0] && IsAsciiLetter(prefix[0]);
    assert s[|s| - 1] == d[|d| - 1] && IsDigit(d[|d| - 1]);
    assert !IsSpace(s[0]) && !IsSpace(s[|s| - 1]);
    StripKeeps(s);
    assert TrimRight(s) == s;
  }

  lemma WordNumberDigits(prefix: string, d: string)
    requires d != [] && AllDigits(d)
    ensures TrailingDigitsStart(prefix + " " + d) == |prefix| + 1
  {
    DigitsAfterSpace(prefix, d);
    TrailingDigitsAt(prefix + " " + d, |prefix| + 1);
  }

  lemma DigitsAfterSpace(prefix: string, d: string)
    requires AllDigits(d)
    ensures var s := prefix + " " + d;
      |s| == |prefix| + 1 + |d| && s[|prefix|] == ' ' && forall i :: |prefix| + 1 <= i < |s| ==> IsDigit(s[i])
  {
    var s := prefix + " " + d;
    forall i | |prefix| + 1 <= i < |s| ensures IsDigit(s[i]) {
      assert s[i] == d[i - |prefix| - 1];
    }
  }

  lemma {:induction false} TrailingDigitsAt(t: string, k: nat)
    requires 0 < k <= |t| && !IsDigit(t[k - 1])
    requires forall i :: k <= i < |t| ==> IsDigit(t[i])
    ensures TrailingDigitsStart(t) == k
    decreases |t|
  {
    if k < |t| {
      TrailingDigitsAt(t[..|t| - 1], k);
    }
  }

  /** A word of letters followed by a space is a counter prefix. */
  lemma WordIsPrefix(prefix: string)
    requires Word(prefix)
    ensures CounterPrefix(prefix + " ")
  {
    var p := prefix + " ";
    SkipWhileAt(p, 0, |prefix|, Letter);
    assert p[|prefix|..] == " ";
    assert TrimLeft(" ") == [];
  }

  /** The value the increment writes is read back, on the next request, as that value. */
  lemma CounterRoundTrip(prefix: string, n: nat)
    requires Word(prefix)
    ensures AvailableNumber(prefix, Pad3(n)) == prefix + " " + Pad3(n)
    ensures ParseCounter(Strip(AvailableNumber(prefix, Pad3(n)))) == Some(n)
  {
    CounterNumberOfDigits(Pad3(n));
    ParseAvailableNumber(prefix, Pad3(n));
  }

  // ---------------------------------------------------------------- criminal or civil

  predicate WordAt(s: string, j: int) {
    0 <= j < |s| && IsWordChar(s[j])
  }

  /** `\b` at position `j`. */
  predicate Boundary(s: string, j: int) {
    WordAt(s, j - 1) != WordAt(s, j)
  }

  /** `\bcrim(inal)?\b`, ignoring case, matched at `i`. */
  predicate CrimAt(s: string, i: nat) {
    && i + 4 <= |s| && Boundary(s, i) && Lower(s[i..i + 4]) == "crim"
    && (|| Boundary(s, i + 4)
        || (i + 8 <= |s| && Lower(s[i + 4..i + 8]) == "inal" && Boundary(s, i + 8)))
  }

  /** finish_case's test for a criminal case number. */
  predicate IsCriminal(caseNumber: string) {
    exists i: nat :: i <= |caseNumber| && CrimAt(caseNumber, i)
  }

  /** Numbers minted with the criminal prefix go to the criminal case log ... */
  lemma CrimNumbersAreCriminal(d: string)
    requires AllDigits(d)
    ensures IsCriminal("Crim " + d)
  {
    var s := "Crim " + d;
    assert s[0..4] == "Crim";
    assert Lower("Crim") == "crim";
    assert CrimAt(s, 0);
  }

  /** ... and those minted with the civil prefix to the civil one. */
  lemma CivNumbersAreCivil(d: string)
    requires AllDigits(d)
    ensures !IsCriminal("Civ " + d)
  {
    var s := "Civ " + d;
    forall i: nat | i <= |s| ensures !CrimAt(s, i) {
      if i + 4 <= |s| {
        var w := Lower(s[i..i + 4]);
        assert w[0] == LowerChar(s[i]) && w[1] == LowerChar(s[i + 1]);
        if i >= 4 { assert s[i] == d[i - 4]; assert w[0] != 'c'; }
        else if i == 0 { assert w[1] == 'i'; }
        else { assert w[0] != 'c'; }
      }
    }
  }

  lemma CriminalExamples()
    ensures IsCriminal("CRIMINAL 7")
    ensures !IsCriminal("Crime 7")
  {
    var s := "CRIMINAL 7";
    assert Lower(s[0..4]) == "crim" && Lower(s[4..8]) == "inal";
    assert CrimAt(s, 0);
    var t := "Crime 7";
    forall i: nat | i <= |t| ensures !CrimAt(t, i) {
      if i + 4 <= |t| && Lower(t[i..i + 4]) == "crim" {
        assert Lower(t[i..i + 4])[0] == LowerChar(t[i]) == 'c';
        assert i == 0;
        assert !Boundary(t, 4);
      }
    }
  }
}
