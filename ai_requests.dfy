/** The case classifier of services/ai_requests.py: the clean-up of a model reply
    (`clean_triple_backticks`), the checks `get_case_type` makes before it asks the
    generative model, the prompt it sends, and the `key: value` parser it falls back
    to when the reply is not JSON. The generative model and the JSON decoder are
    parameters of the model. */
module Classifier {
  import opened Text

  // ---------------------------------------------------------------- reply clean-up

  const Fence := "```"

  /** The first step of `clean_triple_backticks` on stripped text: an opening fence
      drops the whole first line, or on a single line the leading backticks. */
  function Unfence(t: string): string {
    if StartsWith(t, Fence) then
      match SplitFirst(t, '\n')
      case Some(parts) => parts.1
      case None => LStripChar(t, '`')
    else t
  }

  /** The second step: a closing fence cuts the text at the last fence. */
  function Unclose(t: string): (r: string)
    ensures EndsWith(t, Fence) ==> r == t[..|t| - 3]
    ensures !EndsWith(t, Fence) ==> r == t
  {
    match LastIndexOf(t, Fence)
    case Some(i) => if EndsWith(t, Fence) then t[..i] else t
    case None => t
  }

  /** `clean_triple_backticks(s)`: strip, drop an opening fence, cut a closing one,
      strip again. */
  function CleanTripleBackticks(s: string): (r: string)
    ensures Strip(r) == r
  {
    StripIdempotent(Unclose(Unfence(Strip(s))));
    Strip(Unclose(Unfence(Strip(s))))
  }

  /** Text that neither opens nor closes with a fence is only stripped. */
  lemma CleanPlain(s: string)
    requires !StartsWith(Strip(s), Fence) && !EndsWith(Strip(s), Fence)
    ensures CleanTripleBackticks(s) == Strip(s)
  {
    StripIdempotent(s);
  }

  lemma UnfenceFirstLine(head: string, rest: string)
    requires StartsWith(head, Fence) && '\n' !in head
    ensures Unfence(head + "\n" + rest) == rest
  {
    var u := head + "\n" + rest;
    assert u[..3] == head[..3];
    assert u[..|head|] == head;
    IndexOfIs(u, '\n', |head|);
    assert u[|head| + 1..] == rest;
  }

  /** A text ending with a fence loses exactly that fence. */
  lemma UncloseFence(t: string)
    ensures Unclose(t + Fence) == t
  {
    assert (t + Fence)[|t + Fence| - 3..] == Fence;
    assert (t + Fence)[..|t|] == t;
  }

  /** A text without spaces at its ends is cleaned from its unfenced, unclosed form. */
  lemma CleanSteps(u: string, unfenced: string, unclosed: string)
    requires u != [] && !IsSpace(u[0]) && !IsSpace(u[|u| - 1])
    requires Unfence(u) == unfenced && Unclose(unfenced) == unclosed
    ensures CleanTripleBackticks(u) == Strip(unclosed)
  {
    StripKeeps(u);
  }

  /** A fenced block with an info string on its first line comes back as its
      stripped body, whatever the body contains. */
  lemma CleanFencedBlock(info: string, body: string)
    requires '\n' !in info
    ensures CleanTripleBackticks(Fence + info + "\n" + body + "\n" + Fence) == Strip(body)
  {
    var u := Fence + info + "\n" + body + "\n" + Fence;
    var tail := (body + "\n") + Fence;
    assert Unfence(u) == tail by {
      assert u == (Fence + info) + "\n" + tail;
      assert (Fence + info)[..3] == Fence;
      UnfenceFirstLine(Fence + info, tail);
    }
    assert Unclose(tail) == body + "\n" by {
      UncloseFence(body + "\n");
    }
    assert u[0] == '`' && u[|u| - 1] == '`';
    CleanSteps(u, tail, body + "\n");
    StripSnocSpace(body, '\n');
  }

  lemma LStripFence(y: string)
    requires y != [] && y[0] != '`'
    ensures LStripChar(Fence + y, '`') == y
  {
    assert (Fence + y)[1..] == "``" + y;
    assert ("``" + y)[1..] == "`" + y;
    assert ("`" + y)[1..] == y;
  }

  lemma UnfenceOneLine(y: string)
    requires y != [] && y[0] != '`' && '\n' !in y
    ensures Unfence(Fence + y) == y
  {
    var u := Fence + y;
    assert u[..3] == Fence;
    assert '\n' !in u by {
      assert forall k :: 3 <= k < |u| ==> u[k] == y[k - 3];
    }
    LStripFence(y);
  }

  /** A reply fenced on one line (```` ```text``` ````) comes back as the stripped text. */
  lemma CleanInlineFence(x: string)
    requires x != [] && x[0] != '`' && '\n' !in x
    ensures CleanTripleBackticks(Fence + x + Fence) == Strip(x)
  {
    assert '\n' !in x + Fence;
    UnfenceOneLine(x + Fence);
    UncloseFence(x);
    assert Fence + x + Fence == Fence + (x + Fence);
    CleanSteps(Fence + (x + Fence), x + Fence, x);
  }

  // ---------------------------------------------------------------- request

  /** The settings `get_case_type` reads: `AI.testing_mode`, the `GOOGLE_API_KEY`
      variable and `AI.google_model` (an empty string when unset), and the prompt
      file's text. */
  datatype AiConfig = AiConfig(testingMode: bool, apiKey: string, modelName: string, promptBase: string)

  /** The dictionary `get_case_type` returns; `error == None` is Python's `None`. */
  datatype Classification = Classification(success: bool, caseType: string, caseName: string, error: Option<string>)

  /** What the generative model call gives: the reply's text, or the text of the
      exception it raised. */
  datatype Generation = Generated(text: string) | Failed(message: string)

  function Unknown(error: string): Classification {
    Classification(false, "Unknown", "Unknown", Some(error))
  }

  /** Every reply keeps this shape: success exactly when there is no error, and a
      failure names neither a case type nor a case name. */
  predicate Consistent(r: Classification) {
    (r.success <==> r.error.None?) && (!r.success ==> r.caseType == "Unknown" && r.caseName == "Unknown")
  }

  const MaxCaseText := 600
  const PromptEnd := "[DOCUMENT TEXT END]"

  /** `casetext[:600]`. */
  function Truncated(text: string): (r: string)
    ensures |r| <= MaxCaseText && |r| <= |text| && r == text[..|r|]
    ensures |text| <= MaxCaseText ==> r == text
  {
    if |text| <= MaxCaseText then text else text[..MaxCaseText]
  }

  /** The prompt sent to the model: the prompt file, the first 600 characters of the
      case text and the end marker, each on its own line, with every backtick removed. */
  function Prompt(base: string, text: string): string {
    RemoveChar(base + "\n" + Truncated(text) + "\n" + PromptEnd, '`')
  }

  lemma {:induction false} RemoveCharShorter(s: string, c: char)
    ensures |RemoveChar(s, c)| <= |s|
  {
    if s != [] { RemoveCharShorter(s[1..], c); }
  }

  /** The prompt holds no backtick, is at most 621 characters longer than the prompt
      file, and is the plain concatenation when neither input holds a backtick. */
  lemma PromptShape(base: string, text: string)
    ensures '`' !in Prompt(base, text)
    ensures |Prompt(base, text)| <= |base| + MaxCaseText + 2 + |PromptEnd|
    ensures '`' !in base && '`' !in text ==>
      Prompt(base, text) == base + "\n" + Truncated(text) + "\n" + PromptEnd
  {
    var whole := base + "\n" + Truncated(text) + "\n" + PromptEnd;
    RemoveCharShorter(whole, '`');
    if '`' !in base && '`' !in text {
      assert '`' !in PromptEnd;
      assert forall k :: 0 <= k < |whole| ==> whole[k] != '`';
      RemoveCharAbsent(whole, '`');
    }
  }

  /** Characters after the first 600 never reach the model. */
  lemma PromptIgnoresTail(base: string, text: string, tail: string)
    requires |text| >= MaxCaseText
    ensures Prompt(base, text + tail) == Prompt(base, text)
  {
    assert (text + tail)[..MaxCaseText] == text[..MaxCaseText];
  }

  // ---------------------------------------------------------------- fallback parser

  /** The line boundaries of `str.splitlines`. */
  predicate IsLineBreak(c: char) {
    || ('\n' <= c <= '\r')
    || ('\U{001C}' <= c <= '\U{001E}')
    || c == '\U{0085}' || c == '\U{2028}' || c == '\U{2029}'
  }

  predicate NoBreak(s: string) {
    forall k :: 0 <= k < |s| ==> !IsLineBreak(s[k])
  }

  /** The position of the first line boundary, or `|s|`. */
  function BreakAt(s: string): (i: nat)
    ensures i <= |s| && NoBreak(s[..i])
    ensures i < |s| ==> IsLineBreak(s[i])
  {
    if s == [] || IsLineBreak(s[0]) then 0
    else
      var j := BreakAt(s[1..]);
      assert s[..j + 1] == [s[0]] + s[1..][..j];
      j + 1
  }

  /** The first boundary of `s` is at `n` when none comes before it. */
  lemma {:induction false} BreakAtIs(s: string, n: nat)
    requires n <= |s| && NoBreak(s[..n]) && (n < |s| ==> IsLineBreak(s[n]))
    ensures BreakAt(s) == n
  {
    if n > 0 {
      assert s[0] == s[..n][0];
      assert s[1..][..n - 1] == s[..n][1..];
      BreakAtIs(s[1..], n - 1);
    }
  }

  /** `s.splitlines()`: the text between boundaries, `\r\n` being one boundary, with no
      empty piece after a final boundary. */
  function SplitLines(s: string): (r: seq<string>)
    ensures forall k :: 0 <= k < |r| ==> NoBreak(r[k])
    decreases |s|
  {
    if s == [] then []
    else
      var i := BreakAt(s);
      if i == |s| then [s]
      else
        var skip := if s[i] == '\r' && i + 1 < |s| && s[i + 1] == '\n' then 2 else 1;
        [s[..i]] + SplitLines(s[i + skip..])
  }

  /** A line ended by `\n` is split off in one piece. */
  lemma SplitLinesCons(line: string, rest: string)
    requires NoBreak(line)
    ensures SplitLines(line + "\n" + rest) == [line] + SplitLines(rest)
  {
    var s := line + "\n" + rest;
    assert s[..|line|] == line;
    BreakAtIs(s, |line|);
    assert s[..|line|] == line;
    assert s[|line| + 1..] == rest;
  }

  /** A non-empty text without boundaries is one line. */
  lemma SplitLinesOne(line: string)
    requires line != [] && NoBreak(line)
    ensures SplitLines(line) == [line]
  {
    assert line[..|line|] == line;
    BreakAtIs(line, |line|);
  }

  /** `[ln.strip() for ln in lines if ln.strip()]`. */
  function KeptLines(lines: seq<string>): (r: seq<string>)
    ensures |r| <= |lines|
    ensures forall k :: 0 <= k < |r| ==> r[k] != [] && Strip(r[k]) == r[k]
  {
    if lines == [] then []
    else
      StripIdempotent(lines[0]);
      (if Strip(lines[0]) != [] then [Strip(lines[0])] else []) + KeptLines(lines[1..])
  }

  /** Some line strips to `x` exactly when the first one does or a later one does. */
  lemma SomeStripCons(lines: seq<string>, x: string)
    requires lines != []
    ensures (exists j :: 0 <= j < |lines| && Strip(lines[j]) == x)
      <==> Strip(lines[0]) == x || exists j :: 0 <= j < |lines[1..]| && Strip(lines[1..][j]) == x
  {
    if exists j :: 0 <= j < |lines| && Strip(lines[j]) == x {
      var j :| 0 <= j < |lines| && Strip(lines[j]) == x;
      if j > 0 { assert Strip(lines[1..][j - 1]) == x; }
    }
    if exists j :: 0 <= j < |lines[1..]| && Strip(lines[1..][j]) == x {
      var j :| 0 <= j < |lines[1..]| && Strip(lines[1..][j]) == x;
      assert Strip(lines[j + 1]) == x;
    }
  }

  /** The kept lines are exactly the non-blank lines, stripped. */
  lemma {:induction false} KeptLinesMembers(lines: seq<string>, x: string)
    ensures x in KeptLines(lines) <==> x != [] && exists j :: 0 <= j < |lines| && Strip(lines[j]) == x
  {
    if lines != [] {
      var head := if Strip(lines[0]) != [] then [Strip(lines[0])] else [];
      assert KeptLines(lines) == head + KeptLines(lines[1..]);
      KeptLinesMembers(lines[1..], x);
      SomeStripCons(lines, x);
    }
  }

  /** The entry a line adds: `k, v = ln.split(":", 1)` gives the key `k.strip().lower()`
      and the value `v.strip()`; a line without a colon adds none. */
  function FieldOf(line: string): (r: Option<(string, string)>)
    ensures r.None? <==> ':' !in line
  {
    match SplitFirst(line, ':')
    case None => None
    case Some(parts) => Some((Lower(Strip(parts.0)), Strip(parts.1)))
  }

  /** Keys are lower-case and values stripped. */
  lemma FieldNormalised(line: string)
    requires ':' in line
    ensures Lower(FieldOf(line).value.0) == FieldOf(line).value.0
    ensures Strip(FieldOf(line).value.1) == FieldOf(line).value.1
  {
    var parts := SplitFirst(line, ':').value;
    LowerOfLower(Lower(Strip(parts.0)));
    StripIdempotent(parts.1);
  }

  function Enter(parsed: map<string, string>, line: string): map<string, string> {
    match FieldOf(line)
    case None => parsed
    case Some(kv) => parsed[kv.0 := kv.1]
  }

  /** The `parsed` dictionary after the lines, in order. */
  function Parsed(lines: seq<string>): map<string, string>
    decreases |lines|
  {
    if lines == [] then map[] else Enter(Parsed(lines[..|lines| - 1]), lines[|lines| - 1])
  }

  predicate HasKey(line: string, key: string) {
    FieldOf(line).Some? && FieldOf(line).value.0 == key
  }

  /** Some line passes a test exactly when the last one does or an earlier one does. */
  lemma ExistsSnoc(lines: seq<string>, init: seq<string>, hits: string -> bool)
    requires lines != [] && init == lines[..|lines| - 1]
    ensures (exists j :: 0 <= j < |lines| && hits(lines[j]))
      <==> (hits(lines[|lines| - 1]) || exists j :: 0 <= j < |init| && hits(init[j]))
  {
    if exists j :: 0 <= j < |init| && hits(init[j]) {
      var j :| 0 <= j < |init| && hits(init[j]);
      assert lines[j] == init[j];
    }
  }

  /** A key is parsed exactly when some line names it. */
  lemma {:induction false} ParsedDomain(lines: seq<string>, key: string)
    ensures key in Parsed(lines) <==> exists j :: 0 <= j < |lines| && HasKey(lines[j], key)
    decreases |lines|
  {
    if lines != [] {
      var init := lines[..|lines| - 1];
      assert Parsed(lines) == Enter(Parsed(init), lines[|lines| - 1]);
      ParsedDomain(init, key);
      ExistsSnoc(lines, init, l => HasKey(l, key));
    }
  }

  /** The value kept for a key is the one on the last line naming it: later
      duplicates override earlier ones. */
  lemma {:induction false} ParsedLatest(lines: seq<string>, j: nat)
    requires j < |lines| && FieldOf(lines[j]).Some?
    requires forall k :: j < k < |lines| ==> !HasKey(lines[k], FieldOf(lines[j]).value.0)
    ensures FieldOf(lines[j]).value.0 in Parsed(lines)
    ensures Parsed(lines)[FieldOf(lines[j]).value.0] == FieldOf(lines[j]).value.1
    decreases |lines|
  {
    var init := lines[..|lines| - 1];
    if j < |init| {
      assert init[j] == lines[j];
      assert forall k :: j < k < |init| ==> init[k] == lines[k];
      ParsedLatest(init, j);
      assert !HasKey(lines[|lines| - 1], FieldOf(lines[j]).value.0);
    }
  }

  /** The loop filling `parsed`, one kept line at a time. */
  method ParseFields(lines: seq<string>) returns (parsed: map<string, string>)
    ensures parsed == Parsed(lines)
  {
    parsed := map[];
    var i := 0;
    while i < |lines|
      invariant 0 <= i <= |lines|
      invariant parsed == Parsed(lines[..i])
    {
      var line := lines[i];
      assert lines[..i + 1][..i] == lines[..i];
      assert Parsed(lines[..i + 1]) == Enter(parsed, line);
      if ':' in line {
        var parts := SplitFirst(line, ':').value;
        parsed := parsed[Lower(Strip(parts.0)) := Strip(parts.1)];
      }
      i := i + 1;
    }
    assert lines[..i] == lines;
  }

  /** `d.get(key, default)`. */
  function Get(d: map<string, string>, key: string, default: string): string {
    if key in d then d[key] else default
  }

  /** `parsed.get(key, parsed.get(alternative, "Unknown"))`. */
  function Choose(parsed: map<string, string>, key: string, alternative: string): string {
    Get(parsed, key, Get(parsed, alternative, "Unknown"))
  }

  /** The reply of the fallback parser for a cleaned model reply `text`. */
  function FallbackOf(text: string): (r: Classification)
    ensures Consistent(r)
    ensures r.success <==> !(r.caseType == "Unknown" && r.caseName == "Unknown")
    ensures !r.success ==> r.error == Some("Unable to parse response. Raw: " + text)
  {
    var parsed := Parsed(KeptLines(SplitLines(text)));
    var caseType := Choose(parsed, "case_type", "type");
    var caseName := Choose(parsed, "case_name", "name");
    if caseType == "Unknown" && caseName == "Unknown" then Unknown("Unable to parse response. Raw: " + text)
    else Classification(true, caseType, caseName, None)
  }

  /** `Choose` gives the value on the last line naming `key`, and the last line naming
      `alternative` only when no line names `key`. */
  lemma ChooseLatest(lines: seq<string>, j: nat, key: string, alternative: string)
    requires j < |lines|
    requires HasKey(lines[j], key)
      || (HasKey(lines[j], alternative) && forall k :: 0 <= k < |lines| ==> !HasKey(lines[k], key))
    requires forall k :: j < k < |lines| ==> !HasKey(lines[k], FieldOf(lines[j]).value.0)
    ensures Choose(Parsed(lines), key, alternative) == FieldOf(lines[j]).value.1
  {
    ParsedLatest(lines, j);
    ParsedDomain(lines, key);
  }

  /** The `case_type` of a fallback reply is the value on the last kept line whose key
      is `case_type` (or `type` when there is none), and a value other than "Unknown"
      makes the reply a success. */
  lemma FallbackCaseType(text: string, lines: seq<string>, j: nat)
    requires lines == KeptLines(SplitLines(text))
    requires j < |lines|
    requires HasKey(lines[j], "case_type")
      || (HasKey(lines[j], "type") && forall k :: 0 <= k < |lines| ==> !HasKey(lines[k], "case_type"))
    requires forall k :: j < k < |lines| ==> !HasKey(lines[k], FieldOf(lines[j]).value.0)
    requires FieldOf(lines[j]).value.1 != "Unknown"
    ensures FallbackOf(text).success
    ensures FallbackOf(text).caseType == FieldOf(lines[j]).value.1
  {
    ChooseLatest(lines, j, "case_type", "type");
  }

  /** The fallback branch of `get_case_type`: split, keep, parse, choose. */
  method ParseReply(text: string) returns (r: Classification)
    ensures r == FallbackOf(text)
  {
    var lines := KeptLines(SplitLines(text));
    var parsed := ParseFields(lines);
    var caseType := Choose(parsed, "case_type", "type");
    var caseName := Choose(parsed, "case_name", "name");
    if caseType == "Unknown" && caseName == "Unknown" {
      r := Unknown("Unable to parse response. Raw: " + text);
    } else {
      r := Classification(true, caseType, caseName, None);
    }
  }

  // ---------------------------------------------------------------- get_case_type

  /** `get_case_type(casetext)`. `casetext == None` stands for an argument that is not
      a `str`; `generate` is the model call on the prompt, and `decode` is `json.loads`
      followed by the two `.get` calls, `None` when either raises. */
  method GetCaseType(casetext: Option<string>, cfg: AiConfig, generate: string -> Generation,
                     decode: string -> Option<map<string, string>>) returns (r: Classification)
    ensures Consistent(r)
    ensures casetext.None? || Strip(casetext.value) == [] ==> r == Unknown("Empty case text provided")
    ensures casetext.Some? && Strip(casetext.value) != [] ==>
      if cfg.testingMode then r == Classification(true, "Criminal", "SD v. Ed", None)
      else if cfg.apiKey == [] then r == Unknown("Missing GOOGLE_API_KEY environment variable")
      else if cfg.modelName == [] then r == Unknown("Model name not set in config.yaml (AI.google_model)")
      else match generate(Prompt(cfg.promptBase, casetext.value))
        case Failed(e) => r == Unknown(e)
        case Generated(t) =>
          match decode(CleanTripleBackticks(t))
          case Some(json) =>
            r == Classification(true, Get(json, "case_type", "Unknown"), Get(json, "case_name", "Unknown"), None)
          case None => r == FallbackOf(CleanTripleBackticks(t))
  {
    if casetext.None? || Strip(casetext.value) == [] {
      return Unknown("Empty case text provided");
    }
    if cfg.testingMode {
      return Classification(true, "Criminal", "SD v. Ed", None);
    }
    if cfg.apiKey == [] {
      return Unknown("Missing GOOGLE_API_KEY environment variable");
    }
    if cfg.modelName == [] {
      return Unknown("Model name not set in config.yaml (AI.google_model)");
    }
    var prompt := Prompt(cfg.promptBase, casetext.value);
    match generate(prompt)
    case Failed(e) =>
      r := Unknown(e);
    case Generated(t) =>
      var text := CleanTripleBackticks(t);
      match decode(text)
      case Some(json) =>
        r := Classification(true, Get(json, "case_type", "Unknown"), Get(json, "case_name", "Unknown"), None);
      case None =>
        r := ParseReply(text);
  }
}
