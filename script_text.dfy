/** Text clean-up applied to model replies and VBA code: the punctuation
    sanitizer, the two code-fence strippers, the `Sub\s+(\w+)` entry-point scan and
    the `<name>_repair` renaming. */
module ScriptText {
  import opened Wrappers
  import opened Strings

  // ---------------------------------------------------------------------------
  // Punctuation sanitizer
  // ---------------------------------------------------------------------------

  /** The typographic and full-width punctuation that VBA does not accept. */
  predicate IsTypographic(c: char) {
    c == '\U{201C}' || c == '\U{201D}' || c == '\U{2018}' || c == '\U{2019}'
    || c == '\U{FF0C}' || c == '\U{FF1A}' || c == '\U{FF1B}' || c == '\U{FF08}'
    || c == '\U{FF09}'
  }

  /** The ASCII replacement of one character: curly double quotes become `"`,
      curly single quotes `'`, the full-width comma `,`, the full-width colon and
      semicolon both `:`, the full-width parentheses `(` and `)`. */
  function AsciiPunctuation(c: char): (d: char)
    ensures d != c <==> IsTypographic(c)
    ensures !IsTypographic(d)
  {
    if c == '\U{201C}' || c == '\U{201D}' then '"'
    else if c == '\U{2018}' || c == '\U{2019}' then '\''
    else if c == '\U{FF0C}' then ','
    else if c == '\U{FF1A}' || c == '\U{FF1B}' then ':'
    else if c == '\U{FF08}' then '('
    else if c == '\U{FF09}' then ')'
    else c
  }

  /** The chain of nine ordinal `Replace` calls, in the order they are written. */
  function ReplacePunctuation(code: string): string {
    var s1 := ReplaceAll(code, "\U{201C}", "\"");
    var s2 := ReplaceAll(s1, "\U{201D}", "\"");
    var s3 := ReplaceAll(s2, "\U{2018}", "'");
    var s4 := ReplaceAll(s3, "\U{2019}", "'");
    var s5 := ReplaceAll(s4, "\U{FF0C}", ",");
    var s6 := ReplaceAll(s5, "\U{FF1A}", ":");
    var s7 := ReplaceAll(s6, "\U{FF1B}", ":");
    var s8 := ReplaceAll(s7, "\U{FF08}", "(");
    ReplaceAll(s8, "\U{FF09}", ")")
  }

  /** The replacement chain acts character by character. */
  lemma ReplacePunctuationIsCharMap(code: string)
    ensures |ReplacePunctuation(code)| == |code|
    ensures forall i :: 0 <= i < |code| ==>
      ReplacePunctuation(code)[i] == AsciiPunctuation(code[i])
  {
    ReplaceCharIsMap(code, '\U{201C}', '"');
    var s1 := MapChar(code, '\U{201C}', '"');
    ReplaceCharIsMap(s1, '\U{201D}', '"');
    var s2 := MapChar(s1, '\U{201D}', '"');
    ReplaceCharIsMap(s2, '\U{2018}', '\'');
    var s3 := MapChar(s2, '\U{2018}', '\'');
    ReplaceCharIsMap(s3, '\U{2019}', '\'');
    var s4 := MapChar(s3, '\U{2019}', '\'');
    ReplaceCharIsMap(s4, '\U{FF0C}', ',');
    var s5 := MapChar(s4, '\U{FF0C}', ',');
    ReplaceCharIsMap(s5, '\U{FF1A}', ':');
    var s6 := MapChar(s5, '\U{FF1A}', ':');
    ReplaceCharIsMap(s6, '\U{FF1B}', ':');
    var s7 := MapChar(s6, '\U{FF1B}', ':');
    ReplaceCharIsMap(s7, '\U{FF08}', '(');
    var s8 := MapChar(s7, '\U{FF08}', '(');
    ReplaceCharIsMap(s8, '\U{FF09}', ')');
  }

  /** `SanitizeVbaCode`: null and empty code come back as they are; otherwise every
      typographic character is replaced by its ASCII counterpart and every other
      character is kept, so the length is unchanged and no typographic character
      is left. */
  function SanitizeVbaCode(code: Option<string>): (r: Option<string>)
    ensures IsNullOrEmpty(code) ==> r == code
    ensures code.Some? ==> r.Some? && |r.value| == |code.value|
    ensures code.Some? ==> forall i :: 0 <= i < |code.value| ==>
      r.value[i] == AsciiPunctuation(code.value[i])
    ensures r.Some? ==> forall i :: 0 <= i < |r.value| ==> !IsTypographic(r.value[i])
  {
    if IsNullOrEmpty(code) then code
    else
      ReplacePunctuationIsCharMap(code.value);
      Some(ReplacePunctuation(code.value))
  }

  /** Sanitizing twice is sanitizing once. */
  lemma SanitizeIdempotent(code: Option<string>)
    ensures SanitizeVbaCode(SanitizeVbaCode(code)) == SanitizeVbaCode(code)
  {
    var r := SanitizeVbaCode(code);
    if r.Some? {
      var rr := SanitizeVbaCode(r);
      assert rr.value == r.value;
    }
  }

  // ---------------------------------------------------------------------------
  // Code fences, C# style: markers are removed wherever they occur
  // ---------------------------------------------------------------------------

  /** The Markdown code-fence marker. */
  const Fence: string := "```"

  /** If removing every fence leaves text starting with a backtick, the original
      started with one too. */
  lemma {:induction false} RemovedStartsWithTick(t: string)
    requires |ReplaceAll(t, Fence, "")| > 0 && ReplaceAll(t, Fence, "")[0] == '`'
    ensures |t| > 0 && t[0] == '`'
    decreases |t|
  {
    if |t| >= 3 && Fence <= t {
    } else if |t| >= 3 {
      assert ReplaceAll(t, Fence, "") == [t[0]] + ReplaceAll(t[1..], Fence, "");
    }
  }

  /** The same for two leading backticks. */
  lemma {:induction false} RemovedStartsWithTwoTicks(t: string)
    requires |ReplaceAll(t, Fence, "")| > 1
    requires ReplaceAll(t, Fence, "")[0] == '`' && ReplaceAll(t, Fence, "")[1] == '`'
    ensures |t| > 1 && t[0] == '`' && t[1] == '`'
    decreases |t|
  {
    if |t| >= 3 && Fence <= t {
    } else if |t| >= 3 {
      var rest := ReplaceAll(t[1..], Fence, "");
      assert ReplaceAll(t, Fence, "") == [t[0]] + rest;
      RemovedStartsWithTick(t[1..]);
    }
  }

  /** Removing every fence leaves no fence behind: a new one cannot form across
      the seam of a removed one. */
  lemma {:induction false} RemoveFencesLeavesNone(s: string)
    ensures !Contains(ReplaceAll(s, Fence, ""), Fence)
    decreases |s|
  {
    var r := ReplaceAll(s, Fence, "");
    if |s| < 3 {
      if Contains(r, Fence) {
        ContainsLength(r, Fence);
      }
    } else if Fence <= s {
      assert r == ReplaceAll(s[3..], Fence, "");
      RemoveFencesLeavesNone(s[3..]);
    } else {
      var rest := ReplaceAll(s[1..], Fence, "");
      RemoveFencesLeavesNone(s[1..]);
      assert r == [s[0]] + rest;
      assert r[1..] == rest;
      if Fence <= r {
        RemovedStartsWithTwoTicks(s[1..]);
      }
    }
  }

  /** A trimmed slice of text without a fence has no fence either. */
  lemma TrimKeepsNoFence(s: string)
    requires !Contains(s, Fence)
    ensures !Contains(Trim(s), Fence)
  {
    var i, j := TrimSlice(s);
    if Contains(Trim(s), Fence) {
      ContainsSlice(s, i, j, Fence);
    }
  }

  /** `content.Replace("```" + lang, "").Replace("```", "").Trim()`: both kinds of
      marker are removed wherever they occur, not only at the ends, and the result
      contains no fence at all. */
  function StripFences(content: string, lang: string): (r: string)
    ensures !Contains(r, Fence)
    ensures |r| <= |content|
  {
    var withoutLang := ReplaceAll(content, Fence + lang, "");
    var withoutFence := ReplaceAll(withoutLang, Fence, "");
    RemoveFencesLeavesNone(withoutLang);
    TrimKeepsNoFence(withoutFence);
    ReplaceAllShrinks(content, Fence + lang);
    ReplaceAllShrinks(withoutLang, Fence);
    Trim(withoutFence)
  }

  /** Removing a pattern never lengthens the text. */
  lemma {:induction false} ReplaceAllShrinks(s: string, pat: string)
    requires |pat| > 0
    ensures |ReplaceAll(s, pat, "")| <= |s|
    decreases |s|
  {
    if |s| >= |pat| {
      if pat <= s {
        ReplaceAllShrinks(s[|pat|..], pat);
      } else {
        ReplaceAllShrinks(s[1..], pat);
      }
    }
  }

  /** `CleanLLMOutput`: the fence strip used on generated VBA. */
  function CleanLLMOutput(content: string): (r: string)
    ensures !Contains(r, Fence)
  {
    StripFences(content, "vba")
  }

  /** The fence strip used on the fill reply before it is parsed as JSON. */
  function CleanJsonReply(content: string): (r: string)
    ensures !Contains(r, Fence)
  {
    StripFences(content, "json")
  }

  /** Stripping fences twice is stripping them once. */
  lemma StripFencesIdempotent(content: string, lang: string)
    ensures StripFences(StripFences(content, lang), lang) == StripFences(content, lang)
  {
    var t := StripFences(content, lang);
    if Contains(t, Fence + lang) {
      ContainsPrefix(t, Fence + lang, Fence);
    }
    ReplaceAllAbsent(t, Fence + lang, "");
    ReplaceAllAbsent(t, Fence, "");
    var inner := ReplaceAll(ReplaceAll(content, Fence + lang, ""), Fence, "");
    TrimIdempotent(inner);
  }

  /** Trimming a line break on either side of trimmed text gives the text back. */
  lemma TrimNewlines(m: string)
    requires IsTrimmed(m)
    ensures Trim("\n" + m + "\n") == m
  {
    assert "\n" + m + "\n" == "\n" + (m + "\n");
    if m == [] {
      assert "\n" + m + "\n" == "\n\n" + [];
      TrimStartExact("\n\n", []);
    } else {
      TrimStartExact("\n", m + "\n");
      TrimEndExact(m, "\n");
    }
  }

  /** A leading occurrence of the pattern is removed. */
  lemma ReplaceLeading(pat: string, rest: string)
    requires |pat| > 0
    ensures ReplaceAll(pat + rest, pat, "") == ReplaceAll(rest, pat, "")
  {
    assert (pat + rest)[|pat|..] == rest;
  }

  /** What the two removals leave of the closing fence. */
  lemma ClosingFenceRemoved(lang: string)
    ensures ReplaceAll(ReplaceAll(Fence, Fence + lang, ""), Fence, "") == []
  {
    ReplaceLeading(Fence, []);
    assert Fence + [] == Fence;
    if lang == [] {
      assert Fence + lang == Fence;
    }
  }

  /** A reply wrapped in a fenced block tagged `lang` comes back as the bare body
      when the body holds no backtick. */
  lemma StripFencesRoundTrip(m: string, lang: string)
    requires IsTrimmed(m)
    requires forall i :: 0 <= i < |m| ==> m[i] != '`'
    ensures StripFences(Fence + lang + "\n" + m + "\n" + Fence, lang) == m
  {
    var body := "\n" + m + "\n";
    var pat := Fence + lang;
    var s := Fence + lang + "\n" + m + "\n" + Fence;
    assert s == pat + (body + Fence);
    ReplaceLeading(pat, body + Fence);
    assert forall i :: 0 <= i < |body| ==> body[i] != '`';
    ReplaceAllSkip(body, Fence, pat, "");
    var tail := ReplaceAll(Fence, pat, "");
    ReplaceAllSkip(body, tail, Fence, "");
    ClosingFenceRemoved(lang);
    assert ReplaceAll(ReplaceAll(s, pat, ""), Fence, "") == body + [];
    assert body + [] == body;
    TrimNewlines(m);
  }

  // ---------------------------------------------------------------------------
  // Code fences, JavaScript style: only anchored markers are removed
  // ---------------------------------------------------------------------------

  /** `.replace(/^<marker>\s*\/, "")`: a leading marker and the white space after
      it are dropped. */
  function DropLeading(t: string, marker: string): (r: string)
    ensures |r| <= |t|
    ensures IsTrimmed(t) ==> IsTrimmed(r)
  {
    if marker <= t then TrimStart(t[|marker|..]) else t
  }

  /** `.replace(/\s*```$/, "")`: a trailing fence and the white space before it
      are dropped. */
  function DropTrailingFence(b: string): (r: string)
    ensures |r| <= |b|
    ensures IsTrimmed(b) ==> IsTrimmed(r)
  {
    if EndsWith(b, Fence) then TrimEnd(b[..|b| - 3]) else b
  }

  /** `content.trim()` followed by `.replace(/^```json\s*\/, "")`,
      `.replace(/^```\s*\/, "")` and `.replace(/\s*```$/, "")`: only markers at the
      ends are removed, and the result is trimmed. */
  function JsStripFence(content: string): (r: string)
    ensures |r| <= |content|
    ensures IsTrimmed(r)
  {
    DropTrailingFence(DropLeading(DropLeading(Trim(content), "```json"), Fence))
  }

  /** Text that is already trimmed and carries no leading or trailing fence is
      left unchanged. */
  lemma JsStripClean(s: string)
    requires IsTrimmed(s) && !(Fence <= s) && !EndsWith(s, Fence)
    ensures JsStripFence(s) == s
  {
    TrimStartOfTrimmed(s);
    TrimEndOfTrimmed(s);
    assert Trim(s) == s;
    assert DropLeading(s, "```json") == s;
    assert DropLeading(s, Fence) == s;
  }

  /** A block that starts and ends with a backtick is already trimmed. */
  lemma TrimFenced(s: string)
    requires |s| > 0 && s[0] == '`' && s[|s| - 1] == '`'
    ensures Trim(s) == s
  {
    TrimStartOfTrimmed(s);
    TrimEndOfTrimmed(s);
  }

  /** A body that does not start with a fence does not start with one once the
      closing line is appended. */
  lemma NoFenceBeforeClosing(m: string)
    requires !(Fence <= m)
    ensures !(Fence <= m + "\n```")
  {
    var a := m + "\n```";
    if |m| >= 3 {
      assert a[..3] == m[..3];
    } else {
      assert a[|m|] == '\n';
    }
  }

  /** The leading `json` fence and the line break after it are dropped. */
  lemma JsDropOpening(m: string)
    requires IsTrimmed(m) && m != [] && !(Fence <= m)
    ensures DropLeading(DropLeading(Trim("```json\n" + m + "\n```"), "```json"), Fence)
            == m + "\n```"
  {
    var s := "```json\n" + m + "\n```";
    TrimFenced(s);
    assert s[..7] == "```json";
    assert s[7..] == "\n" + (m + "\n```");
    var a := m + "\n```";
    TrimStartExact("\n", a);
    assert DropLeading(s, "```json") == a;
    NoFenceBeforeClosing(m);
  }

  /** The closing line break and fence are dropped. */
  lemma JsDropClosing(m: string)
    requires IsTrimmed(m)
    ensures DropTrailingFence(m + "\n```") == m
  {
    var a := m + "\n```";
    assert a[|a| - 3..] == Fence;
    assert a[..|a| - 3] == m + "\n";
    TrimEndExact(m, "\n");
  }

  /** An empty fenced block strips to nothing. */
  lemma JsStripEmptyBody()
    ensures JsStripFence("```json\n\n```") == []
  {
    var s := "```json\n\n```";
    TrimFenced(s);
    assert s[7..] == "\n\n" + "```";
    TrimStartExact("\n\n", "```");
    assert DropLeading(Trim(s), "```json") == "```";
    assert DropLeading("```", Fence) == [];
  }

  /** A body wrapped in a `json` fence comes back as it is, backticks inside it
      included, as long as it does not itself start with a fence. */
  lemma JsStripRoundTrip(m: string)
    requires IsTrimmed(m) && !(Fence <= m)
    ensures JsStripFence("```json\n" + m + "\n```") == m
  {
    var s := "```json\n" + m + "\n```";
    if m == [] {
      assert s == "```json\n\n```";
      JsStripEmptyBody();
    } else {
      var d := DropLeading(DropLeading(Trim(s), "```json"), Fence);
      assert d == m + "\n```" by { JsDropOpening(m); }
      assert DropTrailingFence(d) == m by { JsDropClosing(m); }
      assert JsStripFence(s) == DropTrailingFence(d);
    }
  }

  /** The two strippers disagree on a fenced body that holds a fence inside: the
      JavaScript one keeps it, the C# one removes it. */
  lemma FenceStrippersDiffer(m: string)
    requires IsTrimmed(m) && !(Fence <= m) && Contains(m, Fence)
    ensures JsStripFence("```json\n" + m + "\n```") == m
    ensures StripFences("```json\n" + m + "\n```", "json") != m
  {
    JsStripRoundTrip(m);
  }

  // ---------------------------------------------------------------------------
  // The `Sub\s+(\w+)` scan (regular expression with IgnoreCase)
  // ---------------------------------------------------------------------------

  /** `\w` over part of the Latin and Cyrillic scripts: ASCII letters, digits
      and the underscore, the letters of Latin-1 (with the feminine and
      masculine ordinals and the micro sign), Latin Extended-A and -B up to
      U+024F, the combining diacritical marks U+0300-U+036F and the Cyrillic
      letters U+0400-U+0481. */
  predicate IsWordChar(c: char) {
    'a' <= c <= 'z' || 'A' <= c <= 'Z' || '0' <= c <= '9' || c == '_'
    || c == '\U{00AA}' || c == '\U{00B5}' || c == '\U{00BA}'
    || ('\U{00C0}' <= c <= '\U{024F}' && c != '\U{00D7}' && c != '\U{00F7}')
    || '\U{0300}' <= c <= '\U{036F}' || '\U{0400}' <= c <= '\U{0481}'
  }

  /** A non-empty run of word characters, as `(\w+)` captures it. */
  predicate IsWordName(n: string) {
    |n| > 0 && forall i :: 0 <= i < |n| ==> IsWordChar(n[i])
  }

  /** The length of the word run at the start of `s` (greedy `\w*`). */
  function WordLen(s: string): (n: nat)
    ensures n <= |s| && (forall i :: 0 <= i < n ==> IsWordChar(s[i]))
    ensures n == |s| || !IsWordChar(s[n])
    decreases |s|
  {
    if |s| > 0 && IsWordChar(s[0]) then 1 + WordLen(s[1..]) else 0
  }

  /** `s` starts with "sub" in any letter case. */
  predicate SubKeyword(s: string) {
    |s| >= 3 && Lower(s[0]) == 's' && Lower(s[1]) == 'u' && Lower(s[2]) == 'b'
  }

  /** `Sub\s+(\w+)` matches at the start of `s`. White space is never a word
      character, so the greedy `\s+` never has to give characters back. */
  predicate SubMatch(s: string) {
    SubKeyword(s) && LeadingWhite(s[3..]) > 0 && WordLen(s[3 + LeadingWhite(s[3..])..]) > 0
  }

  /** Where the captured name starts, for a match at the start of `s`. */
  function NameStart(s: string): (k: nat)
    requires SubMatch(s)
    ensures 3 < k < |s|
  {
    3 + LeadingWhite(s[3..])
  }

  /** The captured group of a match at the start of `s`. */
  function SubMatchName(s: string): (n: string)
    requires SubMatch(s)
    ensures IsWordName(n)
  {
    var k := NameStart(s);
    s[k..k + WordLen(s[k..])]
  }

  /** The index just past a match at the start of `s`. */
  function SubMatchEnd(s: string): (e: nat)
    requires SubMatch(s)
    ensures 4 < e <= |s|
  {
    NameStart(s) + |SubMatchName(s)|
  }

  /** No match starts anywhere in `s`. */
  predicate NoSubMatch(s: string) {
    forall k :: 0 <= k < |s| ==> !SubMatch(s[k..])
  }

  /** `Regex.Match(code, @"Sub\s+(\w+)", IgnoreCase)`: the name captured by the
      leftmost match, or nothing when there is no match. */
  function FirstSubName(s: string): (r: Option<string>)
    ensures r.Some? ==> IsWordName(r.value)
    ensures r.None? <==> NoSubMatch(s)
    decreases |s|
  {
    if s == [] then None
    else if SubMatch(s) then
      assert s[0..] == s;
      Some(SubMatchName(s))
    else
      assert forall k :: 0 < k < |s| ==> s[k..] == s[1..][k - 1..];
      FirstSubName(s[1..])
  }

  /** The name found is the one of the leftmost match. */
  lemma {:induction false} FirstSubNameIsLeftmost(s: string) returns (k: nat)
    requires FirstSubName(s).Some?
    ensures k < |s| && SubMatch(s[k..]) && SubMatchName(s[k..]) == FirstSubName(s).value
    ensures forall j :: 0 <= j < k ==> !SubMatch(s[j..])
    decreases |s|
  {
    if SubMatch(s) {
      assert s[0..] == s;
      k := 0;
    } else {
      var k' := FirstSubNameIsLeftmost(s[1..]);
      k := k' + 1;
      assert s[k..] == s[1..][k'..];
      forall j | 0 <= j < k
        ensures !SubMatch(s[j..])
      {
        if j > 0 {
          assert s[j..] == s[1..][j - 1..];
        }
      }
    }
  }

  /** `Regex.Matches(code, @"Sub\s+(\w+)", IgnoreCase)`: the captured names of all
      matches, found left to right, each search resuming after the previous match. */
  function SubNames(s: string): (r: seq<string>)
    ensures forall i :: 0 <= i < |r| ==> IsWordName(r[i])
    decreases |s|
  {
    if s == [] then []
    else if SubMatch(s) then [SubMatchName(s)] + SubNames(s[SubMatchEnd(s)..])
    else SubNames(s[1..])
  }

  /** The entry point the run uses is the first name the listing shows. */
  lemma {:induction false} FirstSubNameHeadsSubNames(s: string)
    ensures FirstSubName(s).None? <==> SubNames(s) == []
    ensures FirstSubName(s).Some? ==> FirstSubName(s).value == SubNames(s)[0]
    decreases |s|
  {
    if s != [] && !SubMatch(s) {
      FirstSubNameHeadsSubNames(s[1..]);
    }
  }

  /** The name declared by `Sub <name>` followed by a non-word character (such as
      the `(` of the parameter list) is the entry point found. */
  lemma DeclaredNameFound(n: string, rest: string)
    requires IsWordName(n) && (rest == [] || !IsWordChar(rest[0]))
    ensures FirstSubName("Sub " + n + rest) == Some(n)
  {
    HeaderMatch(n, rest);
  }

  /** A procedure named with accented letters, `Sub ét()`, is found, as `\w`
      finds it. */
  lemma AccentedNameFound()
    ensures FirstSubName("Sub " + "\U{00E9}t" + "()") == Some("\U{00E9}t")
  {
    var n, rest := "\U{00E9}t", "()";
    assert IsWordName(n) by {
      assert IsWordChar(n[0]) && IsWordChar(n[1]);
    }
    assert !IsWordChar(rest[0]);
    DeclaredNameFound(n, rest);
  }

  /** A name is cut at its first letter outside the modelled `\w`: for
      `Sub Tệp()` the model finds `T`, where .NET finds `Tệp`. */
  lemma NameCutOutsideWordSet()
    ensures FirstSubName("Sub " + "T" + "\U{1EC7}p()") == Some("T")
  {
    var n, rest := "T", "\U{1EC7}p()";
    assert IsWordName(n) by {
      assert IsWordChar(n[0]);
    }
    assert !IsWordChar(rest[0]);
    DeclaredNameFound(n, rest);
  }

  /** The pattern matches a declaration header and captures exactly its name. */
  lemma HeaderMatch(n: string, rest: string)
    requires IsWordName(n) && (rest == [] || !IsWordChar(rest[0]))
    ensures SubMatch("Sub " + n + rest)
    ensures SubMatchName("Sub " + n + rest) == n
    ensures SubMatchEnd("Sub " + n + rest) == 4 + |n|
  {
    var s := "Sub " + n + rest;
    SubHeader(n, rest);
    var t := s[4..];
    assert WordLen(t) == |n| by {
      assert forall i :: 0 <= i < |n| ==> t[i] == n[i];
      assert |t| == |n| || t[|n|] == rest[0];
    }
    assert SubMatch(s);
    assert SubMatchName(s) == t[..|n|] == n;
  }

  /** The parse of a declaration header `Sub <name>`: the keyword, one white-space
      character, then the name and whatever follows it. */
  lemma SubHeader(name: string, rest: string)
    requires IsWordName(name)
    ensures SubKeyword("Sub " + name + rest)
    ensures LeadingWhite(("Sub " + name + rest)[3..]) == 1
    ensures ("Sub " + name + rest)[4..] == name + rest
  {
    var s := "Sub " + name + rest;
    assert s[3..] == " " + (name + rest);
    TrimStartExact(" ", name + rest);
    assert s[3..][1..] == name + rest;
  }

  /** A position where no `sub` keyword starts contributes nothing. */
  lemma SubNamesSkip(s: string)
    requires s != [] && !SubKeyword(s)
    ensures SubNames(s) == SubNames(s[1..])
  {
  }

  /** `Sub`, a line break and the next `Sub` form a match whose name is `Sub`. */
  lemma SubKeywordCaptured()
    ensures SubMatch("Sub\nSub B()")
    ensures SubMatchName("Sub\nSub B()") == "Sub" && SubMatchEnd("Sub\nSub B()") == 7
  {
    var u := "Sub\nSub B()";
    assert LeadingWhite(u[3..]) == 1 by {
      assert u[3..] == "\n" + "Sub B()";
      TrimStartExact("\n", "Sub B()");
    }
    assert WordLen(u[4..]) == 3 by {
      var w := u[4..];
      assert w[0] == 'S' && w[1] == 'u' && w[2] == 'b' && w[3] == ' ';
    }
    assert SubMatch(u);
    assert NameStart(u) == 4;
  }

  /** The tail left after that match holds no further match. */
  lemma NoNamesAfterCapture()
    ensures SubNames(" B()") == []
  {
    var v := " B()";
    SubNamesSkip(v);
    SubNamesSkip(v[1..]);
    SubNamesSkip(v[2..]);
    SubNamesSkip(v[3..]);
    assert v[1..][1..][1..][1..] == [];
  }

  /** The closing `End Sub` of one procedure followed by the next declaration is
      read as a match whose name is the next `Sub` keyword, and the next
      procedure's own name is lost. */
  lemma EndSubSwallowsNextDeclaration()
    ensures SubNames("End Sub\nSub B()") == ["Sub"]
  {
    var s := "End Sub\nSub B()";
    SubNamesSkip(s);
    SubNamesSkip(s[1..]);
    SubNamesSkip(s[2..]);
    SubNamesSkip(s[3..]);
    var u := s[1..][1..][1..][1..];
    assert u == "Sub\nSub B()";
    SubKeywordCaptured();
    assert u[7..] == " B()";
    NoNamesAfterCapture();
  }

  // ---------------------------------------------------------------------------
  // Procedure declarations, as the listings of a module's macros mean them
  // ---------------------------------------------------------------------------

  /** The `Sub` at position `i` ends or leaves a procedure: the word before it,
      separated by one white-space character, is `End` or `Exit` in any letter
      case. */
  predicate ClosingSub(s: string, i: nat)
    requires i <= |s|
  {
    i >= 1 && IsWhite(s[i - 1]) &&
    ((i >= 4 && EqualsIgnoreCase(s[i - 4..i - 1], "end")) ||
     (i >= 5 && EqualsIgnoreCase(s[i - 5..i - 1], "exit")))
  }

  /** A procedure is declared at position `i`: `Sub\s+(\w+)` matches there, the
      keyword is a whole word, and it is not the `Sub` of `End Sub` or
      `Exit Sub`. */
  predicate DeclarationAt(s: string, i: nat)
    requires i <= |s|
  {
    SubMatch(s[i..]) && (i == 0 || !IsWordChar(s[i - 1])) && !ClosingSub(s, i)
  }

  /** The declared procedure names from position `i` on, left to right. */
  function DeclaredNamesFrom(s: string, i: nat): (r: seq<string>)
    requires i <= |s|
    ensures forall k :: 0 <= k < |r| ==> IsWordName(r[k])
    decreases |s| - i
  {
    if i == |s| then []
    else if DeclarationAt(s, i) then [SubMatchName(s[i..])] + DeclaredNamesFrom(s, i + SubMatchEnd(s[i..]))
    else DeclaredNamesFrom(s, i + 1)
  }

  /** The names of the procedures a module declares: the listing the in-file
      macro lists are meant to show. */
  function DeclaredNames(s: string): seq<string> {
    DeclaredNamesFrom(s, 0)
  }

  /** Every match of the pattern from position `i` on is a declaration. */
  predicate OnlyDeclarationsFrom(s: string, i: nat)
    requires i <= |s|
  {
    forall j {:trigger DeclarationAt(s, j)} :: i <= j < |s| && SubMatch(s[j..]) ==> DeclarationAt(s, j)
  }

  /** Wherever every match of the pattern is a declaration, the declared names
      are exactly the names the pattern finds. */
  lemma {:induction false} DeclaredNamesAgreeFrom(s: string, i: nat)
    requires i <= |s| && OnlyDeclarationsFrom(s, i)
    ensures DeclaredNamesFrom(s, i) == SubNames(s[i..])
    decreases |s| - i
  {
    if i == |s| {
      DeclaredAtEnd(s);
    } else {
      var next := DeclaredStep(s, i);
      DeclaredNamesAgreeFrom(s, next);
    }
  }

  /** One step of the agreement: both listings resume at `next`, after the
      match at `i` or one character further when there is none. */
  lemma DeclaredStep(s: string, i: nat) returns (next: nat)
    requires i < |s| && OnlyDeclarationsFrom(s, i)
    ensures i < next <= |s| && OnlyDeclarationsFrom(s, next)
    ensures DeclaredNamesFrom(s, next) == SubNames(s[next..]) ==> DeclaredNamesFrom(s, i) == SubNames(s[i..])
  {
    if SubMatch(s[i..]) {
      var e := DeclaredAtMatch(s, i);
      next := i + e;
    } else {
      DeclaredAtNoMatch(s, i);
      next := i + 1;
    }
  }

  /** Both listings are empty at the end of the text. */
  lemma DeclaredAtEnd(s: string)
    ensures DeclaredNamesFrom(s, |s|) == [] && SubNames(s[|s|..]) == []
  {
    assert s[|s|..] == [];
  }

  /** One step of the agreement where the pattern matches: both listings take
      the match's name and resume at its end. */
  lemma DeclaredAtMatch(s: string, i: nat) returns (e: nat)
    requires i < |s| && OnlyDeclarationsFrom(s, i) && SubMatch(s[i..])
    ensures e == SubMatchEnd(s[i..]) && i + e <= |s|
    ensures OnlyDeclarationsFrom(s, i + e)
    ensures DeclaredNamesFrom(s, i + e) == SubNames(s[i + e..])
            ==> DeclaredNamesFrom(s, i) == SubNames(s[i..])
  {
    var t := s[i..];
    e := SubMatchEnd(t);
    OnlyDeclarationsLater(s, i, i + e);
    assert DeclarationAt(s, i);
    DeclaredUnfold(s, i);
    assert SubNames(t) == [SubMatchName(t)] + SubNames(s[i + e..]) by {
      assert t[e..] == s[i + e..];
    }
  }

  /** A declaration contributes its name; the scan resumes after it. */
  lemma DeclaredUnfold(s: string, i: nat)
    requires i < |s| && DeclarationAt(s, i)
    ensures DeclaredNamesFrom(s, i) == [SubMatchName(s[i..])] + DeclaredNamesFrom(s, i + SubMatchEnd(s[i..]))
  {
  }

  /** The restriction to declarations carries over to any later position. */
  lemma OnlyDeclarationsLater(s: string, i: nat, k: nat)
    requires i <= k <= |s| && OnlyDeclarationsFrom(s, i)
    ensures OnlyDeclarationsFrom(s, k)
  {
  }

  /** One step of the agreement where the pattern does not match. */
  lemma DeclaredAtNoMatch(s: string, i: nat)
    requires i < |s| && OnlyDeclarationsFrom(s, i) && !SubMatch(s[i..])
    ensures OnlyDeclarationsFrom(s, i + 1)
    ensures DeclaredNamesFrom(s, i + 1) == SubNames(s[i + 1..])
            ==> DeclaredNamesFrom(s, i) == SubNames(s[i..])
  {
    var t := s[i..];
    assert t[1..] == s[i + 1..];
  }

  lemma DeclaredNamesAgree(s: string)
    requires OnlyDeclarationsFrom(s, 0)
    ensures DeclaredNames(s) == SubNames(s)
  {
    DeclaredNamesAgreeFrom(s, 0);
    assert s[0..] == s;
  }

  /** A position where no `sub` keyword starts declares nothing. */
  lemma DeclaredSkip(s: string, i: nat)
    requires i < |s| && !SubKeyword(s[i..])
    ensures DeclaredNamesFrom(s, i) == DeclaredNamesFrom(s, i + 1)
  {
  }

  /** `End Sub` followed by the next declaration: the closing `Sub` is passed
      over and the next procedure's own name is listed. */
  lemma ClosingSubSkipped()
    ensures DeclaredNames("End Sub\nSub B()") == ["B"]
  {
    var s := "End Sub\nSub B()";
    ClosingSubHead(s);
    assert s[8..] == "Sub " + "B" + "()";
    DeclaredNameHeader(s);
    DeclaredSkip(s, 13);
    DeclaredSkip(s, 14);
  }

  /** A closing `Sub` declares nothing. */
  lemma ClosingSubPassed(s: string, i: nat)
    requires i < |s| && ClosingSub(s, i)
    ensures DeclaredNamesFrom(s, i) == DeclaredNamesFrom(s, i + 1)
  {
  }

  /** In that module nothing is declared before position 8: the `Sub` at 4 is
      the closing one. */
  lemma ClosingSubHead(s: string)
    requires s == "End Sub\nSub B()"
    ensures DeclaredNamesFrom(s, 0) == DeclaredNamesFrom(s, 8)
  {
    EndWordSkipped(s);
    assert DeclaredNamesFrom(s, 4) == DeclaredNamesFrom(s, 5) by {
      assert s[0..3] == "End" && IsWhite(s[3]);
      ClosingSubPassed(s, 4);
    }
    ClosingKeywordSkipped(s);
  }

  /** The word `End` and its separator declare nothing. */
  lemma EndWordSkipped(s: string)
    requires s == "End Sub\nSub B()"
    ensures DeclaredNamesFrom(s, 0) == DeclaredNamesFrom(s, 4)
  {
    DeclaredSkip(s, 0);
    DeclaredSkip(s, 1);
    DeclaredSkip(s, 2);
    DeclaredSkip(s, 3);
  }

  /** The rest of the closing `Sub` and the line break declare nothing. */
  lemma ClosingKeywordSkipped(s: string)
    requires s == "End Sub\nSub B()"
    ensures DeclaredNamesFrom(s, 5) == DeclaredNamesFrom(s, 8)
  {
    DeclaredSkip(s, 5);
    DeclaredSkip(s, 6);
    DeclaredSkip(s, 7);
  }

  /** The declaration `Sub B()` at position 8 of that module. */
  lemma DeclaredNameHeader(s: string)
    requires |s| == 15 && s[3] == ' ' && s[4] == 'S' && s[7] == '\n'
    requires s[8..] == "Sub " + "B" + "()"
    ensures DeclaredNamesFrom(s, 8) == ["B"] + DeclaredNamesFrom(s, 13)
  {
    var h := s[8..];
    assert SubMatch(h) && SubMatchName(h) == "B" && SubMatchEnd(h) == 5 by {
      HeaderMatch("B", "()");
    }
    assert !ClosingSub(s, 8) by {
      assert s[4..7][0] == 'S' && "end"[0] == 'e';
      assert s[3..7][0] == ' ' && "exit"[0] == 'e';
    }
    assert DeclarationAt(s, 8);
    DeclaredUnfold(s, 8);
  }

  // ---------------------------------------------------------------------------
  // Repair renaming: Regex.Replace(code, @"Sub\s+" + name, "Sub " + newName, IgnoreCase)
  // ---------------------------------------------------------------------------

  /** `Sub\s+<name>` matches, case-insensitively, at the start of `s`. The name is
      a captured `\w+`, so it holds no pattern syntax and starts with a character
      that is not white space. */
  predicate RenameMatch(s: string, name: string) {
    SubKeyword(s) && LeadingWhite(s[3..]) > 0 && 3 + LeadingWhite(s[3..]) + |name| <= |s|
    && EqualsIgnoreCase(s[3 + LeadingWhite(s[3..])..3 + LeadingWhite(s[3..]) + |name|], name)
  }

  /** Every match, left to right and without overlap, is replaced by
      `"Sub " + newName`; the rest of the text is copied. */
  function RenameSubs(s: string, name: string, newName: string): (r: string)
    requires IsWordName(name)
    decreases |s|
  {
    if s == [] then []
    else if RenameMatch(s, name) then
      "Sub " + newName + RenameSubs(s[RenameEnd(s, name)..], name, newName)
    else [s[0]] + RenameSubs(s[1..], name, newName)
  }

  /** Where a rename match at the start of `s` ends. */
  function RenameEnd(s: string, name: string): (e: nat)
    requires RenameMatch(s, name)
    ensures 4 + |name| <= e <= |s|
  {
    3 + LeadingWhite(s[3..]) + |name|
  }

  /** No `Sub\s+<name>` anywhere in `s`. */
  predicate NoRenameMatch(s: string, name: string) {
    forall k :: 0 <= k < |s| ==> !RenameMatch(s[k..], name)
  }

  /** Text without a match is left unchanged. */
  lemma {:induction false} RenameNoMatch(s: string, name: string, newName: string)
    requires IsWordName(name) && NoRenameMatch(s, name)
    ensures RenameSubs(s, name, newName) == s
    decreases |s|
  {
    if s != [] {
      assert s[0..] == s;
      assert forall k :: 0 <= k < |s| - 1 ==> s[1..][k..] == s[k + 1..];
      RenameNoMatch(s[1..], name, newName);
    }
  }

  /** The repair suffix. */
  const RepairSuffix: string := "_repair"

  /** `RepairMacro`'s rename: the declaration `Sub <name>` at the start of the fixed
      code becomes `Sub <name>_repair` and the rest is kept, provided the rest holds
      no other `Sub\s+<name>`. */
  lemma RepairRenamesDeclaration(name: string, rest: string)
    requires IsWordName(name) && NoRenameMatch(rest, name)
    ensures RenameSubs("Sub " + name + rest, name, name + RepairSuffix)
            == "Sub " + (name + RepairSuffix) + rest
  {
    var s := "Sub " + name + rest;
    var newName := name + RepairSuffix;
    assert RenameMatch(s, name) && s[RenameEnd(s, name)..] == rest by {
      RenameAtHeader(name, rest);
    }
    assert RenameSubs(s, name, newName) == "Sub " + newName + RenameSubs(rest, name, newName) by {
      RenameAtMatch(s, name, newName);
    }
    assert RenameSubs(rest, name, newName) == rest by {
      RenameNoMatch(rest, name, newName);
    }
  }

  /** A declaration header is a rename match for its own name, ending where the
      header does. */
  lemma RenameAtHeader(name: string, rest: string)
    requires IsWordName(name)
    ensures RenameMatch("Sub " + name + rest, name)
    ensures ("Sub " + name + rest)[RenameEnd("Sub " + name + rest, name)..] == rest
  {
    var s := "Sub " + name + rest;
    SubHeader(name, rest);
    assert s[4..4 + |name|] == name;
    assert RenameMatch(s, name);
    assert s[4 + |name|..] == rest;
  }

  /** A match at the start is replaced and the search resumes after it. */
  lemma RenameAtMatch(s: string, name: string, newName: string)
    requires IsWordName(name) && s != [] && RenameMatch(s, name)
    ensures RenameSubs(s, name, newName)
      == "Sub " + newName + RenameSubs(s[RenameEnd(s, name)..], name, newName)
  {
  }

  /** After the rename, the repaired code's entry point is `<name>_repair`. */
  lemma RepairedEntryPoint(name: string, rest: string)
    requires IsWordName(name) && NoRenameMatch(rest, name)
    requires rest == [] || !IsWordChar(rest[0])
    ensures FirstSubName(RenameSubs("Sub " + name + rest, name, name + RepairSuffix))
            == Some(name + RepairSuffix)
  {
    var repaired := name + RepairSuffix;
    assert RenameSubs("Sub " + name + rest, name, repaired) == "Sub " + repaired + rest by {
      RepairRenamesDeclaration(name, rest);
    }
    DeclaredNameFound(repaired, rest);
  }
}
