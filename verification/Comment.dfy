/**
 The sanitized pull-request comment: what the publisher checks and what the comment writer renders.
 */
module Comment {
  import opened Common
  import opened Json
  import opened TextOrder
  import JsonReader

  /** The validated scalars of the trusted contract. */
  datatype Binding = Binding(commentId: Text, repository: Text, runId: int, attempt: int, headSha: Text)

  const MAX_COMMENT_CHARACTERS := 65_536

  // ----- the sanitizer --------------------------------------------------------------------

  const AMP: Text := [38, 97, 109, 112, 59]                  // &amp;
  const LT: Text := [38, 108, 116, 59]                       // &lt;
  const GT: Text := [38, 103, 116, 59]                       // &gt;
  const QUOT: Text := [38, 113, 117, 111, 116, 59]           // &quot;
  const APOS: Text := [38, 35, 120, 50, 55, 59]              // &#x27;
  const AT: Text := [38, 35, 54, 52, 59, 0x200B]             // &#64; and a zero-width space

  /** `str.replace` of one character. */
  function Replace(t: Text, c: Code, text: Text): Text {
    if t == [] then [] else (if t[0] == c then text else [t[0]]) + Replace(t[1..], c, text)
  }

  /** `_sanitize_markdown`: `html.escape` replaces one character after the other, then the at-sign goes. */
  function Sanitize(t: Text): Text {
    Replace(Replace(Replace(Replace(Replace(Replace(t, 38, AMP), 60, LT), 62, GT), 34, QUOT), 39, APOS), 64, AT)
  }

  /** What becomes of one character. */
  function EscapeChar(c: Code): Text {
    if c == 38 then AMP else if c == 60 then LT else if c == 62 then GT
    else if c == 34 then QUOT else if c == 39 then APOS else if c == 64 then AT
    else [c]
  }

  function EscapeAll(t: Text): Text {
    if t == [] then [] else EscapeChar(t[0]) + EscapeAll(t[1..])
  }

  lemma {:induction false} ReplaceConcat(a: Text, b: Text, c: Code, text: Text)
    ensures Replace(a + b, c, text) == Replace(a, c, text) + Replace(b, c, text)
  {
    if a == [] {
      assert a + b == b;
    } else {
      assert (a + b)[0] == a[0] && (a + b)[1..] == a[1..] + b;
      ReplaceConcat(a[1..], b, c, text);
    }
  }

  lemma {:induction false} ReplaceNone(t: Text, c: Code, text: Text)
    requires c !in t
    ensures Replace(t, c, text) == t
  {
    if t != [] {
      ReplaceNone(t[1..], c, text);
    }
  }

  lemma ReplaceOne(c: Code, d: Code, text: Text)
    ensures Replace([d], c, text) == if c == d then text else [d]
  {
    assert Replace([d][1..], c, text) == [];
  }

  lemma {:induction false} SanitizeConcat(a: Text, b: Text)
    ensures Sanitize(a + b) == Sanitize(a) + Sanitize(b)
  {
    hide Replace;
    ReplaceConcat(a, b, 38, AMP);
    var a1, b1 := Replace(a, 38, AMP), Replace(b, 38, AMP);
    ReplaceConcat(a1, b1, 60, LT);
    var a2, b2 := Replace(a1, 60, LT), Replace(b1, 60, LT);
    ReplaceConcat(a2, b2, 62, GT);
    var a3, b3 := Replace(a2, 62, GT), Replace(b2, 62, GT);
    ReplaceConcat(a3, b3, 34, QUOT);
    var a4, b4 := Replace(a3, 34, QUOT), Replace(b3, 34, QUOT);
    ReplaceConcat(a4, b4, 39, APOS);
    ReplaceConcat(Replace(a4, 39, APOS), Replace(b4, 39, APOS), 64, AT);
  }

  /** The replacements from the second, third, ... on. */
  function From2(t: Text): Text { From3(Replace(t, 60, LT)) }
  function From3(t: Text): Text { From4(Replace(t, 62, GT)) }
  function From4(t: Text): Text { From5(Replace(t, 34, QUOT)) }
  function From5(t: Text): Text { From6(Replace(t, 39, APOS)) }
  function From6(t: Text): Text { Replace(t, 64, AT) }

  /** Text without the special characters after the ampersand stays as it is from any stage on. */
  lemma PlainStays(t: Text)
    requires 60 !in t && 62 !in t && 34 !in t && 39 !in t && 64 !in t
    ensures From2(t) == From3(t) == From4(t) == From5(t) == From6(t) == t
  {
    hide Replace;
    ReplaceNone(t, 60, LT);
    ReplaceNone(t, 62, GT);
    ReplaceNone(t, 34, QUOT);
    ReplaceNone(t, 39, APOS);
    ReplaceNone(t, 64, AT);
  }

  /** A single character passes the stages before its own. */
  lemma OnePasses(c: Code)
    ensures Sanitize([c]) == if c == 38 then From2(AMP) else From2([c])
    ensures From2([c]) == if c == 60 then From3(LT) else From3([c])
    ensures From3([c]) == if c == 62 then From4(GT) else From4([c])
    ensures From4([c]) == if c == 34 then From5(QUOT) else From5([c])
    ensures From5([c]) == if c == 39 then From6(APOS) else From6([c])
    ensures From6([c]) == if c == 64 then AT else [c]
  {
    hide Replace;
    ReplaceOne(38, c, AMP);
    ReplaceOne(60, c, LT);
    ReplaceOne(62, c, GT);
    ReplaceOne(34, c, QUOT);
    ReplaceOne(39, c, APOS);
    ReplaceOne(64, c, AT);
  }

  lemma EntitiesStay()
    ensures From2(AMP) == AMP && From3(LT) == LT && From4(GT) == GT && From5(QUOT) == QUOT && From6(APOS) == APOS
  {
    hide From2, From3, From4, From5, From6;
    PlainStays(AMP);
    PlainStays(LT);
    PlainStays(GT);
    PlainStays(QUOT);
    PlainStays(APOS);
  }

  /** No later replacement touches what an earlier one wrote. */
  lemma SanitizeOne(c: Code)
    ensures Sanitize([c]) == EscapeChar(c)
  {
    hide Sanitize, From2, From3, From4, From5, From6;
    OnePasses(c);
    EntitiesStay();
  }

  /** The staged replacements are one escape applied character by character. */
  lemma {:induction false} SanitizeIsEscape(t: Text)
    ensures Sanitize(t) == EscapeAll(t)
  {
    if t != [] {
      hide Sanitize, EscapeChar;
      assert t == [t[0]] + t[1..];
      SanitizeConcat([t[0]], t[1..]);
      SanitizeOne(t[0]);
      SanitizeIsEscape(t[1..]);
    }
  }

  // ----- what escaped text is -------------------------------------------------------------

  /** Reads one escaped character back and says how long it was. */
  function ReadOne(t: Text): (r: (Code, nat))
    requires t != []
    ensures 1 <= r.1 <= |t|
  {
    if AMP <= t then (38, |AMP|) else if LT <= t then (60, |LT|) else if GT <= t then (62, |GT|)
    else if QUOT <= t then (34, |QUOT|) else if APOS <= t then (39, |APOS|) else if AT <= t then (64, |AT|)
    else (t[0], 1)
  }

  function Unescape(t: Text): Text
    decreases |t|
  {
    if t == [] then [] else var r := ReadOne(t); [r.0] + Unescape(t[r.1..])
  }

  lemma ReadsEscaped(c: Code, rest: Text)
    ensures EscapeChar(c) + rest != [] && ReadOne(EscapeChar(c) + rest) == (c, |EscapeChar(c)|)
  {
    var e := EscapeChar(c);
    var t := e + rest;
    assert forall i :: 0 <= i < |e| ==> t[i] == e[i];
    assert e <= t;
    if c !in {38, 60, 62, 34, 39, 64} {
      assert t[0] == c;
    } else {
      assert t[1] == e[1] && (c in {39, 64} ==> t[2] == e[2]);
    }
  }

  predicate StartsWith(t: Text, word: string) { JsonReader.StartsWith(t, word) }

  /** What an HTML reader makes of a character reference: the named ones, and numeric ones of two decimal
      or two hexadecimal digits.  Any other character stands for itself. */
  function Reference(t: Text): (r: (Code, nat))
    requires t != []
    ensures 1 <= r.1 <= |t|
  {
    if StartsWith(t, "&amp;") then ('&' as int, 5)
    else if StartsWith(t, "&lt;") then ('<' as int, 4)
    else if StartsWith(t, "&gt;") then ('>' as int, 4)
    else if StartsWith(t, "&quot;") then ('\"' as int, 6)
    else if StartsWith(t, "&#x") && |t| >= 6 && t[5] == ';' as int && HexPair(t[3], t[4]).Some? then (HexPair(t[3], t[4]).value, 6)
    else if StartsWith(t, "&#") && |t| >= 5 && t[4] == ';' as int && AreDigits(t[2], t[3]) then
      ((t[2] - '0' as int) * 10 + (t[3] - '0' as int), 5)
    else (t[0], 1)
  }

  predicate AreDigits(c: Code, d: Code) { '0' as int <= c <= '9' as int && '0' as int <= d <= '9' as int }

  function HexPair(c: Code, d: Code): Option<Code> {
    match JsonReader.HexMeaning(c)
    case None => None
    case Some(high) =>
      match JsonReader.HexMeaning(d) case None => None case Some(low) => if high < 16 && low < 16 then Some(high * 16 + low) else None
  }

  /** The text a reader of the rendered page sees. */
  function Shown(t: Text): Text
    decreases |t|
  {
    if t == [] then [] else var r := Reference(t); [r.0] + Shown(t[r.1..])
  }

  const ZERO_WIDTH_SPACE: Code := 0x200B

  /** The text with a zero-width space after every at-sign. */
  function Guarded(t: Text): Text {
    if t == [] then []
    else (if t[0] == '@' as int then [t[0], ZERO_WIDTH_SPACE] else [t[0]]) + Guarded(t[1..])
  }

  lemma Begins(e: Text, rest: Text, word: string)
    requires |word| <= |e| && forall i :: 0 <= i < |word| ==> e[i] == word[i] as int
    ensures StartsWith(e + rest, word)
  {
  }

  lemma Differs(e: Text, rest: Text, word: string, k: nat)
    requires k < |e| && k < |word| && e[k] != word[k] as int
    ensures !StartsWith(e + rest, word)
  {
    assert (e + rest)[k] == e[k];
  }

  lemma NamedRead(rest: Text)
    ensures Reference(AMP + rest) == ('&' as int, 5)
    ensures Reference(LT + rest) == ('<' as int, 4)
    ensures Reference(GT + rest) == ('>' as int, 4)
    ensures Reference(QUOT + rest) == ('\"' as int, 6)
  {
    hide JsonReader.StartsWith, HexPair, AreDigits;
    Begins(AMP, rest, "&amp;");
    Differs(LT, rest, "&amp;", 1);
    Begins(LT, rest, "&lt;");
    Differs(GT, rest, "&amp;", 1);
    Differs(GT, rest, "&lt;", 1);
    Begins(GT, rest, "&gt;");
    Differs(QUOT, rest, "&amp;", 1);
    Differs(QUOT, rest, "&lt;", 1);
    Differs(QUOT, rest, "&gt;", 1);
    Begins(QUOT, rest, "&quot;");
  }

  /** A text that starts with none of the names. */
  lemma NotNamed(e: Text, rest: Text)
    requires e != [] && (e[0] != '&' as int || (|e| > 1 && e[1] == '#' as int))
    ensures !StartsWith(e + rest, "&amp;") && !StartsWith(e + rest, "&lt;") && !StartsWith(e + rest, "&gt;") && !StartsWith(e + rest, "&quot;")
    ensures e[0] != '&' as int ==> !StartsWith(e + rest, "&#x") && !StartsWith(e + rest, "&#")
  {
    var k := if e[0] != '&' as int then 0 else 1;
    Differs(e, rest, "&amp;", k);
    Differs(e, rest, "&lt;", k);
    Differs(e, rest, "&gt;", k);
    Differs(e, rest, "&quot;", k);
    if k == 0 {
      Differs(e, rest, "&#x", 0);
      Differs(e, rest, "&#", 0);
    }
  }

  lemma NumericRead(rest: Text)
    ensures Reference(APOS + rest) == ('\'' as int, 6)
    ensures Reference(AT + rest) == ('@' as int, 5)
  {
    NotNamed(APOS, rest);
    Begins(APOS, rest, "&#x");
    assert HexPair(APOS[3], APOS[4]) == Some('\'' as int);
    NotNamed(AT, rest);
    Differs(AT, rest, "&#x", 2);
    Begins(AT, rest, "&#");
    hide JsonReader.StartsWith, HexPair;
  }

  lemma ReferenceRead(c: Code, rest: Text)
    requires c != '@' as int
    ensures Shown(EscapeChar(c) + rest) == [c] + Shown(rest)
  {
    var e := EscapeChar(c);
    assert (e + rest)[|e|..] == rest;
    NamedRead(rest);
    NumericRead(rest);
    if |e| == 1 { NotNamed(e, rest); }
    hide JsonReader.StartsWith;
    assert Reference(e + rest) == (c, |e|);
  }

  lemma SpaceRead(rest: Text)
    ensures Shown([ZERO_WIDTH_SPACE] + rest) == [ZERO_WIDTH_SPACE] + Shown(rest)
  {
    var space := [ZERO_WIDTH_SPACE];
    NotNamed(space, rest);
    hide JsonReader.StartsWith;
    assert (space + rest)[1..] == rest;
    assert Reference(space + rest) == (ZERO_WIDTH_SPACE, 1);
  }

  lemma AtRead(rest: Text)
    ensures Shown(EscapeChar('@' as int) + rest) == ['@' as int, ZERO_WIDTH_SPACE] + Shown(rest)
  {
    hide Reference, Shown;
    AtTail(rest);
    NumericRead(rest);
    SpaceRead(rest);
    ShownStep(AT + rest);
    Together('@' as int, ZERO_WIDTH_SPACE, Shown(rest));
  }

  lemma AtTail(rest: Text)
    ensures (AT + rest)[5..] == [ZERO_WIDTH_SPACE] + rest
  {
  }

  lemma Together(c: Code, d: Code, t: Text)
    ensures [c] + ([d] + t) == [c, d] + t
  {
  }

  lemma ShownStep(t: Text)
    requires t != []
    ensures Shown(t) == [Reference(t).0] + Shown(t[Reference(t).1..])
  {
    hide Reference;
  }

  /** The rendered page shows the report's own text, but for a zero-width space after every at-sign. */
  lemma {:induction false} ShownIsText(t: Text)
    ensures Shown(Sanitize(t)) == Guarded(t)
  {
    SanitizeIsEscape(t);
    hide Sanitize, Reference, EscapeChar, Shown;
    if t == [] {
      NothingShown();
    } else {
      var rest := EscapeAll(t[1..]);
      SanitizeIsEscape(t[1..]);
      ShownIsText(t[1..]);
      if t[0] == '@' as int {
        AtRead(rest);
      } else {
        ReferenceRead(t[0], rest);
      }
    }
  }

  lemma NothingShown()
    ensures Shown(EscapeAll([])) == []
  {
  }

  /** The sanitizer can be undone: no two texts are rendered alike. */
  lemma {:induction false} UnescapeSanitize(t: Text)
    ensures Unescape(Sanitize(t)) == t
  {
    SanitizeIsEscape(t);
    hide Sanitize, ReadOne, EscapeChar;
    if t != [] {
      var rest := EscapeAll(t[1..]);
      SanitizeIsEscape(t[1..]);
      UnescapeSanitize(t[1..]);
      ReadsEscaped(t[0], rest);
      assert (EscapeChar(t[0]) + rest)[|EscapeChar(t[0])|..] == rest;
      assert [t[0]] + t[1..] == t;
    }
  }

  predicate IsSpecial(c: Code) { c == 60 || c == 62 || c == 34 || c == 39 || c == 64 }

  lemma EscapeCharIsPlain(c: Code)
    ensures forall i :: 0 <= i < |EscapeChar(c)| ==> !IsSpecial(EscapeChar(c)[i])
  {
  }

  /** Sanitized text has no raw angle bracket, quote or at-sign, so it opens no tag, no comment and no
      mention, and cannot repeat the marker. */
  lemma {:induction false} NoRawCharacters(t: Text)
    ensures forall i :: 0 <= i < |Sanitize(t)| ==> !IsSpecial(Sanitize(t)[i])
  {
    SanitizeIsEscape(t);
    hide Sanitize, EscapeChar, IsSpecial;
    if t != [] {
      NoRawCharacters(t[1..]);
      SanitizeIsEscape(t[1..]);
      EscapeCharIsPlain(t[0]);
    }
  }

  // ----- trailing whitespace --------------------------------------------------------------

  /** What `str.isspace` accepts and `str.strip` removes. */
  predicate IsSpace(c: Code) {
    || 9 <= c <= 13 || 28 <= c <= 32 || c == 0x85 || c == 0xA0 || c == 0x1680 || 0x2000 <= c <= 0x200A
    || c == 0x2028 || c == 0x2029 || c == 0x202F || c == 0x205F || c == 0x3000
  }

  predicate IsBlank(t: Text) { forall i :: 0 <= i < |t| ==> IsSpace(t[i]) }

  function StripEnd(t: Text): Text {
    if t != [] && IsSpace(t[|t| - 1]) then StripEnd(t[..|t| - 1]) else t
  }

  lemma {:induction false} StripBlank(head: Text, t: Text)
    requires IsBlank(t)
    ensures StripEnd(head + t) == StripEnd(head) && StripEnd(t) == []
  {
    hide IsSpace;
    if t == [] {
      assert head + t == head;
    } else {
      assert (head + t)[..|head + t| - 1] == head + t[..|t| - 1] && (head + t)[|head + t| - 1] == t[|t| - 1];
      StripBlank(head, t[..|t| - 1]);
    }
  }

  lemma {:induction false} StripKeepsHead(head: Text, t: Text)
    requires !IsBlank(t)
    ensures StripEnd(head + t) == head + StripEnd(t)
  {
    hide IsSpace;
    var last := t[|t| - 1];
    assert (head + t)[..|head + t| - 1] == head + t[..|t| - 1] && (head + t)[|head + t| - 1] == last;
    if IsSpace(last) {
      StripKeepsHead(head, t[..|t| - 1]);
    }
  }

  lemma EscapeCharSpace(c: Code)
    ensures IsBlank(EscapeChar(c)) <==> IsSpace(c)
  {
    if c in {38, 60, 62, 34, 39, 64} {
      assert !IsSpace(EscapeChar(c)[0]);
    } else {
      assert EscapeChar(c)[0] == c;
    }
  }

  /** Sanitized text is blank exactly when the text is. */
  lemma {:induction false} SanitizeBlank(t: Text)
    ensures IsBlank(Sanitize(t)) <==> IsBlank(t)
  {
    SanitizeIsEscape(t);
    hide Sanitize, EscapeChar, IsSpace;
    if t != [] {
      SanitizeBlank(t[1..]);
      SanitizeIsEscape(t[1..]);
      EscapeCharSpace(t[0]);
      BlankConcat(EscapeChar(t[0]), EscapeAll(t[1..]));
      BlankConcat([t[0]], t[1..]);
      assert [t[0]] + t[1..] == t;
    }
  }

  lemma BlankConcat(a: Text, b: Text)
    ensures IsBlank(a + b) <==> IsBlank(a) && IsBlank(b)
  {
    var t := a + b;
    assert forall i :: 0 <= i < |a| ==> t[i] == a[i];
    assert forall i :: 0 <= i < |b| ==> t[|a| + i] == b[i];
  }

  // ----- publisher and writer -------------------------------------------------------------

  const TWO_LINES: Text := [10, 10]
  const CLOSE: Text := [41]      // the parenthesis that ends the run link

  function Marker(commentId: Text): Text { T("<!-- pcbex-hardware-ci:") + commentId + T(" -->") }

  /** The banner up to the parenthesis that closes the run link. */
  function BannerText(b: Binding, lower: Text -> Text): Text {
    T("<!-- pcbex trusted publisher: ") + T("run_id=") + IntText(b.runId) + T(" run_attempt=") + IntText(b.attempt)
    + T(" head_sha=") + lower(b.headSha) + T(" -->") + TWO_LINES
    + T("> **pcbex provenance:** ") + T("unprivileged PR CI report ") + T("for commit `") + lower(b.headSha) + T("` from run ")
    + T("[`") + IntText(b.runId) + T("` attempt `") + IntText(b.attempt) + T("`](https://github.com/") + b.repository
    + T("/actions/runs/") + IntText(b.runId)
  }

  /** `_provenance_banner`. */
  function Banner(b: Binding, lower: Text -> Text): Text { BannerText(b, lower) + CLOSE + TWO_LINES }

  /** `_comment_body`: checks the length of one rendering and returns the Markdown for the writer. */
  function CommentBody(b: Binding, markdown: Text, lower: Text -> Text): Option<Text> {
    var sanitized := Sanitize(markdown);
    if |Rendered(b, markdown, lower)| > MAX_COMMENT_CHARACTERS then None else Some(Banner(b, lower) + sanitized)
  }

  /** The text whose length the publisher checks. */
  function Rendered(b: Binding, markdown: Text, lower: Text -> Text): Text {
    Marker(b.commentId) + TWO_LINES + (Banner(b, lower) + StripEnd(Sanitize(markdown))) + [10]
  }

  /** The text the writer makes of its Markdown. */
  function Written(commentId: Text, markdown: Text): Text {
    Marker(commentId) + TWO_LINES + StripEnd(markdown) + [10]
  }

  /** `render_body`, for an acceptable comment id. */
  function RenderBody(commentId: Text, markdown: Text): Option<Text> {
    if IsBlank(markdown) || |Written(commentId, markdown)| > MAX_COMMENT_CHARACTERS then None
    else Some(Written(commentId, markdown))
  }

  lemma BannerIsNotBlank(b: Binding, lower: Text -> Text, sanitized: Text)
    ensures !IsBlank(Banner(b, lower) + sanitized)
    ensures StripEnd(Banner(b, lower)) == BannerText(b, lower) + CLOSE
  {
    hide BannerText;
    var head := BannerText(b, lower) + CLOSE;
    assert (Banner(b, lower) + sanitized)[|head| - 1] == 41;
    assert IsBlank(TWO_LINES);
    StripBlank(head, TWO_LINES);
    assert head[|head| - 1] == 41;
  }

  /** For text that is not blank the publisher checks exactly the comment that is written; for blank
      text it checks two characters more, the empty line after the banner. */
  lemma CheckedIsWritten(b: Binding, markdown: Text, lower: Text -> Text)
    ensures var written := Written(b.commentId, Banner(b, lower) + Sanitize(markdown));
      && (!IsBlank(markdown) ==> Rendered(b, markdown, lower) == written)
      && (IsBlank(markdown) ==> |Rendered(b, markdown, lower)| == |written| + 2)
  {
    SanitizeBlank(markdown);
    BannerIsNotBlank(b, lower, Sanitize(markdown));
    hide Sanitize, Marker, BannerText, IsSpace, IsBlank, StripEnd;
    if IsBlank(markdown) {
      StripBlank(Banner(b, lower), Sanitize(markdown));
    } else {
      StripKeepsHead(Banner(b, lower), Sanitize(markdown));
    }
  }

  /** The writer never refuses what the publisher accepted, and what the publisher refuses is too long for
      the writer too, unless the text is blank and the comment is within two characters of the limit. */
  lemma WriterAgrees(b: Binding, markdown: Text, lower: Text -> Text)
    ensures var body := CommentBody(b, markdown, lower);
            var written := RenderBody(b.commentId, Banner(b, lower) + Sanitize(markdown));
      && (body.Some? ==> RenderBody(b.commentId, body.value).Some?)
      && (body.None? && written.Some? <==>
            IsBlank(markdown) && |Rendered(b, markdown, lower)| - 2 <= MAX_COMMENT_CHARACTERS < |Rendered(b, markdown, lower)|)
  {
    CheckedIsWritten(b, markdown, lower);
    BannerIsNotBlank(b, lower, Sanitize(markdown));
    hide Sanitize, Rendered, Written, Banner, IsBlank;
  }
}
