/**
 * The helpers of the browser script that can be stated on values: the
 * sidebar name truncation (`truncateChatName`), the fenced-code half of
 * `formatAIText` (extraction into placeholders, HTML escaping and
 * reinsertion), the rule that hides the feedback buttons on automatic
 * messages (`addTypewriterBubble`) and the bubbles `selectChat` draws for
 * the blocks of a chat.
 *
 * JavaScript strings count UTF-16 code units; here a string is a sequence
 * of code points, which agrees for every character outside the astral
 * planes.
 */
module Frontend {
  import opened Wrappers
  import opened Strings
  import opened Chats
  import opened Pipeline

  // ----- truncateChatName -----

  const DefaultMaxLen: int := 40

  /** `s.slice(0, end)`: a negative end counts from the end of the string, and both ends are clamped. */
  function SliceFromStart(s: string, end: int): (r: string)
    ensures |r| <= |s| && r == s[..|r|]
  {
    if end < 0 then Take(s, if |s| + end > 0 then |s| + end else 0) else Take(s, end)
  }

  /** `truncateChatName(name, maxlen)`. */
  function TruncateChatName(name: string, maxlen: int): (r: string)
    ensures |name| <= maxlen ==> r == name
    ensures |name| > maxlen >= 3 ==> |r| == maxlen && r == name[..maxlen - 3] + "..."
    ensures |name| > maxlen ==> 3 <= |r| <= |name| + 3 && r[|r| - 3..] == "..." && r[..|r| - 3] == name[..|r| - 3]
  {
    if |name| > maxlen then
      var head := SliceFromStart(name, maxlen - 3);
      assert |head| <= |name|;
      var r := head + "...";
      assert r[..|r| - 3] == head && r[|r| - 3..] == "...";
      r
    else name
  }

  // ----- formatAIText: fenced code -----

  /** A stored fenced block: its code and its class (`language-<lang>`, or empty without a language). */
  datatype CodeBlock = CodeBlock(code: string, lang: string)

  predicate IsLangChar(c: char) {
    ('a' <= c <= 'z') || ('A' <= c <= 'Z') || ('0' <= c <= '9')
  }

  /** End of the run of `[a-zA-Z0-9]` starting at `k`. */
  function LangEnd(s: string, k: nat): (r: nat)
    requires k <= |s|
    decreases |s| - k
    ensures k <= r <= |s|
    ensures forall j :: k <= j < r ==> IsLangChar(s[j])
    ensures r == |s| || !IsLangChar(s[r])
  {
    if k < |s| && IsLangChar(s[k]) then LangEnd(s, k + 1) else k
  }

  /** A match of ```` ```lang\ncode``` ````: the language, the code, and the index after the closing fence. */
  datatype Fence = Fence(lang: string, code: string, end: nat)

  /** The text up to the first fence from `from` on contains no fence. */
  lemma NoFenceBefore(s: string, from: nat, c: nat)
    requires from <= c <= |s|
    requires forall k :: from <= k < c ==> !OccursAt(s, "```", k)
    ensures !Contains(s[from..c], "```")
  {
    var code := s[from..c];
    forall j | 0 <= j <= |code| ensures !OccursAt(code, "```", j) {
      if j + 3 <= |code| {
        var w, v := code[j..j + 3], s[from + j..from + j + 3];
        assert |w| == |v| && forall m :: 0 <= m < 3 ==> w[m] == v[m];
        assert w == v;
        assert !OccursAt(s, "```", from + j);
      }
    }
  }

  /**
   * The match of `` /```([a-zA-Z0-9]*)\n([\s\S]*?)```/ `` starting at `p`:
   * a fence, the longest run of language characters, a line break, and the
   * code up to the first closing fence after it.
   */
  function FenceAt(s: string, p: nat): (r: Option<Fence>)
    ensures r.Some? ==> p + 4 <= r.value.end <= |s|
    ensures r.Some? ==> !Contains(r.value.code, "```")
  {
    if OccursAt(s, "```", p) then
      var q := LangEnd(s, p + 3);
      if q < |s| && s[q] == '\n' then
        match IndexFrom(s, "```", q + 1)
        case Some(c) =>
          NoFenceBefore(s, q + 1, c);
          Some(Fence(s[p + 3..q], s[q + 1..c], c + 3))
        case None => None
      else None
    else None
  }

  /** `lang ? 'language-' + lang : ''`. */
  function LangClass(lang: string): string {
    if lang != "" then "language-" + lang else ""
  }

  /** The placeholder that stands for the `i`-th block: `[[CODEBLOCK_i]]`. */
  function Placeholder(i: nat): string {
    "[[CODEBLOCK_" + NatToString(i) + "]]"
  }

  /**
   * The global replace of the fence pattern from `pos` on, with `n` blocks
   * already stored: the text with each fence turned into its placeholder,
   * and the blocks in order.
   */
  function ExtractFrom(s: string, pos: nat, n: nat): (r: (string, seq<CodeBlock>))
    decreases |s| - pos
  {
    if pos >= |s| then ("", [])
    else match FenceAt(s, pos)
      case Some(f) =>
        var rest := ExtractFrom(s, f.end, n + 1);
        (Placeholder(n) + rest.0, [CodeBlock(f.code, LangClass(f.lang))] + rest.1)
      case None =>
        var rest := ExtractFrom(s, pos + 1, n);
        ([s[pos]] + rest.0, rest.1)
  }

  /**
   * Step 1 of `formatAIText`: replaces each fenced block by its
   * placeholder and pushes it onto `blocks`.
   */
  method ExtractCodeBlocks(text: string) returns (out: string, blocks: seq<CodeBlock>)
    ensures (out, blocks) == ExtractFrom(text, 0, 0)
  {
    var pos := 0;
    out, blocks := "", [];
    ghost var whole := ExtractFrom(text, 0, 0);
    assert whole.0 == out + whole.0 && whole.1 == blocks + whole.1;
    while pos < |text|
      invariant pos <= |text|
      invariant whole.0 == out + ExtractFrom(text, pos, |blocks|).0
      invariant whole.1 == blocks + ExtractFrom(text, pos, |blocks|).1
      decreases |text| - pos
    {
      var fence := FenceAt(text, pos);
      ghost var here := ExtractFrom(text, pos, |blocks|);
      if fence.Some? {
        var f := fence.value;
        var b := CodeBlock(f.code, LangClass(f.lang));
        ghost var next := ExtractFrom(text, f.end, |blocks| + 1);
        assert here.0 == Placeholder(|blocks|) + next.0 && here.1 == [b] + next.1;
        assert out + here.0 == (out + Placeholder(|blocks|)) + next.0;
        assert blocks + here.1 == (blocks + [b]) + next.1;
        out := out + Placeholder(|blocks|);
        blocks := blocks + [b];
        pos := f.end;
      } else {
        ghost var next := ExtractFrom(text, pos + 1, |blocks|);
        assert here.0 == [text[pos]] + next.0 && here.1 == next.1;
        assert out + here.0 == (out + [text[pos]]) + next.0;
        out := out + [text[pos]];
        pos := pos + 1;
      }
    }
    assert ExtractFrom(text, pos, |blocks|) == ("", []);
    assert out + "" == out && blocks + [] == blocks;
  }

  /** Every stored block's code is free of fences, since the code stops at the first closing one. */
  lemma {:induction false} ExtractedCodeHasNoFence(s: string, pos: nat, n: nat)
    ensures forall b :: b in ExtractFrom(s, pos, n).1 ==> !Contains(b.code, "```")
    decreases |s| - pos
  {
    if pos < |s| {
      match FenceAt(s, pos)
      case Some(f) => ExtractedCodeHasNoFence(s, f.end, n + 1);
      case None => ExtractedCodeHasNoFence(s, pos + 1, n);
    }
  }

  /** Text without a fence is left as it is, and no block is stored. */
  lemma {:induction false} NoFenceUnchanged(s: string, pos: nat, n: nat)
    requires pos <= |s|
    requires forall k :: pos <= k ==> !OccursAt(s, "```", k)
    ensures ExtractFrom(s, pos, n) == (s[pos..], [])
    decreases |s| - pos
  {
    if pos < |s| {
      NoFenceUnchanged(s, pos + 1, n);
      assert !OccursAt(s, "```", pos);
      assert FenceAt(s, pos).None?;
      assert ExtractFrom(s, pos, n) == ([s[pos]] + s[pos + 1..], []);
      assert s[pos..] == [s[pos]] + s[pos + 1..];
    } else {
      assert s[pos..] == [];
    }
  }

  // ----- escaping -----

  /** `s.replace(/c/g, rep)`. */
  function ReplaceAll(s: string, c: char, rep: string): string {
    if s == [] then [] else ReplaceChar(s[0], c, rep) + ReplaceAll(s[1..], c, rep)
  }

  function ReplaceChar(x: char, c: char, rep: string): string {
    if x == c then rep else [x]
  }

  /** The escaping of the code, in the script's order: `&` first, then `<`, then `>`. */
  function Escape(code: string): string {
    ReplaceAll(ReplaceAll(ReplaceAll(code, '&', "&amp;"), '<', "&lt;"), '>', "&gt;")
  }

  function EscapeChar(c: char): string {
    if c == '&' then "&amp;" else if c == '<' then "&lt;" else if c == '>' then "&gt;" else [c]
  }

  /** Each character escaped on its own. */
  function EscapeEach(s: string): string {
    if s == [] then [] else EscapeChar(s[0]) + EscapeEach(s[1..])
  }

  lemma ReplaceAllCons(x: char, t: string, c: char, rep: string)
    ensures ReplaceAll([x] + t, c, rep) == ReplaceChar(x, c, rep) + ReplaceAll(t, c, rep)
  {
    assert ([x] + t)[0] == x && ([x] + t)[1..] == t;
  }

  lemma {:induction false} ReplaceAllConcat(a: string, b: string, c: char, rep: string)
    ensures ReplaceAll(a + b, c, rep) == ReplaceAll(a, c, rep) + ReplaceAll(b, c, rep)
  {
    if a == [] {
      assert a + b == b;
    } else {
      var x, t := a[0], a[1..];
      ReplaceAllConcat(t, b, c, rep);
      assert a == [x] + t;
      ConcatAssoc([x], t, b);
      ReplaceAllCons(x, t + b, c, rep);
      ReplaceAllCons(x, t, c, rep);
      ConcatAssoc(ReplaceChar(x, c, rep), ReplaceAll(t, c, rep), ReplaceAll(b, c, rep));
    }
  }

  lemma ConcatAssoc(x: string, y: string, z: string)
    ensures x + (y + z) == (x + y) + z
  {
  }

  lemma {:induction false} ReplaceAbsent(s: string, c: char, rep: string)
    requires forall i :: 0 <= i < |s| ==> s[i] != c
    ensures ReplaceAll(s, c, rep) == s
  {
    if s != [] {
      ReplaceAbsent(s[1..], c, rep);
      assert s == [s[0]] + s[1..];
    }
  }

  lemma ReplaceSingle(x: char, c: char, rep: string)
    ensures ReplaceAll([x], c, rep) == ReplaceChar(x, c, rep)
  {
    assert [x][1..] == [];
  }

  /** The three passes distribute over concatenation. */
  lemma EscapeConcat(a: string, b: string)
    ensures Escape(a + b) == Escape(a) + Escape(b)
  {
    ReplaceAllConcat(a, b, '&', "&amp;");
    var a1, b1 := ReplaceAll(a, '&', "&amp;"), ReplaceAll(b, '&', "&amp;");
    ReplaceAllConcat(a1, b1, '<', "&lt;");
    ReplaceAllConcat(ReplaceAll(a1, '<', "&lt;"), ReplaceAll(b1, '<', "&lt;"), '>', "&gt;");
  }

  /** One character goes through the three passes as `EscapeChar` says. */
  lemma EscapeOne(c: char)
    ensures Escape([c]) == EscapeChar(c)
  {
    ReplaceSingle(c, '&', "&amp;");
    if c == '&' {
      ReplaceAbsent("&amp;", '<', "&lt;");
      ReplaceAbsent("&amp;", '>', "&gt;");
    } else if c == '<' {
      ReplaceSingle(c, '<', "&lt;");
      ReplaceAbsent("&lt;", '>', "&gt;");
    } else {
      ReplaceSingle(c, '<', "&lt;");
      ReplaceSingle(c, '>', "&gt;");
    }
  }

  /**
   * Because `&` is replaced first, no entity written by a later pass is
   * escaped again: the three passes escape each character once.
   */
  lemma {:induction false} EscapeIsEach(s: string)
    ensures Escape(s) == EscapeEach(s)
  {
    if s != [] {
      assert s == [s[0]] + s[1..];
      EscapeConcat([s[0]], s[1..]);
      EscapeOne(s[0]);
      EscapeIsEach(s[1..]);
    }
  }

  /** Decoding `&lt;`, `&gt;` and `&amp;`, left to right. */
  function Unescape(s: string): string
    decreases |s|
  {
    if s == [] then []
    else if StartsWith(s, "&lt;") then "<" + Unescape(s[4..])
    else if StartsWith(s, "&gt;") then ">" + Unescape(s[4..])
    else if StartsWith(s, "&amp;") then "&" + Unescape(s[5..])
    else [s[0]] + Unescape(s[1..])
  }

  lemma SplitAt(p: string, rest: string)
    ensures (p + rest)[..|p|] == p && (p + rest)[|p|..] == rest
  {
  }

  lemma {:induction false} UnescapeEach(s: string)
    ensures Unescape(EscapeEach(s)) == s
  {
    if s != [] {
      UnescapeEach(s[1..]);
      var e, rest := EscapeChar(s[0]), EscapeEach(s[1..]);
      var t := e + rest;
      assert EscapeEach(s) == t;
      assert s == [s[0]] + s[1..];
      SplitAt(e, rest);
      if s[0] == '&' {
        assert t[1] == 'a';
        assert !StartsWith(t, "&lt;") && !StartsWith(t, "&gt;") by {
          assert |t| >= 4 ==> t[..4][1] == t[1];
        }
        assert StartsWith(t, "&amp;") && t[5..] == rest;
      } else if s[0] == '<' {
        assert StartsWith(t, "&lt;") && t[4..] == rest;
      } else if s[0] == '>' {
        assert t[1] == 'g';
        assert !StartsWith(t, "&lt;") by {
          assert t[..4][1] == t[1];
        }
        assert StartsWith(t, "&gt;") && t[4..] == rest;
      } else {
        assert t[0] == s[0] && t[1..] == rest;
        assert !StartsWith(t, "&lt;") && !StartsWith(t, "&gt;") && !StartsWith(t, "&amp;") by {
          assert |t| >= 4 ==> t[..4][0] == t[0];
          assert |t| >= 5 ==> t[..5][0] == t[0];
        }
      }
    }
  }

  /** Decoding the escaped code gives the code back exactly. */
  lemma EscapeRoundTrip(code: string)
    ensures Unescape(Escape(code)) == code
  {
    EscapeIsEach(code);
    UnescapeEach(code);
  }

  /** The escaped code contains no `<` and no `>`. */
  lemma {:induction false} EscapedHasNoAngles(code: string)
    ensures forall i :: 0 <= i < |Escape(code)| ==> Escape(code)[i] != '<' && Escape(code)[i] != '>'
  {
    EscapeIsEach(code);
    EachHasNoAngles(code);
  }

  lemma {:induction false} EachHasNoAngles(s: string)
    ensures forall i :: 0 <= i < |EscapeEach(s)| ==> EscapeEach(s)[i] != '<' && EscapeEach(s)[i] != '>'
  {
    if s != [] {
      EachHasNoAngles(s[1..]);
      var e, rest := EscapeChar(s[0]), EscapeEach(s[1..]);
      forall i | 0 <= i < |e + rest| ensures (e + rest)[i] != '<' && (e + rest)[i] != '>' {
        if i >= |e| {
          assert (e + rest)[i] == rest[i - |e|];
        }
      }
    }
  }

  // ----- reinsertion -----

  /** End of the run of digits starting at `k`. */
  function DigitsEnd(s: string, k: nat): (r: nat)
    requires k <= |s|
    decreases |s| - k
    ensures k <= r <= |s|
    ensures forall j :: k <= j < r ==> '0' <= s[j] <= '9'
    ensures r == |s| || !('0' <= s[r] <= '9')
  {
    if k < |s| && '0' <= s[k] <= '9' then DigitsEnd(s, k + 1) else k
  }

  const PlaceholderPrefix: string := "[[CODEBLOCK_"

  /** The match of `/\[\[CODEBLOCK_(\d+)\]\]/` at `p`: the index it names and the index after it. */
  function PlaceholderAt(s: string, p: nat): (r: Option<(nat, nat)>)
    ensures r.Some? ==> p < r.value.1 <= |s|
  {
    if OccursAt(s, PlaceholderPrefix, p) then
      var q := DigitsEnd(s, p + 12);
      if q > p + 12 && OccursAt(s, "]]", q) then Some((DigitsValue(s[p + 12..q]), q + 2)) else None
    else None
  }

  /** `codeBlocks[i] || { code: '', lang: '' }`. */
  function BlockAt(blocks: seq<CodeBlock>, i: nat): CodeBlock {
    if i < |blocks| then blocks[i] else CodeBlock("", "")
  }

  /** The element a block becomes. */
  function CodeHtml(b: CodeBlock): string {
    "<pre><code class=\"" + b.lang + "\">" + Escape(b.code) + "</code></pre>"
  }

  /** Step 3 of `formatAIText`: each placeholder from `pos` on replaced by its block's element. */
  function ReinsertFrom(s: string, pos: nat, blocks: seq<CodeBlock>): string
    decreases |s| - pos
  {
    if pos >= |s| then ""
    else match PlaceholderAt(s, pos)
      case Some((i, e)) => CodeHtml(BlockAt(blocks, i)) + ReinsertFrom(s, e, blocks)
      case None => [s[pos]] + ReinsertFrom(s, pos + 1, blocks)
  }

  /** The placeholder written for block `i` is read back as `i`, whatever follows it. */
  lemma PlaceholderReadBack(i: nat, rest: string)
    ensures PlaceholderAt(Placeholder(i) + rest, 0) == Some((i, |Placeholder(i)|))
  {
    var digits := NatToString(i);
    var s := Placeholder(i) + rest;
    assert s == PlaceholderPrefix + digits + "]]" + rest;
    assert OccursAt(s, PlaceholderPrefix, 0);
    assert forall j :: 12 <= j < 12 + |digits| ==> s[j] == digits[j - 12];
    assert s[12 + |digits|] == ']';
    assert DigitsEnd(s, 12) == 12 + |digits|;
    assert s[12..12 + |digits|] == digits;
    assert s[12 + |digits|..12 + |digits| + 2] == "]]";
    DigitsRoundTrip(i);
  }

  /**
   * `formatAIText(text)` with the markdown chain in between given as
   * `markdown`: `''` for a missing or empty text.
   */
  function FormatAIText(text: Option<string>, markdown: string -> string): (r: string)
    ensures text.None? || text == Some("") ==> r == ""
  {
    if text.None? || text.value == "" then ""
    else
      var (t, blocks) := ExtractFrom(text.value, 0, 0);
      ReinsertFrom(markdown(t), 0, blocks)
  }

  /** A placeholder on its own is replaced by the element of the block it names. */
  lemma ReinsertPlaceholder(i: nat, blocks: seq<CodeBlock>)
    ensures ReinsertFrom(Placeholder(i), 0, blocks) == CodeHtml(BlockAt(blocks, i))
  {
    var p := Placeholder(i);
    PlaceholderReadBack(i, "");
    assert p + "" == p;
    assert ReinsertFrom(p, |p|, blocks) == "";
    assert ReinsertFrom(p, 0, blocks) == CodeHtml(BlockAt(blocks, i)) + "";
  }

  lemma LangEndIs(s: string, k: nat, q: nat)
    requires k <= q < |s| && !IsLangChar(s[q])
    requires forall j :: k <= j < q ==> IsLangChar(s[j])
    ensures LangEnd(s, k) == q
  {
  }

  lemma IndexFromIs(s: string, sub: string, from: nat, c: nat)
    requires from <= c && OccursAt(s, sub, c)
    requires forall k :: from <= k < c ==> !OccursAt(s, sub, k)
    ensures IndexFrom(s, sub, from) == Some(c)
  {
  }

  lemma FenceAtIs(s: string, p: nat, q: nat, c: nat)
    requires OccursAt(s, "```", p) && LangEnd(s, p + 3) == q && q < |s| && s[q] == '\n'
    requires IndexFrom(s, "```", q + 1) == Some(c)
    ensures FenceAt(s, p) == Some(Fence(s[p + 3..q], s[q + 1..c], c + 3))
  {
  }

  /** No fence starts at a character other than a backquote. */
  lemma NoFenceAtOther(s: string, k: nat)
    requires k < |s| && s[k] != '`'
    ensures !OccursAt(s, "```", k)
  {
    assert k + 3 <= |s| ==> s[k..k + 3][0] == s[k];
  }

  /** Where the parts of a fenced block sit. */
  lemma BlockLayout(lang: string, code: string)
    ensures var s := "```" + lang + "\n" + code + "```"; var q := 3 + |lang|; var c := q + 1 + |code|;
      |s| == c + 3 && OccursAt(s, "```", 0) && OccursAt(s, "```", c) && s[q] == '\n'
      && s[3..q] == lang && s[q + 1..c] == code
      && (forall j :: 3 <= j < q ==> s[j] == lang[j - 3])
      && (forall k :: q + 1 <= k < c ==> s[k] == code[k - q - 1])
  {
    var s := "```" + lang + "\n" + code + "```";
    var q := 3 + |lang|;
    var c := q + 1 + |code|;
    assert s[..3] == "```" && s[3..q] == lang && s[q + 1..c] == code && s[c..] == "```";
  }

  /** The fence pattern matches a whole fenced block: its language, then its code up to the closing fence. */
  lemma FenceOfBlock(lang: string, code: string)
    requires forall i :: 0 <= i < |lang| ==> IsLangChar(lang[i])
    requires forall i :: 0 <= i < |code| ==> code[i] != '`'
    ensures var s := "```" + lang + "\n" + code + "```"; FenceAt(s, 0) == Some(Fence(lang, code, |s|))
  {
    var s := "```" + lang + "\n" + code + "```";
    var q := 3 + |lang|;
    var c := q + 1 + |code|;
    BlockLayout(lang, code);
    LangEndIs(s, 3, q);
    forall k | q + 1 <= k < c ensures !OccursAt(s, "```", k) {
      NoFenceAtOther(s, k);
    }
    IndexFromIs(s, "```", q + 1, c);
    FenceAtIs(s, 0, q, c);
    assert Fence(s[3..q], s[q + 1..c], c + 3) == Fence(lang, code, |s|);
  }

  /**
   * A message that is one fenced block comes out, when the markdown chain
   * leaves the placeholder alone, as one `<pre><code>` element of the
   * block's class holding the escaped code.
   */
  lemma FencedBlockRendered(lang: string, code: string, markdown: string -> string)
    requires forall i :: 0 <= i < |lang| ==> IsLangChar(lang[i])
    requires forall i :: 0 <= i < |code| ==> code[i] != '`'
    requires markdown(Placeholder(0)) == Placeholder(0)
    ensures FormatAIText(Some("```" + lang + "\n" + code + "```"), markdown) == CodeHtml(CodeBlock(code, LangClass(lang)))
  {
    var s := "```" + lang + "\n" + code + "```";
    FenceOfBlock(lang, code);
    var blocks := [CodeBlock(code, LangClass(lang))];
    assert ExtractFrom(s, |s|, 1) == ("", []);
    assert ExtractFrom(s, 0, 0) == (Placeholder(0) + "", blocks + []);
    assert Placeholder(0) + "" == Placeholder(0) && blocks + [] == blocks;
    ReinsertPlaceholder(0, blocks);
  }

  // ----- feedback buttons -----

  /** The automatic messages that get no feedback buttons. */
  const AutoMessages: seq<string> := [
    "\U{23F9}\U{FE0F} Resposta cancelada pelo usuário.",
    "Erro ao processar resposta.",
    "Mensagem demasiado longa (máx 10000 caracteres)",
    "Mensagem demasiado longa (máx 10000 caraters)",
    "Mensagem demasiado longa (máx 10000 carateres)",
    "Mensagem demasiado longa (máx 10000 carácteres)",
    "Mensagem demasiado longa (máx 10000 caracteres).",
    "Chat não encontrado",
    "Erro: Este chat não existe mais. Crie um novo chat."
  ]

  /** The trimmed, lower-cased text contains one of the lower-cased automatic messages. */
  predicate IsAutoMessage(text: string) {
    exists i :: 0 <= i < |AutoMessages| && Contains(Lower(Strip(text)), Lower(AutoMessages[i]))
  }

  /** Feedback buttons are built for a bubble of the bot that is no automatic message. */
  predicate ShowsFeedback(text: string, who: string) {
    who == "bot" && !IsAutoMessage(text)
  }

  /** The cancel text the back end stores and returns gets no feedback buttons. */
  lemma CancelReplyHasNoFeedback()
    ensures !ShowsFeedback(CancelText, "bot")
  {
    var t := CancelText;
    assert AutoMessages[0] == t;
    assert t[0] == '\U{23F9}' && t[|t| - 1] == '.';
    assert TrimStart(t) == t;
    assert TrimEnd(t) == t;
    ContainsSelf(Lower(t));
    assert Contains(Lower(Strip(t)), Lower(AutoMessages[0]));
  }

  /** An automatic message stored without surrounding whitespace is recognised. */
  lemma AutoMessageRecognised(i: nat)
    requires i < |AutoMessages|
    requires Trimmed(AutoMessages[i])
    ensures IsAutoMessage(AutoMessages[i])
  {
    var t := AutoMessages[i];
    assert TrimStart(t) == t;
    assert TrimEnd(t) == t;
    ContainsSelf(Lower(t));
    assert Contains(Lower(Strip(t)), Lower(AutoMessages[i]));
  }

  /** Starts and ends with a character that is not whitespace, so trimming keeps it whole. */
  predicate Trimmed(t: string) {
    t != [] && !IsSpace(t[0]) && !IsSpace(t[|t| - 1])
  }

  // The literals are split so that their first character is found without
  // unfolding the whole string.

  lemma Trimmed0()
    ensures Trimmed(AutoMessages[0])
  {
    var head, rest := "\U{23F9}\U{FE0F} Resposta canc", "elada pelo usuário.";
    assert AutoMessages[0] == head + rest;
    assert (head + rest)[0] == head[0];
  }

  lemma Trimmed1()
    ensures Trimmed(AutoMessages[1])
  {
    var head, rest := "Erro ao processa", "r resposta.";
    assert AutoMessages[1] == head + rest;
    assert (head + rest)[0] == head[0];
  }

  lemma Trimmed2()
    ensures Trimmed(AutoMessages[2])
  {
    var head, rest := "Mensagem demasia", "do longa (máx 10000 caracteres)";
    assert AutoMessages[2] == head + rest;
    assert (head + rest)[0] == head[0];
  }

  lemma Trimmed3()
    ensures Trimmed(AutoMessages[3])
  {
    var head, rest := "Mensagem demasia", "do longa (máx 10000 caraters)";
    assert AutoMessages[3] == head + rest;
    assert (head + rest)[0] == head[0];
  }

  lemma Trimmed4()
    ensures Trimmed(AutoMessages[4])
  {
    var head, rest := "Mensagem demasia", "do longa (máx 10000 carateres)";
    assert AutoMessages[4] == head + rest;
    assert (head + rest)[0] == head[0];
  }

  lemma Trimmed5()
    ensures Trimmed(AutoMessages[5])
  {
    var head, rest := "Mensagem demasia", "do longa (máx 10000 carácteres)";
    assert AutoMessages[5] == head + rest;
    assert (head + rest)[0] == head[0];
  }

  lemma Trimmed6()
    ensures Trimmed(AutoMessages[6])
  {
    var head, rest := "Mensagem demasia", "do longa (máx 10000 caracteres).";
    assert AutoMessages[6] == head + rest;
    assert (head + rest)[0] == head[0];
  }

  lemma Trimmed7()
    ensures Trimmed(AutoMessages[7])
  {
    var head, rest := "Chat não encontr", "ado";
    assert AutoMessages[7] == head + rest;
    assert (head + rest)[0] == head[0];
  }

  lemma Trimmed8()
    ensures Trimmed(AutoMessages[8])
  {
    var head, middle, rest := "Erro: Este ", "chat não existe mais.", " Crie um novo chat.";
    assert AutoMessages[8] == head + middle + rest;
    assert (head + middle + rest)[0] == head[0];
  }

  /** None of the automatic messages gets feedback buttons. */
  lemma AutoMessagesHaveNoFeedback()
    ensures forall i :: 0 <= i < |AutoMessages| ==> !ShowsFeedback(AutoMessages[i], "bot")
  {
    Trimmed0(); Trimmed1(); Trimmed2(); Trimmed3(); Trimmed4();
    Trimmed5(); Trimmed6(); Trimmed7(); Trimmed8();
    forall i | 0 <= i < |AutoMessages| {
      AutoMessageRecognised(i);
    }
  }

  // ----- selectChat -----

  /** A bubble: a user bubble shows `user_variants[selected]`, `None` where that is `undefined`. */
  datatype Bubble = UserBubble(variant: Option<string>) | BotBubble(reply: string)

  /** `a[i]` in JavaScript: `undefined` (here `None`) outside the array, negative indices included. */
  function JsIndex<T>(s: seq<T>, i: int): (r: Option<T>)
    ensures r.Some? <==> 0 <= i < |s|
  {
    if 0 <= i < |s| then Some(s[i]) else None
  }

  /** The bubbles of one block: the selected user variant, then the selected response when it is a non-blank string. */
  function BlockBubbles(b: Block): (r: seq<Bubble>)
    ensures 1 <= |r| <= 2 && r[0] == UserBubble(JsIndex(b.userVariants, b.selected))
    ensures |r| == 2 <==> (0 <= b.selected < |b.aiResponses| && b.aiResponses[b.selected].Some?
                           && Strip(b.aiResponses[b.selected].value) != "")
    ensures |r| == 2 ==> r[1] == BotBubble(b.aiResponses[b.selected].value)
  {
    var user := UserBubble(JsIndex(b.userVariants, b.selected));
    var resp := JsIndex(b.aiResponses, b.selected);
    if resp.Some? && resp.value.Some? && Strip(resp.value.value) != "" then [user, BotBubble(resp.value.value)] else [user]
  }

  /** The bubbles of the blocks, in order. */
  function Bubbles(blocks: seq<Block>): seq<Bubble> {
    if blocks == [] then [] else Bubbles(blocks[..|blocks| - 1]) + BlockBubbles(blocks[|blocks| - 1])
  }

  /** The loop of `selectChat` over the blocks it fetched. */
  method RenderBlocks(blocks: seq<Block>) returns (bubbles: seq<Bubble>)
    ensures bubbles == Bubbles(blocks)
  {
    bubbles := [];
    var i := 0;
    while i < |blocks|
      invariant 0 <= i <= |blocks|
      invariant bubbles == Bubbles(blocks[..i])
    {
      assert blocks[..i + 1][..i] == blocks[..i];
      bubbles := bubbles + BlockBubbles(blocks[i]);
      i := i + 1;
    }
    assert blocks[..|blocks|] == blocks;
  }

  function CountUser(bs: seq<Bubble>): nat {
    if bs == [] then 0 else CountUser(bs[..|bs| - 1]) + (if bs[|bs| - 1].UserBubble? then 1 else 0)
  }

  lemma {:induction false} CountUserConcat(a: seq<Bubble>, b: seq<Bubble>)
    ensures CountUser(a + b) == CountUser(a) + CountUser(b)
    decreases |b|
  {
    if b != [] {
      var init := b[..|b| - 1];
      CountUserConcat(a, init);
      var last := if b[|b| - 1].UserBubble? then 1 else 0;
      assert (a + b)[..|a + b| - 1] == a + init;
      assert (a + b)[|a + b| - 1] == b[|b| - 1];
      assert CountUser(a + b) == CountUser(a + init) + last;
      assert CountUser(b) == CountUser(init) + last;
    } else {
      assert a + b == a;
    }
  }

  /**
   * Every block gives exactly one user bubble and at most one bot bubble,
   * and no bot bubble is blank.
   */
  lemma {:induction false} BubblesShape(blocks: seq<Block>)
    ensures CountUser(Bubbles(blocks)) == |blocks|
    ensures |blocks| <= |Bubbles(blocks)| <= 2 * |blocks|
    ensures forall k :: 0 <= k < |Bubbles(blocks)| && Bubbles(blocks)[k].BotBubble? ==> Strip(Bubbles(blocks)[k].reply) != ""
  {
    if blocks != [] {
      var init, last := blocks[..|blocks| - 1], blocks[|blocks| - 1];
      BubblesShape(init);
      var a, b := Bubbles(init), BlockBubbles(last);
      CountUserConcat(a, b);
      assert CountUser(b) == 1 by {
        if |b| == 2 {
          assert b[..1][..0] == [];
          assert b[..1] == [b[0]];
          assert CountUser(b[..1]) == 1;
        } else {
          assert b[..0] == [];
        }
      }
      forall k | 0 <= k < |a + b| && (a + b)[k].BotBubble? ensures Strip((a + b)[k].reply) != "" {
        if k >= |a| {
          assert (a + b)[k] == b[k - |a|];
        }
      }
    }
  }

  /** A block whose response is still pending shows only the user's message. */
  lemma PendingBlockShowsOnlyUser(text: string)
    ensures BlockBubbles(SingleBlock(text, None)) == [UserBubble(Some(text))]
  {
  }
}
