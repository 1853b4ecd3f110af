/**
 * File-name handling and file generation in the back end: the sanitiser of
 * names used in paths (`sanitize_filename`), the upload and listing filter
 * (`allowed_file`), the name and the content of a generated file
 * (`ai_generate_file_if_requested`) and the bold segmentation of a line
 * written to a PDF (`write_markdown_line`).
 */
module Files {
  import opened Wrappers
  import opened Strings
  import opened Classifier

  // ----- sanitize_filename -----

  /** The characters `[a-zA-Z0-9_.-]` that `sanitize_filename` keeps. */
  predicate SafeChar(c: char) {
    ('a' <= c <= 'z') || ('A' <= c <= 'Z') || ('0' <= c <= '9') || c == '_' || c == '.' || c == '-'
  }

  function SanitizeChar(c: char): char {
    if SafeChar(c) then c else '_'
  }

  /** `re.sub(r'[^a-zA-Z0-9_.-]', '_', name)`. */
  function SanitizeFilename(name: string): (r: string)
    ensures |r| == |name|
  {
    if name == [] then [] else [SanitizeChar(name[0])] + SanitizeFilename(name[1..])
  }

  predicate AllSafe(s: string) {
    forall i :: 0 <= i < |s| ==> SafeChar(s[i])
  }

  /**
   * Every character of the result is safe; a safe character of the input is
   * kept where it was, any other becomes `_`.
   */
  lemma {:induction false} SanitizeAt(name: string)
    ensures AllSafe(SanitizeFilename(name))
    ensures forall i :: 0 <= i < |name| && SafeChar(name[i]) ==> SanitizeFilename(name)[i] == name[i]
    ensures forall i :: 0 <= i < |name| && !SafeChar(name[i]) ==> SanitizeFilename(name)[i] == '_'
  {
    if name != [] {
      SanitizeAt(name[1..]);
      var r := SanitizeFilename(name);
      assert r == [SanitizeChar(name[0])] + SanitizeFilename(name[1..]);
      forall i | 1 <= i < |name|
        ensures r[i] == SanitizeFilename(name[1..])[i - 1] && name[i] == name[1..][i - 1]
      {
      }
    }
  }

  /** A name is left as it is exactly when all its characters are safe. */
  lemma SanitizeFixedPoint(name: string)
    ensures SanitizeFilename(name) == name <==> AllSafe(name)
  {
    SanitizeAt(name);
    if AllSafe(name) {
      assert forall i :: 0 <= i < |name| ==> SanitizeFilename(name)[i] == name[i];
    }
  }

  /** Sanitising twice is sanitising once. */
  lemma SanitizeIdempotent(name: string)
    ensures SanitizeFilename(SanitizeFilename(name)) == SanitizeFilename(name)
  {
    SanitizeAt(name);
    SanitizeFixedPoint(SanitizeFilename(name));
  }

  // ----- allowed_file -----

  const AllowedExtensions: set<string> := {"pdf", "txt"}

  /** `'.' in name and name.rsplit('.', 1)[1].lower() in ALLOWED_EXTENSIONS`. */
  predicate AllowedFile(name: string) {
    match LastIndexOf(name, '.')
    case None => false
    case Some(i) => Lower(name[i + 1..]) in AllowedExtensions
  }

  predicate NoDot(s: string) {
    forall k :: 0 <= k < |s| ==> s[k] != '.'
  }

  /** `name[i]` is a dot, nothing after it is, and what follows it is an allowed extension. */
  predicate AllowedExtensionAt(name: string, i: int) {
    0 <= i < |name| && name[i] == '.' && NoDot(name[i + 1..]) && Lower(name[i + 1..]) in AllowedExtensions
  }

  /**
   * A name is allowed exactly when it is some base, a dot, and an extension
   * without dots whose lower-case form is `pdf` or `txt`.
   */
  lemma AllowedFileIff(name: string)
    ensures AllowedFile(name) <==> exists i :: AllowedExtensionAt(name, i)
  {
    match LastIndexOf(name, '.')
    case None =>
    case Some(j) =>
      if exists i :: AllowedExtensionAt(name, i) {
        var i :| AllowedExtensionAt(name, i);
        assert forall k :: i < k < |name| ==> name[k] == name[i + 1..][k - i - 1];
        assert i == j;
      }
      assert NoDot(name[j + 1..]);
      assert AllowedFile(name) ==> AllowedExtensionAt(name, j);
  }

  /** When the extension has no dot, it alone decides whether `base.ext` is allowed. */
  lemma ExtensionDecides(base: string, ext: string)
    requires NoDot(ext)
    ensures AllowedFile(base + "." + ext) <==> Lower(ext) in AllowedExtensions
  {
    var name := base + "." + ext;
    assert name[|base|] == '.';
    assert name[|base| + 1..] == ext;
    AllowedFileIff(name);
    if AllowedFile(name) {
      var i :| AllowedExtensionAt(name, i);
      assert forall k :: i < k < |name| ==> name[k] == name[i + 1..][k - i - 1];
      assert i == |base|;
    } else {
      assert !AllowedExtensionAt(name, |base|);
    }
  }

  // ----- generated files -----

  /**
   * The file name `ai_generate_file_if_requested` returns: `gerado_<time>.<ext>`
   * when the format is one of the eight it writes (the list `get_file_type`
   * also uses) and its writer succeeded (`writerOk`),
   * `None` otherwise. `now` is `int(time.time())`.
   */
  function GeneratedFileName(fileType: string, now: nat, writerOk: bool): (r: Option<string>)
    ensures r.Some? <==> fileType in KnownTypes && writerOk
    ensures r.Some? ==> StartsWith(r.value, "gerado_") && EndsWith(r.value, "." + fileType)
    ensures r.Some? ==> forall k :: 7 <= k < |r.value| - |fileType| - 1 ==> '0' <= r.value[k] <= '9'
    ensures r.Some? ==> r.value == "gerado_" + NatToString(now) + "." + fileType
    ensures r.Some? ==> DigitsValue(r.value[7..|r.value| - |fileType| - 1]) == now
  {
    if fileType in KnownTypes && writerOk then
      var digits := NatToString(now);
      var name := "gerado_" + digits + "." + fileType;
      assert name[..7] == "gerado_";
      assert name[|name| - |fileType| - 1..] == "." + fileType;
      assert forall k :: 7 <= k < |name| - |fileType| - 1 ==> name[k] == digits[k - 7];
      assert name[7..|name| - |fileType| - 1] == digits;
      DigitsRoundTrip(now);
      Some(name)
    else None
  }

  /** A generated name is already safe, so sanitising it changes nothing. */
  lemma GeneratedNameIsSafe(fileType: string, now: nat, writerOk: bool)
    requires GeneratedFileName(fileType, now, writerOk).Some?
    ensures AllSafe(GeneratedFileName(fileType, now, writerOk).value)
    ensures SanitizeFilename(GeneratedFileName(fileType, now, writerOk).value) == GeneratedFileName(fileType, now, writerOk).value
  {
    var digits := NatToString(now);
    var name := "gerado_" + digits + "." + fileType;
    GeneratorTypeShape(fileType);
    assert forall k :: 0 <= k < |name| ==> SafeChar(name[k]) by {
      forall k | 0 <= k < |name| ensures SafeChar(name[k]) {
        if k < 7 {
        } else if k < 7 + |digits| {
          assert name[k] == digits[k - 7];
        } else if k == 7 + |digits| {
        } else {
          assert name[k] == fileType[k - 8 - |digits|];
        }
      }
    }
    SanitizeFixedPoint(name);
  }

  /** The known formats are lower-case words, without dots. */
  lemma GeneratorTypeShape(t: string)
    requires t in KnownTypes
    ensures NoDot(t) && AllSafe(t) && Lower(t) == t
  {
    assert forall k :: 0 <= k < |t| ==> 'a' <= t[k] <= 'z';
    LowerOfLowerCase(t);
  }

  /**
   * A generated file shows up in the file listing, which filters with
   * `allowed_file`, exactly when it is a PDF or a text file.
   */
  lemma GeneratedFileListed(fileType: string, now: nat)
    requires fileType in KnownTypes
    ensures AllowedFile(GeneratedFileName(fileType, now, true).value) <==> fileType in AllowedExtensions
  {
    GeneratorTypeShape(fileType);
    ExtensionDecides("gerado_" + NatToString(now), fileType);
  }

  /** Lower-casing a word made of lower-case letters changes nothing. */
  lemma LowerOfLowerCase(s: string)
    requires forall k :: 0 <= k < |s| ==> 'a' <= s[k] <= 'z'
    ensures Lower(s) == s
  {
    LowerAt(s);
  }

  /**
   * The text a generated file is built from (app.py line 713): what follows
   * the first `com` of the message, stripped, when the message contains
   * `com`; the model's reply otherwise.
   */
  function SplitContent(userText: string, aiText: string): string {
    match IndexFrom(userText, "com", 0)
    case Some(i) => Strip(userText[i + 3..])
    case None => aiText
  }

  /**
   * `content if content else ai_text`: the text the pdf, txt, py, docx and
   * pptx writers write, and the fallback the json and xlsx writers use when
   * parsing the raw content as JSON or as CSV raises.
   */
  function FileText(userText: string, aiText: string): (r: string)
    ensures SplitContent(userText, aiText) != "" ==> r == SplitContent(userText, aiText)
    ensures SplitContent(userText, aiText) == "" ==> r == aiText
    ensures r == "" ==> aiText == ""
    ensures !Contains(userText, "com") ==> r == aiText
    ensures r != aiText ==> r != "" && r == SplitContent(userText, aiText)
  {
    ContainsIffIndex(userText, "com");
    var content := SplitContent(userText, aiText);
    if content != "" then content else aiText
  }

  /**
   * `user_text.split('com', 1)[-1].strip()`: the message is a head without
   * `com`, then `com`, then a rest; the content is the stripped rest. The
   * head is the shortest such, so a `com` inside a word (`completo`) splits
   * there too.
   */
  lemma SplitContentShape(userText: string, aiText: string)
    ensures !Contains(userText, "com") ==> SplitContent(userText, aiText) == aiText
    ensures Contains(userText, "com") ==> exists head, rest ::
      userText == head + "com" + rest && SplitContent(userText, aiText) == Strip(rest)
      && forall j :: 0 <= j < |head| ==> !OccursAt(userText, "com", j)
  {
    ContainsIffIndex(userText, "com");
    match IndexFrom(userText, "com", 0)
    case None =>
    case Some(i) =>
      var head, rest := userText[..i], userText[i + 3..];
      assert userText[i..i + 3] == "com";
      assert userText == head + "com" + rest;
      assert SplitContent(userText, aiText) == Strip(rest);
      assert forall j :: 0 <= j < |head| ==> !OccursAt(userText, "com", j);
  }

  // ----- write_markdown_line -----

  /** The calls `write_markdown_line` makes on the PDF object. */
  datatype PdfOp = SetBold | SetRegular | Write(text: string) | LineFeed

  predicate StarsAt(s: string, k: int) {
    0 <= k && k + 2 <= |s| && s[k] == '*' && s[k + 1] == '*'
  }

  /** The lazy `.*?\*\*` from `k`: the first `**` at or after `k` with no line break before it. */
  function CloseFrom(s: string, k: nat): (r: Option<nat>)
    decreases |s| - k
    ensures r.Some? ==> k <= r.value && StarsAt(s, r.value)
    ensures r.Some? ==> forall m :: k <= m < r.value ==> s[m] != '\n' && !StarsAt(s, m)
  {
    if k + 2 > |s| then None
    else if StarsAt(s, k) then Some(k)
    else if s[k] == '\n' then None
    else CloseFrom(s, k + 1)
  }

  /** The leftmost match of `\*\*.*?\*\*` at or after `from`, as a start and an end. */
  function FindBold(s: string, from: nat): (r: Option<(nat, nat)>)
    decreases |s| - from
    ensures r.Some? ==> from <= r.value.0 && r.value.0 + 4 <= r.value.1 <= |s|
    ensures r.Some? ==> StarsAt(s, r.value.0) && StarsAt(s, r.value.1 - 2)
    ensures r.Some? ==> forall m :: r.value.0 + 2 <= m < r.value.1 - 2 ==> s[m] != '\n'
  {
    if from + 2 > |s| then None
    else if StarsAt(s, from) && CloseFrom(s, from + 2).Some? then Some((from, CloseFrom(s, from + 2).value + 2))
    else FindBold(s, from + 1)
  }

  /** `re.split(r'(\*\*.*?\*\*)', line)`: text, match, text, match, ..., text. */
  function MarkdownParts(line: string): (parts: seq<string>)
    decreases |line|
    ensures |parts| % 2 == 1
  {
    match FindBold(line, 0)
    case None => [line]
    case Some((i, e)) => [line[..i], line[i..e]] + MarkdownParts(line[e..])
  }

  function Concat(parts: seq<string>): string {
    if parts == [] then "" else parts[0] + Concat(parts[1..])
  }

  /** `part[2:-2]` for a part that starts and ends with `**`. */
  function Inner(part: string): string {
    if |part| >= 4 then part[2..|part| - 2] else ""
  }

  function RenderPart(part: string): seq<PdfOp> {
    if StartsWith(part, "**") && EndsWith(part, "**") then [SetBold, Write(Inner(part)), SetRegular]
    else [Write(part)]
  }

  function RenderParts(parts: seq<string>): seq<PdfOp> {
    if parts == [] then [] else RenderPart(parts[0]) + RenderParts(parts[1..])
  }

  /** The calls `write_markdown_line(pdf, line)` makes, in order. */
  function MarkdownLine(line: string): seq<PdfOp> {
    RenderParts(MarkdownParts(line)) + [LineFeed]
  }

  /** Splitting loses nothing: the parts put together give the line back. */
  lemma {:induction false} PartsJoin(line: string)
    ensures Concat(MarkdownParts(line)) == line
    decreases |line|
  {
    match FindBold(line, 0)
    case None =>
    case Some((i, e)) =>
      PartsJoin(line[e..]);
      assert Concat(MarkdownParts(line)) == line[..i] + (line[i..e] + Concat(MarkdownParts(line[e..])));
      assert line == line[..i] + line[i..e] + line[e..];
  }

  /** Every odd-numbered part is a bold span: `**`, text without a line break, `**`. */
  lemma {:induction false} BoldPartsShape(line: string, k: nat)
    requires k < |MarkdownParts(line)| && k % 2 == 1
    ensures var p := MarkdownParts(line)[k];
      |p| >= 4 && StartsWith(p, "**") && EndsWith(p, "**") && forall m :: 2 <= m < |p| - 2 ==> p[m] != '\n'
    decreases |line|
  {
    match FindBold(line, 0)
    case None =>
    case Some((i, e)) =>
      if k == 1 {
        var p := line[i..e];
        assert MarkdownParts(line)[1] == p;
        assert p[..2] == "**" by { assert p[0] == line[i] && p[1] == line[i + 1]; }
        assert p[|p| - 2..] == "**" by { assert p[|p| - 2] == line[e - 2] && p[|p| - 1] == line[e - 1]; }
        forall m | 2 <= m < |p| - 2 ensures p[m] != '\n' {
          assert p[m] == line[i + m];
        }
      } else {
        BoldPartsShape(line[e..], k - 2);
        assert MarkdownParts(line)[k] == MarkdownParts(line[e..])[k - 2];
      }
  }

  /** A line without `**` is written as it is, in the regular font, then a line feed. */
  lemma PlainLine(line: string)
    requires forall k :: !StarsAt(line, k)
    ensures MarkdownLine(line) == [Write(line), LineFeed]
  {
    assert FindBold(line, 0).None?;
    assert !StarsAt(line, 0);
    assert MarkdownParts(line) == [line];
    assert RenderParts([line]) == RenderPart(line) + RenderParts([]);
  }

  /** Every switch to bold is followed by one write and a switch back, and every switch back follows one. */
  predicate BoldClosed(ops: seq<PdfOp>) {
    (forall m :: 0 <= m < |ops| && ops[m] == SetBold ==> m + 2 < |ops| && ops[m + 1].Write? && ops[m + 2] == SetRegular)
    && (forall m :: 0 <= m < |ops| && ops[m] == SetRegular ==> m >= 2 && ops[m - 2] == SetBold)
  }

  /** The bold switches of a line are balanced, so each line ends in the regular font. */
  lemma {:induction false} BoldIsClosed(parts: seq<string>)
    ensures BoldClosed(RenderParts(parts))
  {
    if parts != [] {
      BoldIsClosed(parts[1..]);
      RenderPartClosed(parts[0]);
      BoldClosedConcat(RenderPart(parts[0]), RenderParts(parts[1..]));
    }
  }

  /** One part switches to bold and back around its write, or writes in the regular font. */
  lemma RenderPartClosed(part: string)
    ensures BoldClosed(RenderPart(part))
  {
    var ops := RenderPart(part);
    if StartsWith(part, "**") && EndsWith(part, "**") {
      assert ops == [SetBold, Write(Inner(part)), SetRegular];
      assert forall m :: 0 <= m < 3 && ops[m] == SetBold ==> m == 0;
      assert forall m :: 0 <= m < 3 && ops[m] == SetRegular ==> m == 2;
    } else {
      assert ops == [Write(part)];
    }
  }

  /** Two runs of calls with balanced bold switches, one after the other, are balanced. */
  lemma BoldClosedConcat(head: seq<PdfOp>, tail: seq<PdfOp>)
    requires BoldClosed(head) && BoldClosed(tail)
    ensures BoldClosed(head + tail)
  {
    var ops := head + tail;
    forall m | 0 <= m < |ops| && ops[m] == SetBold
      ensures m + 2 < |ops| && ops[m + 1].Write? && ops[m + 2] == SetRegular
    {
      if m >= |head| {
        var t := m - |head|;
        assert tail[t] == SetBold;
        assert ops[m + 1] == tail[t + 1] && ops[m + 2] == tail[t + 2];
      }
    }
    forall m | 0 <= m < |ops| && ops[m] == SetRegular
      ensures m >= 2 && ops[m - 2] == SetBold
    {
      if m >= |head| {
        var t := m - |head|;
        assert tail[t] == SetRegular;
        assert t >= 2;
        assert ops[m - 2] == tail[t - 2];
      }
    }
  }
}
