/**
 * The request classifier of the back end: image requests
 * (`is_image_request`), file requests (`user_wants_file`) and the format of
 * a requested file (`get_file_type`). The local keyword checks come first;
 * the model is asked only when they do not decide.
 */
module Classifier {
  import opened Wrappers
  import opened Strings
  import opened Retry

  // ----- Image requests -----

  const ImageKeywords: seq<string> := [
    "gera uma imagem", "cria uma imagem", "desenha", "faz uma imagem", "ilustra",
    "imagem de", "picture of", "draw", "generate an image", "create an image"
  ]

  /** `is_image_request`: the lower-cased text contains one of the keywords. */
  function IsImageRequest(text: string): (r: bool)
    ensures r <==> exists i :: 0 <= i < |ImageKeywords| && Contains(Lower(text), ImageKeywords[i])
  {
    FirstContained(Lower(text), ImageKeywords).Some?
  }

  lemma {:induction false} LowerIdempotent(s: string)
    ensures Lower(Lower(s)) == Lower(s)
  {
    LowerAt(s);
    LowerAt(Lower(s));
    assert forall i :: 0 <= i < |s| ==> LowerChar(LowerChar(s[i])) == LowerChar(s[i]);
  }

  lemma {:induction false} OccursInLarger(a: string, b: string, c: string, w: string, i: int)
    requires OccursAt(b, w, i)
    ensures OccursAt(a + b + c, w, |a| + i)
  {
    assert (a + b + c)[|a| + i..|a| + i + |w|] == b[i..i + |w|];
  }

  /** Lower-casing distributes over concatenation. */
  lemma {:induction false} LowerConcat(a: string, b: string)
    ensures Lower(a + b) == Lower(a) + Lower(b)
  {
    LowerAt(a);
    LowerAt(b);
    LowerAt(a + b);
    assert forall i :: 0 <= i < |a + b| ==> Lower(a + b)[i] == (Lower(a) + Lower(b))[i];
  }

  /**
   * A keyword anywhere in the text makes it an image request, whatever
   * surrounds it and whatever its case.
   */
  lemma {:induction false} ImageRequestInContext(before: string, text: string, after: string)
    requires IsImageRequest(text)
    ensures IsImageRequest(before + text + after)
    ensures IsImageRequest(Lower(text))
  {
    var k :| 0 <= k < |ImageKeywords| && Contains(Lower(text), ImageKeywords[k]);
    var i :| 0 <= i <= |Lower(text)| && OccursAt(Lower(text), ImageKeywords[k], i);
    LowerConcat(before + text, after);
    LowerConcat(before, text);
    assert Lower(before + text + after) == Lower(before) + Lower(text) + Lower(after);
    OccursInLarger(Lower(before), Lower(text), Lower(after), ImageKeywords[k], i);
    assert Contains(Lower(before + text + after), ImageKeywords[k]) by {
      assert OccursAt(Lower(before + text + after), ImageKeywords[k], |Lower(before)| + i);
    }
    LowerIdempotent(text);
    assert Lower(Lower(text)) == Lower(text);
  }

  // ----- File requests -----

  /** The verbs the explicit pattern accepts at the start of the text. */
  const FileVerbs: seq<string> := [
    "gera", "cria", "exporta", "envia", "faz", "quero baixar",
    "quero um", "quero uma", "quero o", "quero a"
  ]

  /** The file nouns the explicit pattern accepts, each between word boundaries. */
  const FileNouns: seq<string> := [
    "pdf", "ficheiro", "arquivo", "documento", "word", "excel", "pptx", "csv", "json", "txt", "py"
  ]

  /** The tokens that make a model answer affirmative. */
  const AffirmativeTokens: seq<string> := [
    "sim", "pdf", "ficheiro", "arquivo", "documento", "word", "excel", "pptx", "csv", "json", "txt", "py"
  ]

  /**
   * A Latin-1 approximation of the regular-expression class `\w`: ASCII word
   * characters and the Latin-1 letters. Superscripts, fractions and other
   * scripts are not word characters here.
   */
  predicate IsWordChar(c: char) {
    ('a' <= c <= 'z') || ('A' <= c <= 'Z') || ('0' <= c <= '9') || c == '_'
    || c == 'ª' || c == 'µ' || c == 'º' || ('À' <= c <= 'ÿ' && c != '×' && c != '÷')
  }

  /** `\b` at position `p` of `s`. */
  predicate WordBoundary(s: string, p: int)
    requires 0 <= p <= |s|
  {
    (p > 0 && IsWordChar(s[p - 1])) != (p < |s| && IsWordChar(s[p]))
  }

  predicate NoNewline(s: string, from: int, to: int)
    requires 0 <= from <= to <= |s|
  {
    forall k :: from <= k < to ==> s[k] != '\n'
  }

  /** Noun `w` occurs at `p` between word boundaries. */
  predicate BoundedWordAt(s: string, w: string, p: int) {
    OccursAt(s, w, p) && WordBoundary(s, p) && WordBoundary(s, p + |w|)
  }

  /**
   * `re.search(r'^(gera|...|quero a).*\b(pdf|...|py)\b', t)`: `t` starts with a
   * verb, and after it, with no line break in between (`.` does not match
   * one), a noun stands between word boundaries.
   */
  predicate ExplicitFileRequest(t: string) {
    exists v, n, p :: 0 <= v < |FileVerbs| && 0 <= n < |FileNouns| && |FileVerbs[v]| <= p <= |t|
      && StartsWith(t, FileVerbs[v]) && NoNewline(t, |FileVerbs[v]|, p) && BoundedWordAt(t, FileNouns[n], p)
  }

  /** The normalised form the classifiers give a model answer: stripped, then lower-cased. */
  function Answer(content: string): (r: string)
    ensures |r| <= |content|
  {
    Lower(Strip(content))
  }

  predicate Affirmative(answer: string) {
    StartsWith(answer, "sim") || AnyContained(answer, AffirmativeTokens)
  }

  /** The attempt produced a non-empty answer. */
  predicate Answered(a: Attempt) {
    a.Reply? && Answer(a.content) != ""
  }

  /** Index of the first attempt among `from`, ..., `max - 1` that gave a non-empty answer. */
  function FirstAnswer(outs: seq<Attempt>, from: nat, max: nat): (r: Option<nat>)
    decreases max - from
    ensures r.Some? ==> from <= r.value < max && Answered(AttemptAt(outs, r.value))
    ensures r.Some? ==> forall k :: from <= k < r.value ==> !Answered(AttemptAt(outs, k))
    ensures r.None? ==> forall k :: from <= k < max ==> !Answered(AttemptAt(outs, k))
  {
    if from >= max then None
    else if Answered(AttemptAt(outs, from)) then Some(from)
    else FirstAnswer(outs, from + 1, max)
  }

  const WantsFileAttempts: nat := 3

  /**
   * What `user_wants_file` decides: true on the explicit pattern; otherwise
   * the first non-empty answer decides; no such answer within three
   * attempts means no.
   */
  function WantsFile(text: string, outs: seq<Attempt>): bool {
    if ExplicitFileRequest(Lower(text)) then true
    else match FirstAnswer(outs, 0, WantsFileAttempts)
      case Some(k) => Affirmative(Answer(AttemptAt(outs, k).content))
      case None => false
  }

  /**
   * `user_wants_file`. `calls` counts the questions put to the model and
   * `sleeps` the one-second pauses after an empty answer or an exception.
   */
  method UserWantsFile(text: string, outs: seq<Attempt>) returns (wants: bool, calls: nat, sleeps: nat)
    ensures wants == WantsFile(text, outs)
    ensures ExplicitFileRequest(Lower(text)) ==> wants && calls == 0 && sleeps == 0
    ensures !ExplicitFileRequest(Lower(text)) ==> match FirstAnswer(outs, 0, WantsFileAttempts)
      case Some(k) => calls == k + 1 && sleeps == k
      case None => calls == WantsFileAttempts && sleeps == WantsFileAttempts
  {
    var textLower := Lower(text);
    calls, sleeps := 0, 0;
    if ExplicitFileRequest(textLower) {
      return true, calls, sleeps;
    }
    var attempt := 0;
    while attempt < WantsFileAttempts
      invariant 0 <= attempt <= WantsFileAttempts
      invariant calls == attempt && sleeps == attempt
      invariant FirstAnswer(outs, 0, WantsFileAttempts) == FirstAnswer(outs, attempt, WantsFileAttempts)
    {
      calls := calls + 1;
      match AttemptAt(outs, attempt) {
        case Reply(content) =>
          var answer := Answer(content);
          if answer != "" {
            return Affirmative(answer), calls, sleeps;
          }
          sleeps := sleeps + 1;
        case Failed =>
          sleeps := sleeps + 1;
      }
      attempt := attempt + 1;
    }
    wants := false;
  }

  // ----- File format -----

  /** The formats the generator knows, in the order both loops test them. */
  const KnownTypes: seq<string> := ["pdf", "txt", "csv", "json", "py", "docx", "xlsx", "pptx"]

  const FileTypeAttempts: nat := 3

  /**
   * What one attempt of the model loop of `get_file_type` decides: `Some`
   * of the value returned, or `None` to go on. An answer naming a format
   * returns the first format it contains; the second attempt (index 1)
   * returns `""` when its answer names none; the first and third return any
   * other non-empty answer as it is; an empty answer or an exception goes on.
   */
  function DecideFileType(attempt: nat, a: Attempt): Option<string> {
    match a
    case Failed => None
    case Reply(content) =>
      var answer := Answer(content);
      match FirstContained(answer, KnownTypes)
      case Some(i) => Some(KnownTypes[i])
      case None =>
        if attempt == 1 then Some("")
        else if answer != "" then Some(answer)
        else None
  }

  /** The model loop of `get_file_type` from attempt `attempt` on: the value returned and the number of calls. */
  function AiFileType(outs: seq<Attempt>, attempt: nat): (r: (string, nat))
    decreases FileTypeAttempts - attempt
    ensures attempt <= FileTypeAttempts ==> r.1 <= FileTypeAttempts - attempt
  {
    if attempt >= FileTypeAttempts then ("", 0)
    else match DecideFileType(attempt, AttemptAt(outs, attempt))
      case Some(v) => (v, 1)
      case None =>
        var rest := AiFileType(outs, attempt + 1);
        (rest.0, rest.1 + 1)
  }

  /** What `get_file_type` returns, with the number of model calls. */
  function FileType(text: string, outs: seq<Attempt>): (string, nat) {
    match FirstContained(Lower(text), KnownTypes)
    case Some(i) => (KnownTypes[i], 0)
    case None => AiFileType(outs, 0)
  }

  /** The loop `for ext in [...]: if ext in s: return ext` that both halves of `get_file_type` run. */
  method FindKnownType(s: string) returns (found: Option<nat>)
    ensures found == FirstContained(s, KnownTypes)
  {
    var i := 0;
    while i < |KnownTypes|
      invariant 0 <= i <= |KnownTypes|
      invariant FirstContained(s, KnownTypes) == FirstContainedFrom(s, KnownTypes, i)
    {
      if Contains(s, KnownTypes[i]) {
        return Some(i);
      }
      i := i + 1;
    }
    found := None;
  }

  /** One pass of the body of the model loop of `get_file_type`. */
  method DecideAttempt(attempt: nat, a: Attempt) returns (decision: Option<string>)
    ensures decision == DecideFileType(attempt, a)
  {
    match a {
      case Failed =>
        decision := None;
      case Reply(content) =>
        var answer := Answer(content);
        var found := FindKnownType(answer);
        if found.Some? {
          decision := Some(KnownTypes[found.value]);
        } else if attempt == 1 {
          decision := Some("");
        } else if answer != "" {
          decision := Some(answer);
        } else {
          decision := None;
        }
    }
  }

  /** The model loop of `get_file_type`. */
  method AskFileType(outs: seq<Attempt>) returns (fileType: string, calls: nat)
    ensures (fileType, calls) == AiFileType(outs, 0)
  {
    calls := 0;
    var attempt := 0;
    ghost var spec := AiFileType(outs, attempt);
    while attempt < FileTypeAttempts
      invariant 0 <= attempt <= FileTypeAttempts
      invariant spec == (AiFileType(outs, attempt).0, AiFileType(outs, attempt).1 + calls)
    {
      calls := calls + 1;
      var decision := DecideAttempt(attempt, AttemptAt(outs, attempt));
      if decision.Some? {
        return decision.value, calls;
      }
      attempt := attempt + 1;
    }
    fileType := "";
  }

  /** `get_file_type`: the message itself first, then the model. */
  method GetFileType(text: string, outs: seq<Attempt>) returns (fileType: string, calls: nat)
    ensures (fileType, calls) == FileType(text, outs)
  {
    var found := FindKnownType(Lower(text));
    if found.Some? {
      return KnownTypes[found.value], 0;
    }
    fileType, calls := AskFileType(outs);
  }

  // ----- Properties of the classifiers -----

  /** A typical request, "gera um ficheiro txt com olá mundo", matches the explicit pattern. */
  lemma ExplicitScenario()
    ensures ExplicitFileRequest("gera um ficheiro txt com olá mundo")
  {
    assert "gera um ficheiro txt com olá mundo" == FileVerbs[0] + " um " + FileNouns[1] + " txt com olá mundo";
    VerbThenNoun(0, " um ", 1, " txt com olá mundo");
  }

  /** Every file noun begins and ends with a word character. */
  lemma NounEdges(n: int)
    requires 0 <= n < |FileNouns|
    ensures |FileNouns[n]| > 0 && IsWordChar(FileNouns[n][0]) && IsWordChar(FileNouns[n][|FileNouns[n]| - 1])
  {
  }

  /**
   * A verb, then a gap with no line break that ends in a non-word character,
   * then a noun not followed by a word character, make an explicit request.
   */
  lemma VerbThenNoun(v: int, gap: string, n: int, rest: string)
    requires 0 <= v < |FileVerbs| && 0 <= n < |FileNouns|
    requires gap != [] && !IsWordChar(gap[|gap| - 1]) && forall k :: 0 <= k < |gap| ==> gap[k] != '\n'
    requires rest == [] || !IsWordChar(rest[0])
    ensures ExplicitFileRequest(FileVerbs[v] + gap + FileNouns[n] + rest)
  {
    var verb, noun := FileVerbs[v], FileNouns[n];
    var t := verb + gap + noun + rest;
    var p := |verb| + |gap|;
    NounEdges(n);
    assert t[..|verb|] == verb;
    assert forall k :: |verb| <= k < p ==> t[k] == gap[k - |verb|];
    assert t[p..p + |noun|] == noun;
    assert t[p - 1] == gap[|gap| - 1] && t[p] == noun[0] && t[p + |noun| - 1] == noun[|noun| - 1];
    assert p + |noun| < |t| ==> t[p + |noun|] == rest[0];
    assert StartsWith(t, verb) && NoNewline(t, |verb|, p) && BoundedWordAt(t, noun, p);
  }

  /** `KnownTypes[i]` is the first format, in list order, that occurs in `s`. */
  predicate FirstKnownIn(s: string, i: int) {
    0 <= i < |KnownTypes| && Contains(s, KnownTypes[i]) && forall j :: 0 <= j < i ==> !Contains(s, KnownTypes[j])
  }

  /** Attempt `k` produced an answer that, normalised, is `r`. */
  predicate AnswerIs(outs: seq<Attempt>, k: nat, r: string) {
    AttemptAt(outs, k).Reply? && Answer(AttemptAt(outs, k).content) == r
  }

  /** Attempt `k` produced an answer that contains `r`. */
  predicate NamedInAnswer(outs: seq<Attempt>, k: nat, r: string) {
    AttemptAt(outs, k).Reply? && Contains(Answer(AttemptAt(outs, k).content), r)
  }

  /** Attempt `k`, the first or the third, produced `r` and the loop returned it verbatim. */
  predicate VerbatimAt(outs: seq<Attempt>, k: nat, r: string) {
    k < FileTypeAttempts && k != 1 && AnswerIs(outs, k, r)
  }

  /** A format named in the message itself wins, the first in list order, and the model is not asked. */
  lemma FileTypeFromMessage(text: string, outs: seq<Attempt>)
    requires AnyContained(Lower(text), KnownTypes)
    ensures FileType(text, outs).1 == 0
    ensures exists i :: FirstKnownIn(Lower(text), i) && FileType(text, outs).0 == KnownTypes[i]
  {
    var i := FirstContained(Lower(text), KnownTypes).value;
    assert FileType(text, outs).0 == KnownTypes[i];
  }

  /** A non-empty first answer that names no format is returned as it is, after one call. */
  lemma FirstAnswerVerbatim(outs: seq<Attempt>, content: string)
    requires AttemptAt(outs, 0) == Reply(content)
    requires Answer(content) != "" && !AnyContained(Answer(content), KnownTypes)
    ensures AiFileType(outs, 0) == (Answer(content), 1)
  {
  }

  /**
   * The early exit: when the second attempt is reached and its answer names
   * no format, the loop gives up with `""` although a third attempt remains.
   */
  lemma SecondAttemptGivesUp(outs: seq<Attempt>, content: string)
    requires DecideFileType(0, AttemptAt(outs, 0)).None?
    requires AttemptAt(outs, 1) == Reply(content) && !AnyContained(Answer(content), KnownTypes)
    ensures AiFileType(outs, 0) == ("", 2)
  {
  }

  /** At most three calls, and a format returned by the model loop was named in one of its answers. */
  lemma {:induction false} AiFileTypeSound(outs: seq<Attempt>, attempt: nat)
    requires attempt <= FileTypeAttempts
    ensures AiFileType(outs, attempt).1 <= FileTypeAttempts - attempt
    ensures var r := AiFileType(outs, attempt).0;
      r == "" || exists k :: attempt <= k < FileTypeAttempts && (AnswerIs(outs, k, r) || NamedInAnswer(outs, k, r))
    ensures var r := AiFileType(outs, attempt).0;
      r == "" || r in KnownTypes || (!AnyContained(r, KnownTypes) && exists k :: VerbatimAt(outs, k, r) && attempt <= k)
    decreases FileTypeAttempts - attempt
  {
    if attempt < FileTypeAttempts {
      var a := AttemptAt(outs, attempt);
      match DecideFileType(attempt, a)
      case Some(v) =>
        assert a.Reply?;
        var answer := Answer(a.content);
        var found := FirstContained(answer, KnownTypes);
        if found.Some? {
          assert v == KnownTypes[found.value] && Contains(answer, v);
          assert NamedInAnswer(outs, attempt, v);
        } else if v != "" {
          assert v == answer && attempt != 1;
          assert AnswerIs(outs, attempt, v);
          assert VerbatimAt(outs, attempt, v);
        }
      case None =>
        AiFileTypeSound(outs, attempt + 1);
    }
  }

  /** A format that `get_file_type` returns is named in the message or in one of the model's answers. */
  lemma FileTypeSound(text: string, outs: seq<Attempt>)
    requires FileType(text, outs).0 in KnownTypes
    ensures Contains(Lower(text), FileType(text, outs).0)
      || exists k :: 0 <= k < FileTypeAttempts && NamedInAnswer(outs, k, FileType(text, outs).0)
  {
    var r := FileType(text, outs).0;
    var direct := FirstContained(Lower(text), KnownTypes);
    if direct.Some? {
      assert r == KnownTypes[direct.value];
    } else {
      assert r == AiFileType(outs, 0).0;
      AiFileTypeSound(outs, 0);
      assert r != "";
      var k :| 0 <= k < FileTypeAttempts && (AnswerIs(outs, k, r) || NamedInAnswer(outs, k, r));
      if AnswerIs(outs, k, r) {
        assert OccursAt(r, r, 0);
        assert NamedInAnswer(outs, k, r);
      }
    }
  }

  /** Without the explicit pattern and without a non-empty answer in three attempts, the answer is no. */
  lemma {:induction false} NoAnswerMeansNo(text: string, outs: seq<Attempt>)
    requires !ExplicitFileRequest(Lower(text))
    requires forall k :: 0 <= k < WantsFileAttempts ==> !Answered(AttemptAt(outs, k))
    ensures !WantsFile(text, outs)
  {
  }

  /** The first non-empty answer decides: it is yes exactly when it is affirmative. */
  lemma {:induction false} FirstAnswerDecides(text: string, outs: seq<Attempt>, k: nat)
    requires !ExplicitFileRequest(Lower(text))
    requires k < WantsFileAttempts && Answered(AttemptAt(outs, k))
    requires forall j :: 0 <= j < k ==> !Answered(AttemptAt(outs, j))
    ensures WantsFile(text, outs) <==> Affirmative(Answer(AttemptAt(outs, k).content))
  {
  }
}
