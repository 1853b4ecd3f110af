/**
 * The user profile: the facts the model extracts from messages
 * (`extrair_info_com_ia`), the short memory sentences
 * (`extrair_memoria_resumida` and the merge in `send_message`), and the
 * profile endpoints (`update_user_info_endpoint`, `delete_user_memory`,
 * `delete_all_user_memories`).
 *
 * A profile is a JSON object: a map from keys to values. A value is a
 * string, a list, an object (of which only the keys matter here) or a
 * scalar (a number, a boolean or `null`), which is kept with its truth
 * value; `str()` of a value that is not a string is a parameter.
 */
module Profiles {
  import opened Wrappers
  import opened Strings
  import opened Retry

  datatype Value =
    | VStr(s: string)
    | VList(items: seq<Value>)
    | VDict(keys: seq<string>)
    | VScalar(repr: string, truthy: bool)

  type Profile = map<string, Value>

  /** The only user the back end knows. */
  const DefaultUser: string := "default_user"

  /** The profile key holding the memory sentences. */
  const MemoryKey: string := "memorias_resumidas"

  /** How many memory sentences are kept. */
  const MemoryCap: nat := 20

  /** `executar_prompt`'s default number of attempts, used by both extractors. */
  const PromptAttempts: nat := 3

  // ----- extrair_info_com_ia -----

  /** What `json.loads` makes of a text: an error, a JSON value that is not an object, or an object. */
  datatype Parsed = Invalid | NonObject | Object(fields: Profile)

  /**
   * The match of `\{.*\}` with DOTALL: from the first `{` to the last `}`
   * after it, or nothing when there is no such pair.
   */
  function BraceSpan(text: string): (r: Option<string>)
    ensures r.Some? ==> |r.value| >= 2 && r.value[0] == '{' && r.value[|r.value| - 1] == '}'
  {
    match (FirstIndexOf(text, '{'), LastIndexOf(text, '}'))
    case (Some(i), Some(j)) => if i < j then Some(text[i..j + 1]) else None
    case _ => None
  }

  /** `span` sits at `i` in `text`, with no `{` before it and no `}` after it. */
  predicate MaximalSpanAt(text: string, span: string, i: int) {
    0 <= i && i + |span| <= |text| && text[i..i + |span|] == span
    && (forall k :: 0 <= k < i ==> text[k] != '{')
    && (forall k :: i + |span| <= k < |text| ==> text[k] != '}')
  }

  /**
   * The span is as long as it can be: nothing before it is a `{` and
   * nothing after it is a `}`; and there is no span exactly when no `}`
   * follows a `{`.
   */
  lemma BraceSpanShape(text: string)
    ensures BraceSpan(text).Some? ==> exists i :: MaximalSpanAt(text, BraceSpan(text).value, i)
    ensures BraceSpan(text).None? <==> forall i, j :: 0 <= i < j < |text| && text[i] == '{' ==> text[j] != '}'
  {
    match (FirstIndexOf(text, '{'), LastIndexOf(text, '}'))
    case (Some(i), Some(j)) =>
      if i < j {
        assert |BraceSpan(text).value| == j + 1 - i;
        assert MaximalSpanAt(text, BraceSpan(text).value, i);
      }
    case _ =>
  }

  /** The profile after the extraction, given the model's reply: the object found in it, merged over the old keys. */
  function InfoAfter(info: Profile, reply: Option<string>, parse: string -> Parsed): (r: Profile)
    ensures info.Keys <= r.Keys
  {
    if reply.Some? && reply.value != "" && BraceSpan(reply.value).Some? && parse(BraceSpan(reply.value).value).Object? then
      info + parse(BraceSpan(reply.value).value).fields
    else info
  }

  /**
   * `user_info.update(extracted)`: a key of the extracted object takes its
   * new value, every other key keeps its old one.
   */
  lemma InfoAfterMerge(info: Profile, reply: Option<string>, parse: string -> Parsed)
    requires reply.Some? && BraceSpan(reply.value).Some? && parse(BraceSpan(reply.value).value).Object?
    ensures var fields := parse(BraceSpan(reply.value).value).fields;
      InfoAfter(info, reply, parse).Keys == info.Keys + fields.Keys
      && (forall k :: k in fields ==> InfoAfter(info, reply, parse)[k] == fields[k])
      && (forall k :: k in info && k !in fields ==> InfoAfter(info, reply, parse)[k] == info[k])
  {
  }

  /**
   * `extrair_info_com_ia(user_text, user_info)`: asks the model (attempt
   * outcomes `outs`) and merges in the object found in the reply; with no
   * reply, no braces, invalid JSON or a non-object, the profile is returned
   * as it was.
   */
  method ExtractInfo(info: Profile, outs: seq<Attempt>, parse: string -> Parsed) returns (updated: Profile, calls: nat)
    ensures updated == InfoAfter(info, PromptResult(outs, PromptAttempts), parse)
    ensures 1 <= calls <= PromptAttempts
  {
    var result, n, _ := ExecutePrompt(outs, PromptAttempts);
    calls := n;
    updated := info;
    if result.Some? && result.value != "" {
      var span := BraceSpan(result.value);
      if span.Some? {
        var extracted := parse(span.value);
        if extracted.Object? {
          updated := info + extracted.fields;
        }
      }
    }
  }

  // ----- extrair_memoria_resumida -----

  /** The greeting vocabulary. */
  const Greetings: seq<string> := [
    "bom dia", "boa tarde", "boa noite", "olá", "ola", "oi", "tudo bem", "alô", "hello", "hi",
    "boa madrugada", "saudações", "salve", "e aí", "eai", "yo", "hey", "oiê", "oii", "oiii", "al"
  ]

  /** The letters of the five classes `[a\slo]`, `[o\si]`, `[o\sla]`, `[h\si]`, `[e\sai]`; each class also admits Unicode whitespace. */
  const GreetingClasses: seq<string> := ["alo", "oi", "ola", "hi", "eai"]

  /** `re.fullmatch('^[<letters>\s]+$', t)`. */
  predicate FullMatchClass(t: string, letters: string) {
    |t| > 0 && forall i :: 0 <= i < |t| ==> IsPySpace(t[i]) || t[i] in letters
  }

  predicate MatchesGreetingClass(t: string) {
    exists j :: 0 <= j < |GreetingClasses| && FullMatchClass(t, GreetingClasses[j])
  }

  /** The message is judged on `user_text.strip().lower()`. */
  function Normalised(text: string): string {
    Lower(Strip(text))
  }

  /** The memory extractor asks the model nothing for these messages. */
  predicate SkipsMemory(text: string) {
    var t := Normalised(text);
    MatchesGreetingClass(t) || t in Greetings || |t| < 10
  }

  /**
   * Every word of the vocabulary but `boa madrugada` is shorter than ten
   * characters, so the vocabulary adds only that one to the length test.
   */
  lemma GreetingsBeyondLength(text: string)
    ensures SkipsMemory(text) <==> MatchesGreetingClass(Normalised(text)) || Normalised(text) == "boa madrugada" || |Normalised(text)| < 10
  {
  }

  /** A greeting repeated with a no-break space between the words is still a greeting, though ten characters long or more. */
  lemma NoBreakSpaceGreeting()
    ensures SkipsMemory("oi oi oi\U{00A0}oi")
  {
    var t := "oi oi oi\U{00A0}oi";
    assert TrimStart(t) == t;
    assert TrimEnd(t) == t;
    LowerAt(t);
    assert Lower(t) == t;
    assert FullMatchClass(t, GreetingClasses[1]);
  }

  /** The reply the extractor accepts: a non-empty reply stripped, unless it is `N/A`. */
  function AcceptSentence(reply: Option<string>): (r: Option<string>)
    ensures r.Some? ==> reply.Some? && r.value == Strip(reply.value) && r.value != "N/A"
    ensures r.None? ==> reply.None? || reply.value == "" || Strip(reply.value) == "N/A"
  {
    if reply.Some? && reply.value != "" && Strip(reply.value) != "N/A" then Some(Strip(reply.value)) else None
  }

  /** What `extrair_memoria_resumida` returns. */
  function MemorySentence(text: string, outs: seq<Attempt>): Option<string> {
    if SkipsMemory(text) then None else AcceptSentence(PromptResult(outs, PromptAttempts))
  }

  /**
   * `extrair_memoria_resumida(user_text)`: no call at all for short
   * messages and greetings; otherwise one prompt, whose accepted reply is
   * the sentence.
   */
  method ExtractMemory(text: string, outs: seq<Attempt>) returns (sentence: Option<string>, calls: nat)
    ensures sentence == MemorySentence(text, outs)
    ensures SkipsMemory(text) ==> calls == 0 && sentence.None?
    ensures !SkipsMemory(text) ==> 1 <= calls <= PromptAttempts
  {
    var t := Normalised(text);
    var j := 0;
    while j < |GreetingClasses|
      invariant 0 <= j <= |GreetingClasses|
      invariant forall m :: 0 <= m < j ==> !FullMatchClass(t, GreetingClasses[m])
    {
      if FullMatchClass(t, GreetingClasses[j]) {
        return None, 0;
      }
      j := j + 1;
    }
    if t in Greetings || |t| < 10 {
      return None, 0;
    }
    var frase, n, _ := ExecutePrompt(outs, PromptAttempts);
    calls := n;
    if frase.Some? && frase.value != "" && Strip(frase.value) != "N/A" {
      sentence := Some(Strip(frase.value));
    } else {
      sentence := None;
    }
  }

  /** A sentence that is accepted has no surrounding whitespace. */
  lemma SentenceIsStripped(text: string, outs: seq<Attempt>)
    requires MemorySentence(text, outs).Some?
    ensures var s := MemorySentence(text, outs).value;
      s != "N/A" && (s == [] || (!IsSpace(s[0]) && !IsSpace(s[|s| - 1])))
  {
    var f := PromptResult(outs, PromptAttempts).value;
    TrimStartShape(f);
    TrimEndShape(TrimStart(f));
    var s := Strip(f);
    if s != [] {
      assert s[0] == TrimStart(f)[0];
    }
  }

  // ----- the memory merge -----

  /** The last `MemoryCap` entries: `lst[-20:]`. */
  function KeepRecent(mems: seq<Value>): (r: seq<Value>)
    ensures |r| <= MemoryCap && |r| <= |mems|
    ensures r == mems[|mems| - |r|..]
    ensures |mems| <= MemoryCap ==> r == mems
  {
    if |mems| > MemoryCap then mems[|mems| - MemoryCap..] else mems
  }

  /**
   * The merge in `send_message`: a sentence not yet in the list is
   * appended, then only the 20 most recent are kept; the flag says whether
   * it was appended.
   */
  function MergeMemory(mems: seq<Value>, sentence: string): (seq<Value>, bool) {
    if VStr(sentence) in mems then (mems, false) else (KeepRecent(mems + [VStr(sentence)]), true)
  }

  predicate NoDuplicates(s: seq<Value>) {
    forall i, j :: 0 <= i < j < |s| ==> s[i] != s[j]
  }

  /**
   * The flag is set exactly when the sentence was new. Then the list holds
   * at most 20 entries, the most recent ones of the old list in their old
   * order followed by the sentence; otherwise the list is unchanged.
   */
  lemma MergeMemorySpec(mems: seq<Value>, sentence: string)
    ensures MergeMemory(mems, sentence).1 <==> VStr(sentence) !in mems
    ensures var (r, appended) := MergeMemory(mems, sentence);
      appended ==> (1 <= |r| <= MemoryCap && r[|r| - 1] == VStr(sentence)
        && r[..|r| - 1] == mems[|mems| - (|r| - 1)..]
        && |r| == (if |mems| < MemoryCap then |mems| + 1 else MemoryCap))
    ensures !MergeMemory(mems, sentence).1 ==> MergeMemory(mems, sentence).0 == mems
    ensures VStr(sentence) in MergeMemory(mems, sentence).0
  {
    if VStr(sentence) !in mems {
      var full := mems + [VStr(sentence)];
      var r := KeepRecent(full);
      assert r[|r| - 1] == full[|full| - 1];
      assert r[..|r| - 1] == mems[|mems| - (|r| - 1)..];
    }
  }

  /** A list without repeated sentences keeps that property. */
  lemma MergeKeepsNoDuplicates(mems: seq<Value>, sentence: string)
    requires NoDuplicates(mems)
    ensures NoDuplicates(MergeMemory(mems, sentence).0)
  {
    if VStr(sentence) !in mems {
      var full := mems + [VStr(sentence)];
      assert NoDuplicates(full) by {
        forall i, j | 0 <= i < j < |full| ensures full[i] != full[j] {
          if j == |mems| {
            assert full[i] == mems[i];
          }
        }
      }
      var r := KeepRecent(full);
      var d := |full| - |r|;
      forall i, j | 0 <= i < j < |r| ensures r[i] != r[j] {
        assert r[i] == full[d + i] && r[j] == full[d + j];
      }
    }
  }

  /** What the merge leaves: the new profile, whether the sentence was appended, whether the handler failed. */
  datatype MergeOutcome = MergeOutcome(profile: Profile, appended: bool, crashed: bool)

  /**
   * `sentence in v` for a value under the memory key that is not a list:
   * a substring test on a string, a key test on an object; on a scalar it
   * raises (`None`).
   */
  function InNonList(v: Value, sentence: string): Option<bool>
    requires !v.VList?
  {
    match v
    case VStr(s) => Some(Contains(s, sentence))
    case VDict(keys) => Some(sentence in keys)
    case VScalar(_, _) => None
  }

  /**
   * The merge on one profile: the list is created when missing. A value
   * under the memory key that is not a list makes the handler fail:
   * `in` raises on a scalar, and `append` raises on a string or an object
   * that does not already hold the sentence; when it does hold it, nothing
   * is appended and nothing fails.
   */
  function RememberIn(p: Profile, sentence: string): MergeOutcome {
    if MemoryKey in p && !p[MemoryKey].VList? then
      MergeOutcome(p, false, InNonList(p[MemoryKey], sentence) != Some(true))
    else
      var mems := if MemoryKey in p then p[MemoryKey].items else [];
      var merged := MergeMemory(mems, sentence);
      MergeOutcome(p[MemoryKey := VList(merged.0)], merged.1, false)
  }

  /** The memory list of a profile, empty when missing. */
  function Memories(p: Profile): seq<Value>
    requires MemoryKey !in p || p[MemoryKey].VList?
  {
    if MemoryKey in p then p[MemoryKey].items else []
  }

  /**
   * On a profile whose memories are a list (or missing), the merge never
   * fails, stores the merged list under the memory key and keeps every
   * other key as it was.
   */
  lemma RememberInKeeps(p: Profile, sentence: string)
    requires MemoryKey !in p || p[MemoryKey].VList?
    ensures !RememberIn(p, sentence).crashed
    ensures RememberIn(p, sentence).appended == MergeMemory(Memories(p), sentence).1
    ensures RememberIn(p, sentence).profile == p[MemoryKey := VList(MergeMemory(Memories(p), sentence).0)]
    ensures forall k :: k in p && k != MemoryKey ==> RememberIn(p, sentence).profile[k] == p[k]
  {
    OthersKept(p, MemoryKey, VList(MergeMemory(Memories(p), sentence).0));
  }

  /**
   * On a profile whose memories are not a list, the merge changes nothing
   * and appends nothing; it fails unless the memories are a string holding
   * the sentence or an object with the sentence as a key.
   */
  lemma RememberInOther(p: Profile, sentence: string)
    requires MemoryKey in p && !p[MemoryKey].VList?
    ensures RememberIn(p, sentence).profile == p && !RememberIn(p, sentence).appended
    ensures var v := p[MemoryKey];
      RememberIn(p, sentence).crashed
      <==> !((v.VStr? && Contains(v.s, sentence)) || (v.VDict? && sentence in v.keys))
  {
  }

  /** Writing one key of a profile leaves the other keys alone. */
  lemma OthersKept(m: Profile, key: string, v: Value)
    ensures forall k :: k in m && k != key ==> m[key := v][k] == m[k]
  {
  }

  /**
   * The merged list holds the sentence, stays at most 20 entries long and
   * free of repeats when it was, and the sentence was appended exactly when
   * it was new.
   */
  lemma RememberInList(p: Profile, sentence: string)
    requires MemoryKey !in p || p[MemoryKey].VList?
    ensures var mems, merged := Memories(p), MergeMemory(Memories(p), sentence);
      (merged.1 <==> VStr(sentence) !in mems)
      && VStr(sentence) in merged.0
      && (|mems| <= MemoryCap ==> |merged.0| <= MemoryCap)
      && (NoDuplicates(mems) ==> NoDuplicates(merged.0))
  {
    var mems := Memories(p);
    MergeMemorySpec(mems, sentence);
    if NoDuplicates(mems) {
      MergeKeepsNoDuplicates(mems, sentence);
    }
  }

  // ----- update_user_info_endpoint -----

  /** `str(v)`: the text of a string, `show(v)` for anything else. */
  function Str(v: Value, show: Value -> string): string {
    if v.VStr? then v.s else show(v)
  }

  /** One value of the posted profile: strings and list items cleaned and cut to 200 characters. */
  function SanitizeValue(v: Value, clean: string -> string, show: Value -> string): Value {
    match v
    case VStr(s) => VStr(Take(clean(s), 200))
    case VList(items) => VList(seq(|items|, i requires 0 <= i < |items| => VStr(Take(clean(Str(items[i], show)), 200))))
    case VDict(_) => v
    case VScalar(_, _) => v
  }

  /** The profile `update_user_info_endpoint` stores. */
  function SanitizeProfile(posted: Profile, clean: string -> string, show: Value -> string): (r: Profile)
    ensures r.Keys == posted.Keys
  {
    map k | k in posted :: SanitizeValue(posted[k], clean, show)
  }

  /** Every string stored, alone or in a list, has at most 200 characters; other values are kept unchanged. */
  lemma SanitizeProfileBounded(posted: Profile, clean: string -> string, show: Value -> string, k: string)
    requires k in posted
    ensures var v := SanitizeProfile(posted, clean, show)[k];
      (v.VStr? ==> posted[k].VStr? && |v.s| <= 200 && v.s == Take(clean(posted[k].s), 200))
      && (v.VList? ==> (posted[k].VList? && |v.items| == |posted[k].items|
          && forall i :: 0 <= i < |v.items| ==> v.items[i].VStr? && |v.items[i].s| <= 200))
      && (!v.VStr? && !v.VList? ==> v == posted[k])
  {
    var v := SanitizeProfile(posted, clean, show)[k];
    assert v == SanitizeValue(posted[k], clean, show);
    if posted[k].VList? {
      var items := posted[k].items;
      forall i | 0 <= i < |v.items| ensures v.items[i].VStr? && |v.items[i].s| <= 200 {
        assert v.items[i] == VStr(Take(clean(Str(items[i], show)), 200));
      }
    }
  }

  // ----- the profile store -----

  /** What a handler that updates the profile reports. */
  datatype Outcome = Ok | Error

  /** `user_infos`: one profile per user id. */
  class ProfileStore {
    var users: map<string, Profile>

    constructor (initial: map<string, Profile>)
      ensures users == initial
    {
      users := initial;
    }

    /** The profile of the default user, `{}` when there is none. */
    function Current(): Profile
      reads this
    {
      if DefaultUser in users then users[DefaultUser] else map[]
    }

    /** `send_message` stores the extracted profile only when it differs from the current one. */
    method StoreInfo(updated: Profile)
      modifies this
      ensures updated != old(Current()) ==> users == old(users)[DefaultUser := updated]
      ensures updated == old(Current()) ==> users == old(users)
      ensures Current() == updated
    {
      if updated != Current() {
        users := users[DefaultUser := updated];
      }
    }

    /**
     * The memory merge as `send_message` runs it, on the default user's
     * profile; `RememberIn` says what it does.
     */
    method Remember(sentence: string) returns (appended: bool, crashed: bool)
      modifies this
      ensures (old(users)[DefaultUser := RememberIn(old(Current()), sentence).profile], appended, crashed)
        == (users, RememberIn(old(Current()), sentence).appended, RememberIn(old(Current()), sentence).crashed)
    {
      var profile := Current();
      var outcome := RememberIn(profile, sentence);
      users := users[DefaultUser := outcome.profile];
      appended, crashed := outcome.appended, outcome.crashed;
    }

    /** `update_user_info_endpoint`: the posted profile, sanitised, replaces the stored one whole. */
    method SetProfile(posted: Profile, clean: string -> string, show: Value -> string)
      modifies this
      ensures users == old(users)[DefaultUser := SanitizeProfile(posted, clean, show)]
    {
      users := users[DefaultUser := SanitizeProfile(posted, clean, show)];
    }

    /**
     * `delete_user_memory`: `idx` is what `int(idx)` gives, `None` when it
     * raises. The entry is removed when there is a memory list and the
     * index is in range; anything else is an error and changes nothing.
     */
    method DeleteMemory(idx: Option<int>) returns (outcome: Outcome)
      modifies this
      ensures outcome == Ok <==> old(DefaultUser in users && MemoryKey in users[DefaultUser]
        && users[DefaultUser][MemoryKey].VList? && idx.Some? && 0 <= idx.value < |users[DefaultUser][MemoryKey].items|)
      ensures outcome == Ok ==> var items := old(users[DefaultUser][MemoryKey].items);
        users == old(users)[DefaultUser := old(users[DefaultUser])[MemoryKey := VList(items[..idx.value] + items[idx.value + 1..])]]
      ensures outcome == Error ==> users == old(users)
    {
      if DefaultUser in users && MemoryKey in users[DefaultUser] && idx.Some? {
        var v := users[DefaultUser][MemoryKey];
        if v.VList? && 0 <= idx.value < |v.items| {
          var i := idx.value;
          users := users[DefaultUser := users[DefaultUser][MemoryKey := VList(v.items[..i] + v.items[i + 1..])]];
          return Ok;
        }
      }
      return Error;
    }

    /** `delete_all_user_memories`: empties the memory list when the key exists, whatever its value was. */
    method DeleteAll() returns (outcome: Outcome)
      modifies this
      ensures outcome == Ok <==> old(DefaultUser in users && MemoryKey in users[DefaultUser])
      ensures outcome == Ok ==> users == old(users)[DefaultUser := old(users[DefaultUser])[MemoryKey := VList([])]]
      ensures outcome == Error ==> users == old(users)
    {
      if DefaultUser in users && MemoryKey in users[DefaultUser] {
        users := users[DefaultUser := users[DefaultUser][MemoryKey := VList([])]];
        return Ok;
      }
      return Error;
    }
  }

  /** Removing entry `i` from a list without repeats leaves the others in order and drops exactly that sentence. */
  lemma DeleteAtSpec(items: seq<Value>, i: nat)
    requires i < |items| && NoDuplicates(items)
    ensures var r := items[..i] + items[i + 1..];
      |r| == |items| - 1 && items[i] !in r && NoDuplicates(r)
      && forall k :: 0 <= k < |r| ==> r[k] == (if k < i then items[k] else items[k + 1])
  {
    var r := items[..i] + items[i + 1..];
    forall k | 0 <= k < |r| ensures r[k] == (if k < i then items[k] else items[k + 1]) {
    }
    forall a, b | 0 <= a < b < |r| ensures r[a] != r[b] {
      var a', b' := if a < i then a else a + 1, if b < i then b else b + 1;
      assert r[a] == items[a'] && r[b] == items[b'];
    }
  }
}
