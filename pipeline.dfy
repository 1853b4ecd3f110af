/**
 * `send_message`, the handler behind `/chat/<cid>/send`, with the cancel
 * endpoint and the settings it reads.
 *
 * Everything the handler learns from outside is an input: the cleaner
 * (`bleach.clean`), the outcomes of the model calls made by each extractor
 * and classifier, the reply of the main chat call, whether the file writer
 * and the image generator succeed, the clock, and the naming call. The
 * system prompt and the profile context sent to the model are free text and
 * are not modelled; the history sent with them is.
 */
module Pipeline {
  import opened Wrappers
  import opened Strings
  import opened Retry
  import opened Classifier
  import opened Files
  import opened Profiles
  import opened Chats

  // ----- settings -----

  /** The `memory` part of the settings. */
  datatype MemorySettings = MemorySettings(referenceSavedMemories: bool, referenceChatHistory: bool)

  datatype Settings = Settings(theme: string, language: string, memory: MemorySettings)

  /** `get_default_settings()`: dark theme, automatic language, saved memories on, chat history off. */
  function DefaultSettings(): (s: Settings)
    ensures s.theme == "dark" && s.language == "auto"
    ensures s.memory.referenceSavedMemories && !s.memory.referenceChatHistory
  {
    Settings("dark", "auto", MemorySettings(true, false))
  }

  // ----- inputs from outside -----

  /** What the handler's foreign calls produce for one request. */
  datatype Oracles = Oracles(
    clean: string -> string,
    infoOuts: seq<Attempt>,
    parse: string -> Parsed,
    memoryOuts: seq<Attempt>,
    chatReply: Attempt,
    wantOuts: seq<Attempt>,
    typeOuts: seq<Attempt>,
    writerOk: bool,
    imageOk: bool,
    now: nat,
    nameReply: Attempt)

  const MaxMessageLength: nat := 20000

  const FallbackReply: string := "Lamento, não consigo processar isso agora."

  const AskFormatText: string := "Por favor, indique o tipo de ficheiro (ex: pdf, docx, txt, etc.)"

  const CancelText: string := "\U{23F9}\U{FE0F} Resposta cancelada pelo usuário."

  /** The content of the main chat reply, or the fixed apology when the call fails. */
  function AiText(reply: Attempt): string {
    if reply.Reply? then reply.content else FallbackReply
  }

  function DownloadUrl(cid: string, fileName: string): string {
    "/files/" + SanitizeFilename(cid) + "/" + fileName
  }

  /** The reply with the link to a generated file appended. */
  function FileReply(aiText: string, cid: string, fileName: string): string {
    aiText + "\n\n[Download do arquivo gerado](" + DownloadUrl(cid, fileName) + ")"
  }

  function ImageFileName(now: nat): string {
    "imagem_" + NatToString(now) + ".png"
  }

  function ImageReply(cid: string, now: nat): string {
    "Imagem gerada com sucesso! [Download da imagem gerada](" + DownloadUrl(cid, ImageFileName(now)) + ")"
  }

  // ----- the specification -----

  /** The state the handler reads and writes: the chats, the profiles and the cancel flags. */
  datatype World = World(chats: map<string, ChatData>, users: map<string, Profile>, cancelled: set<string>)

  datatype SendResult =
    | EmptyMessage
    | MessageTooLong
    | ChatNotFound
    | Crash
    | Replied(aiText: string, blockIdx: Option<nat>, memoryUpdated: bool)

  /**
   * The profile after the two extractors: the new users map, the profile
   * the fact extractor returned (`updated_info`), whether a memory was
   * added, whether the merge failed.
   */
  datatype ProfileOutcome = ProfileOutcome(users: map<string, Profile>, info: Profile, memoryUpdated: bool, crashed: bool)

  function CurrentProfile(users: map<string, Profile>): Profile {
    if DefaultUser in users then users[DefaultUser] else map[]
  }

  /**
   * The profile part of `send_message`: the extracted facts are stored when
   * they differ from the current profile; a non-empty memory sentence is
   * then merged into the list.
   */
  function ProfileStep(users: map<string, Profile>, text: string, o: Oracles): ProfileOutcome {
    var current := CurrentProfile(users);
    var info := InfoAfter(current, PromptResult(o.infoOuts, PromptAttempts), o.parse);
    var stored := if info != current then users[DefaultUser := info] else users;
    var sentence := MemorySentence(text, o.memoryOuts);
    if sentence.Some? && sentence.value != "" then
      var merged := RememberIn(CurrentProfile(stored), sentence.value);
      ProfileOutcome(stored[DefaultUser := merged.profile], info, merged.appended, merged.crashed)
    else ProfileOutcome(stored, info, false, false)
  }

  /** A memory value that is truthy and cannot be iterated: a non-zero number or `true`. */
  predicate MemoriesNotIterable(profile: Profile) {
    MemoryKey in profile && profile[MemoryKey].VScalar? && profile[MemoryKey].truthy
  }

  /**
   * The prompt context can be built. With saved memories referenced and a
   * non-empty `updated_info`, the stored memories are iterated when truthy,
   * which raises on a number or `true`; with the chat history referenced,
   * every block's `selected` must index both of its lists.
   */
  predicate ContextBuilds(s: MemorySettings, p: ProfileOutcome, blocks: seq<Block>) {
    !(s.referenceSavedMemories && p.info != map[] && MemoriesNotIterable(CurrentProfile(p.users)))
    && !(s.referenceChatHistory && History(blocks).None?)
  }

  /** Which of the handler's exits a request takes once the profile is updated. */
  datatype Route = AskFormat | FileLink(fileName: string) | ImageLink | ImageFailed | Cancelled | Plain

  /**
   * The branch order of `send_message`, from what the classifiers decided:
   * a wanted file of unknown format asks for the format; a generated file
   * returns its link; a failed generation falls through to the image test;
   * then the cancel flag; then the plain reply. `fileType` is only looked
   * at when a file is wanted.
   */
  function RouteFrom(wants: bool, fileType: string, generated: Option<string>, image: bool, imageOk: bool, cancelled: bool): (r: Route)
    ensures r == AskFormat <==> wants && fileType !in KnownTypes
    ensures r.FileLink? <==> wants && fileType in KnownTypes && generated.Some?
    ensures r == Cancelled <==> cancelled && !image && !(wants && (fileType !in KnownTypes || generated.Some?))
    ensures r == ImageLink <==> image && imageOk && !(wants && (fileType !in KnownTypes || generated.Some?))
    ensures r == ImageFailed <==> image && !imageOk && !(wants && (fileType !in KnownTypes || generated.Some?))
    ensures r == Plain <==> !cancelled && !image && !(wants && (fileType !in KnownTypes || generated.Some?))
  {
    if wants && fileType !in KnownTypes then AskFormat
    else if wants && generated.Some? then FileLink(generated.value)
    else if image then (if imageOk then ImageLink else ImageFailed)
    else if cancelled then Cancelled
    else Plain
  }

  /** The exit `send_message` takes for the cleaned message `text`. */
  function RouteOf(text: string, o: Oracles, cancelled: bool): Route {
    var fileType := FileType(text, o.typeOuts).0;
    RouteFrom(WantsFile(text, o.wantOuts), fileType, GeneratedFileName(fileType, o.now, o.writerOk),
      IsImageRequest(text), o.imageOk, cancelled)
  }

  /** The chat after a plain reply: answered, and named by the model when it is the first block. */
  function PlainChat(chat: ChatData, text: string, reply: string, o: Oracles): ChatData {
    var answered := WithBlock(chat, text, Some(reply));
    if chat.blocks == [] && SuggestedName(text, o.nameReply) != "" then answered.(name := SuggestedName(text, o.nameReply))
    else answered
  }

  /** The chats with chat `cid` answered: one more block, for `text`, with response `reply`. */
  function AnswerIn(chats: map<string, ChatData>, cid: string, text: string, reply: string): map<string, ChatData>
    requires cid in chats
  {
    chats[cid := WithBlock(chats[cid], text, Some(reply))]
  }

  /**
   * An accepted request after the pending block is stored: `p` is what the
   * profile step did, `contextOk` whether the prompt context (saved
   * memories and history, when asked for) could be built, `route` the exit
   * taken.
   */
  function Outcome(w: World, cid: string, text: string, o: Oracles, p: ProfileOutcome, contextOk: bool, route: Route): (World, SendResult)
    requires cid in w.chats
  {
    var chat := w.chats[cid];
    var idx := |chat.blocks|;
    var pending := w.chats[cid := WithBlock(chat, text, None)];
    if p.crashed || !contextOk then (World(pending, p.users, w.cancelled), Crash)
    else match route
      case AskFormat =>
        (World(AnswerIn(w.chats, cid, text, AskFormatText), p.users, w.cancelled), Replied(AskFormatText, Some(idx), false))
      case FileLink(fileName) =>
        var reply := FileReply(AiText(o.chatReply), cid, fileName);
        (World(AnswerIn(w.chats, cid, text, reply), p.users, w.cancelled), Replied(reply, Some(idx), true))
      case ImageLink =>
        var reply := ImageReply(cid, o.now);
        (World(AnswerIn(w.chats, cid, text, reply), p.users, w.cancelled), Replied(reply, Some(idx), false))
      case ImageFailed =>
        (World(pending, p.users, w.cancelled), Crash)
      case Cancelled =>
        (World(AnswerIn(w.chats, cid, text, CancelText), p.users, w.cancelled - {cid}), Replied(CancelText, None, p.memoryUpdated))
      case Plain =>
        var reply := AiText(o.chatReply);
        (World(w.chats[cid := PlainChat(chat, text, reply, o)], p.users, w.cancelled), Replied(reply, Some(idx), p.memoryUpdated))
  }

  /**
   * An accepted request fails exactly when the profile step raised, the
   * prompt context could not be built, or the image generation failed.
   */
  lemma CrashIff(w: World, cid: string, text: string, o: Oracles, p: ProfileOutcome, contextOk: bool, route: Route)
    requires cid in w.chats
    ensures Outcome(w, cid, text, o, p, contextOk, route).1 == Crash <==> p.crashed || !contextOk || route == ImageFailed
  {
  }

  /** The request passes the three checks made before anything is stored. */
  predicate Accepted(w: World, cid: string, message: Option<string>, o: Oracles) {
    message.Some? && message.value != "" && |o.clean(message.value)| <= MaxMessageLength && cid in w.chats
  }

  /** `send_message(cid)` on world `w`, with the posted `message` (`None` when missing). */
  function Send(w: World, cid: string, message: Option<string>, o: Oracles, s: MemorySettings): (World, SendResult) {
    if message.None? || message.value == "" then (w, EmptyMessage)
    else if |o.clean(message.value)| > MaxMessageLength then (w, MessageTooLong)
    else if cid !in w.chats then (w, ChatNotFound)
    else
      var text := o.clean(message.value);
      var p := ProfileStep(w.users, text, o);
      Outcome(w, cid, text, o, p, ContextBuilds(s, p, WithBlock(w.chats[cid], text, None).blocks),
        RouteOf(text, o, cid in w.cancelled))
  }

  // ----- properties of the specification -----

  /** An empty message, a cleaned message over 20000 characters or an unknown chat is refused and nothing changes. */
  lemma RejectedChangesNothing(w: World, cid: string, message: Option<string>, o: Oracles, s: MemorySettings)
    requires !Accepted(w, cid, message, o)
    ensures Send(w, cid, message, o, s).0 == w
    ensures Send(w, cid, message, o, s).1 in {EmptyMessage, MessageTooLong, ChatNotFound}
    ensures Send(w, cid, message, o, s).1 == EmptyMessage <==> message.None? || message.value == ""
  {
  }

  /**
   * An accepted message adds exactly one block to its chat, whatever exit
   * it takes: its only user variant is the cleaned message, it has one
   * response and shows variant 0. The earlier blocks and every other chat
   * are untouched, and the block index returned is the new block's.
   */
  lemma AppendsOneBlock(w: World, cid: string, text: string, o: Oracles, p: ProfileOutcome, contextOk: bool, route: Route)
    requires cid in w.chats
    ensures var (w', r) := Outcome(w, cid, text, o, p, contextOk, route);
      var old_ := w.chats[cid].blocks;
      w'.chats.Keys == w.chats.Keys
      && (forall c :: c in w.chats && c != cid ==> w'.chats[c] == w.chats[c])
      && |w'.chats[cid].blocks| == |old_| + 1
      && w'.chats[cid].blocks[..|old_|] == old_
      && w'.chats[cid].blocks[|old_|].userVariants == [text]
      && |w'.chats[cid].blocks[|old_|].aiResponses| == 1
      && w'.chats[cid].blocks[|old_|].selected == 0
      && (r.Replied? && r.blockIdx.Some? ==> r.blockIdx.value == |w'.chats[cid].blocks| - 1)
  {
    if !p.crashed && contextOk {
      match route
      case AskFormat =>
      case FileLink(_) =>
      case ImageLink =>
      case ImageFailed =>
      case Cancelled =>
      case Plain =>
    }
  }

  /** The text returned is the text stored in the new block; after a failure the block stays pending. */
  lemma ReplyIsStored(w: World, cid: string, text: string, o: Oracles, p: ProfileOutcome, contextOk: bool, route: Route)
    requires cid in w.chats
    ensures var (w', r) := Outcome(w, cid, text, o, p, contextOk, route);
      var b := w'.chats[cid].blocks[|w.chats[cid].blocks|];
      (r.Replied? ==> b.aiResponses == [Some(r.aiText)])
      && (r == Crash ==> b.aiResponses == [None])
      && (r.Replied? || r == Crash)
  {
  }

  /**
   * The cancel flag is looked at only on the plain path: it is cleared
   * exactly when the cancel text is returned, and that answer is the only
   * one without a block index. The file and image exits leave it set.
   */
  lemma CancelOnlyOnPlainPath(w: World, cid: string, text: string, o: Oracles, p: ProfileOutcome, contextOk: bool, route: Route)
    requires cid in w.chats
    requires route == Cancelled ==> cid in w.cancelled
    ensures var (w', r) := Outcome(w, cid, text, o, p, contextOk, route);
      (w'.cancelled == w.cancelled || w'.cancelled == w.cancelled - {cid})
      && (cid in w.cancelled && cid !in w'.cancelled <==> r.Replied? && r.blockIdx.None?)
      && (r.Replied? && r.blockIdx.None? ==> r.aiText == CancelText && route == Cancelled)
  {
  }

  /** A raised flag is reached only when no file is asked for or generated and the message is no image request. */
  lemma CancelledRoute(text: string, o: Oracles, cancelled: bool)
    ensures RouteOf(text, o, cancelled) == Cancelled <==>
      cancelled && !IsImageRequest(text)
      && (WantsFile(text, o.wantOuts) ==> (FileType(text, o.typeOuts).0 in KnownTypes
          && GeneratedFileName(FileType(text, o.typeOuts).0, o.now, o.writerOk).None?))
  {
  }

  /**
   * The memory flag: false when the format is asked for and for images,
   * true with a file link; on the other exits it says whether a sentence
   * was appended.
   */
  lemma MemoryFlag(w: World, cid: string, text: string, o: Oracles, p: ProfileOutcome, contextOk: bool, route: Route)
    requires cid in w.chats
    ensures var r := Outcome(w, cid, text, o, p, contextOk, route).1;
      r.Replied? ==> r.memoryUpdated == match route
        case AskFormat => false
        case FileLink(_) => true
        case ImageLink => false
        case _ => p.memoryUpdated
  {
  }

  /**
   * A chat is renamed only on the plain path and only by its first message
   * (the chat has exactly one block afterwards), whatever name it had.
   */
  lemma NamedOnlyByFirstMessage(w: World, cid: string, text: string, o: Oracles, p: ProfileOutcome, contextOk: bool, route: Route)
    requires cid in w.chats
    ensures var (w', r) := Outcome(w, cid, text, o, p, contextOk, route);
      w'.chats[cid].name != w.chats[cid].name ==>
        (w.chats[cid].blocks == [] && r.Replied? && r.blockIdx == Some(0) && route == Plain
        && w'.chats[cid].name == SuggestedName(text, o.nameReply))
  {
  }

  /**
   * Saved memories that are a non-zero number or `true` make the handler
   * fail when saved memories are referenced: with no reply from the fact
   * extractor and a message the memory extractor skips, nothing replaces
   * them before the context is built, and the new block stays pending.
   */
  lemma UnreadableMemoriesFail(w: World, cid: string, message: Option<string>, o: Oracles, s: MemorySettings)
    requires Accepted(w, cid, message, o) && s.referenceSavedMemories
    requires MemoriesNotIterable(CurrentProfile(w.users))
    requires PromptResult(o.infoOuts, PromptAttempts).None? && SkipsMemory(o.clean(message.value))
    ensures Send(w, cid, message, o, s).1 == Crash
    ensures Send(w, cid, message, o, s).0
      == World(w.chats[cid := WithBlock(w.chats[cid], o.clean(message.value), None)], w.users, w.cancelled)
  {
    var text := o.clean(message.value);
    var p := ProfileStep(w.users, text, o);
    assert p.info == CurrentProfile(w.users) && p.users == w.users;
    assert MemoryKey in p.info;
    assert !ContextBuilds(s, p, WithBlock(w.chats[cid], text, None).blocks);
  }

  /** The profile change does not depend on the exit taken. */
  lemma ProfileIndependentOfRoute(w: World, cid: string, text: string, o: Oracles, p: ProfileOutcome, contextOk: bool, route: Route)
    requires cid in w.chats
    ensures Outcome(w, cid, text, o, p, contextOk, route).0.users == p.users
  {
  }

  /** A history that is sent ends with the new message and its pending response, before the message is sent again on its own. */
  lemma HistoryEndsWithPending(chat: ChatData, text: string)
    requires History(WithBlock(chat, text, None).blocks).Some?
    ensures var h := History(WithBlock(chat, text, None).blocks).value;
      |h| >= 2 && h[|h| - 2] == Message(User, Some(text)) && h[|h| - 1] == Message(Assistant, None)
  {
    var blocks := WithBlock(chat, text, None).blocks;
    HistorySpec(blocks);
    var k := |blocks| - 1;
    assert blocks[k] == SingleBlock(text, None);
    assert 2 * k + 1 == |History(blocks).value| - 1;
  }

  // ----- the handlers -----

  /** `cancel_flags`: the chats whose pending response the user has cancelled. */
  class CancelFlags {
    var raised: set<string>

    constructor ()
      ensures raised == {}
    {
      raised := {};
    }

    /** `cancel_chat_response(cid)`: raises the flag, for any id. */
    method Cancel(cid: string)
      modifies this
      ensures raised == old(raised) + {cid}
    {
      raised := raised + {cid};
    }

    /** `cancel_flags.pop(cid, None)`. */
    method Clear(cid: string)
      modifies this
      ensures raised == old(raised) - {cid}
    {
      raised := raised - {cid};
    }
  }

  /** The profile part of `send_message`, run against the store. */
  method UpdateProfile(profiles: ProfileStore, text: string, o: Oracles) returns (info: Profile, memoryUpdated: bool, crashed: bool)
    modifies profiles
    ensures ProfileOutcome(profiles.users, info, memoryUpdated, crashed) == ProfileStep(old(profiles.users), text, o)
  {
    var current := profiles.Current();
    var calls;
    info, calls := ExtractInfo(current, o.infoOuts, o.parse);
    profiles.StoreInfo(info);
    var sentence, _ := ExtractMemory(text, o.memoryOuts);
    memoryUpdated, crashed := false, false;
    if sentence.Some? && sentence.value != "" {
      memoryUpdated, crashed := profiles.Remember(sentence.value);
    }
  }

  /** The classifiers of `send_message`, in its order: the exit the message takes. */
  method Classify(text: string, o: Oracles, cancelled: bool) returns (route: Route)
    ensures route == RouteOf(text, o, cancelled)
  {
    var wants, _, _ := UserWantsFile(text, o.wantOuts);
    var fileType := "";
    if wants {
      var calls;
      fileType, calls := GetFileType(text, o.typeOuts);
    }
    assert wants ==> fileType == FileType(text, o.typeOuts).0;
    route := RouteFrom(wants, fileType, GeneratedFileName(fileType, o.now, o.writerOk), IsImageRequest(text), o.imageOk, cancelled);
  }

  /** The writes of each exit, once the pending block is stored. */
  method Exit(chats: ChatStore, flags: CancelFlags, ghost w: World, cid: string, text: string, o: Oracles, p: ProfileOutcome, route: Route)
    returns (result: SendResult)
    requires cid in w.chats && chats.chats == w.chats[cid := WithBlock(w.chats[cid], text, None)] && flags.raised == w.cancelled
    requires !p.crashed
    modifies chats, flags
    ensures (World(chats.chats, p.users, flags.raised), result) == Outcome(w, cid, text, o, p, true, route)
  {
    ghost var chat := w.chats[cid];
    var idx := |chats.chats[cid].blocks| - 1;
    assert idx == |chat.blocks|;
    var reply: string;
    match route {
      case AskFormat => reply := AskFormatText; result := Replied(reply, Some(idx), false);
      case FileLink(fileName) => reply := FileReply(AiText(o.chatReply), cid, fileName); result := Replied(reply, Some(idx), true);
      case ImageLink => reply := ImageReply(cid, o.now); result := Replied(reply, Some(idx), false);
      case ImageFailed => return Crash;
      case Cancelled =>
        flags.Clear(cid);
        reply := CancelText;
        result := Replied(reply, None, p.memoryUpdated);
      case Plain => reply := AiText(o.chatReply); result := Replied(reply, Some(idx), p.memoryUpdated);
    }
    ReplyInPending(w.chats, cid, text, reply);
    chats.SetReply(cid, reply);
    if route == Plain && idx == 0 {
      var name := SuggestedName(text, o.nameReply);
      if name != "" {
        chats.SetName(cid, name);
        RenameAnswered(w.chats, cid, text, reply, name);
      }
    }
  }

  /** Answering the pending block of chat `cid` gives the chats with that chat answered. */
  lemma ReplyInPending(chats: map<string, ChatData>, cid: string, text: string, reply: string)
    requires cid in chats
    ensures var pending := chats[cid := WithBlock(chats[cid], text, None)];
      pending[cid := SetLastReply(pending[cid], reply)] == AnswerIn(chats, cid, text, reply)
  {
    AnswerPending(chats[cid], text, reply);
  }

  /** Renaming an answered chat is the same as storing the renamed answered chat. */
  lemma RenameAnswered(chats: map<string, ChatData>, cid: string, text: string, reply: string, name: string)
    requires cid in chats
    ensures var answered := AnswerIn(chats, cid, text, reply);
      answered[cid := answered[cid].(name := name)] == chats[cid := WithBlock(chats[cid], text, Some(reply)).(name := name)]
  {
  }

  /**
   * `send_message(cid)`: `message` is the posted message (`None` when
   * missing), `s` the memory settings in force. The new chats, profiles and
   * cancel flags, and the answer, are those of `Send`.
   */
  method SendMessage(chats: ChatStore, profiles: ProfileStore, flags: CancelFlags, cid: string, message: Option<string>, o: Oracles, s: MemorySettings)
    returns (result: SendResult)
    modifies chats, profiles, flags
    ensures (World(chats.chats, profiles.users, flags.raised), result)
      == Send(World(old(chats.chats), old(profiles.users), old(flags.raised)), cid, message, o, s)
  {
    if message.None? || message.value == "" {
      return EmptyMessage;
    }
    var text := o.clean(message.value);
    if |text| > MaxMessageLength {
      return MessageTooLong;
    }
    if cid !in chats.chats {
      return ChatNotFound;
    }
    ghost var w := World(chats.chats, profiles.users, flags.raised);
    chats.AppendPending(cid, text);
    var info, memoryUpdated, crashed := UpdateProfile(profiles, text, o);
    var p := ProfileOutcome(profiles.users, info, memoryUpdated, crashed);
    if crashed {
      return Crash;
    }
    if s.referenceSavedMemories && info != map[] && MemoriesNotIterable(profiles.Current()) {
      return Crash;
    }
    if s.referenceChatHistory && History(chats.chats[cid].blocks).None? {
      return Crash;
    }
    var route := Classify(text, o, cid in flags.raised);
    result := Exit(chats, flags, w, cid, text, o, p, route);
  }
}
